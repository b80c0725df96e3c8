/** What a subscriber sees over a run of the watcher. */
module NetstateLaws {
  import opened Wrappers
  import opened Netstate

  /** The changes that match a mask. */
  function Matching(mask: Change, changes: seq<Change>): seq<Change> {
    if changes == [] then [] else
    var n := |changes| - 1;
    Matching(mask, changes[..n]) + MatchingOne(mask, changes[n])
  }

  function MatchingOne(mask: Change, change: Change): seq<Change> {
    if Wants(mask, change) then [change] else []
  }

  /** How many matching changes find the queue full. */
  function Lost(queue: seq<Change>, mask: Change, changes: seq<Change>): nat {
    if changes == [] then 0 else
    var n := |changes| - 1;
    Lost(queue, mask, changes[..n]) +
    if Wants(mask, changes[n]) && |Deliver(queue, mask, changes[..n])| >= 8 then 1 else 0
  }

  /** xs is ys with some elements left out. */
  predicate Within(xs: seq<Change>, ys: seq<Change>) {
    if xs == [] then true
    else if ys == [] then false
    else (xs[|xs| - 1] == ys[|ys| - 1] && Within(xs[..|xs| - 1], ys[..|ys| - 1])) || Within(xs, ys[..|ys| - 1])
  }

  lemma WithinGrow(xs: seq<Change>, ys: seq<Change>, y: Change)
    requires Within(xs, ys)
    ensures Within(xs, ys + [y]) && Within(xs + [y], ys + [y])
  {
    assert (ys + [y])[..|ys|] == ys && (xs + [y])[..|xs|] == xs;
  }

  lemma {:induction false} WithinSame(xs: seq<Change>)
    ensures Within(xs, xs)
  {
    if xs != [] {
      WithinSame(xs[..|xs| - 1]);
    }
  }

  /** One change offered to a queue. */
  lemma OneWithin(head: seq<Change>, queue: seq<Change>, mask: Change, change: Change, all: seq<Change>)
    requires Within(head + queue, all)
    ensures Within(head + DeliverOne(queue, mask, change), all + MatchingOne(mask, change))
  {
    WithinGrow(head + queue, all, change);
    assert head + (queue + [change]) == head + queue + [change];
    assert all + [] == all;
  }

  lemma MatchingLast(mask: Change, changes: seq<Change>, all: seq<Change>)
    requires changes != []
    ensures var n := |changes| - 1;
            all + Matching(mask, changes) == all + Matching(mask, changes[..n]) + MatchingOne(mask, changes[n])
  {
  }

  /** Delivery appends the matching changes in order, with some left out; `head` stands for what the
      subscriber took before. */
  lemma {:induction false} DeliverWithin(head: seq<Change>, queue: seq<Change>, mask: Change,
      changes: seq<Change>, all: seq<Change>)
    requires Within(head + queue, all)
    ensures Within(head + Deliver(queue, mask, changes), all + Matching(mask, changes))
  {
    if changes == [] {
      assert all + [] == all;
    } else {
      var n := |changes| - 1;
      DeliverWithin(head, queue, mask, changes[..n], all);
      OneWithin(head, Deliver(queue, mask, changes[..n]), mask, changes[n], all + Matching(mask, changes[..n]));
      MatchingLast(mask, changes, all);
    }
  }

  /** Each matching change is queued or lost, and it is lost only to a full queue. */
  lemma {:induction false} DeliverCounts(queue: seq<Change>, mask: Change, changes: seq<Change>)
    requires |queue| <= 8
    ensures |Deliver(queue, mask, changes)| <= 8
    ensures |Deliver(queue, mask, changes)| + Lost(queue, mask, changes) == |queue| + |Matching(mask, changes)|
  {
    if changes != [] {
      DeliverCounts(queue, mask, changes[..|changes| - 1]);
    }
  }

  lemma {:induction false} DeliverAll(queue: seq<Change>, mask: Change, changes: seq<Change>)
    requires |queue| <= 8 && Lost(queue, mask, changes) == 0
    ensures Deliver(queue, mask, changes) == queue + Matching(mask, changes)
  {
    if changes != [] {
      var n := |changes| - 1;
      DeliverAll(queue, mask, changes[..n]);
      DeliverCounts(queue, mask, changes[..n]);
    }
  }

  /** Nothing is lost while there is room. */
  lemma {:induction false} RoomMeansNoLoss(queue: seq<Change>, mask: Change, changes: seq<Change>)
    requires |queue| + |Matching(mask, changes)| <= 8
    ensures Lost(queue, mask, changes) == 0 && Deliver(queue, mask, changes) == queue + Matching(mask, changes)
  {
    if changes != [] {
      var n := |changes| - 1;
      RoomMeansNoLoss(queue, mask, changes[..n]);
    }
    DeliverAll(queue, mask, changes);
  }

  // Whole runs

  /** All matching changes of the link messages received in a run. */
  function Due(slot: Slot, events: seq<Event>): seq<Change> {
    if events == [] then [] else
    var n := |events| - 1;
    Due(slot, events[..n]) + DueNow(slot, events[n])
  }

  function DueNow(slot: Slot, e: Event): seq<Change> {
    match e
    case Received(msgs) => Matching(slot.mask, Stream(msgs, slot.iface))
    case _ => []
  }

  /** What the subscriber took from its channel. */
  function Consumed(slot: Slot, queue: seq<Change>, events: seq<Event>): seq<Change> {
    if events == [] then [] else
    var n := |events| - 1;
    var q := QueueAfter(slot, queue, events[..n]);
    Consumed(slot, queue, events[..n]) + ConsumedNow(slot, q, events[n])
  }

  function ConsumedNow(slot: Slot, queue: seq<Change>, e: Event): seq<Change> {
    if e == Taken(slot) && queue != [] then [queue[0]] else []
  }

  /** The matching changes that found the channel full. */
  function Dropped(slot: Slot, queue: seq<Change>, events: seq<Event>): nat {
    if events == [] then 0 else
    var n := |events| - 1;
    Dropped(slot, queue, events[..n]) + DroppedNow(slot, QueueAfter(slot, queue, events[..n]), events[n])
  }

  function DroppedNow(slot: Slot, queue: seq<Change>, e: Event): nat {
    match e
    case Received(msgs) => Lost(queue, slot.mask, Stream(msgs, slot.iface))
    case _ => 0
  }

  /** Each due change is taken, queued or dropped, and without drops none is missing. */
  predicate Accounted(taken: seq<Change>, queue: seq<Change>, dropped: nat, due: seq<Change>) {
    && |queue| <= 8
    && |taken| + |queue| + dropped == |due|
    && (dropped == 0 ==> taken + queue == due)
  }

  lemma DeliverAccounts(taken: seq<Change>, queue: seq<Change>, dropped: nat, due: seq<Change>, mask: Change,
      changes: seq<Change>)
    requires Accounted(taken, queue, dropped, due)
    ensures Accounted(taken, Deliver(queue, mask, changes), dropped + Lost(queue, mask, changes),
        due + Matching(mask, changes))
  {
    DeliverCounts(queue, mask, changes);
    if dropped == 0 && Lost(queue, mask, changes) == 0 {
      DeliverAll(queue, mask, changes);
      assert taken + (queue + Matching(mask, changes)) == taken + queue + Matching(mask, changes);
    }
  }

  lemma StepAccounts(slot: Slot, e: Event, taken: seq<Change>, queue: seq<Change>, dropped: nat, due: seq<Change>)
    requires Accounted(taken, queue, dropped, due)
    ensures Accounted(taken + ConsumedNow(slot, queue, e), QueueStep(slot, queue, e),
                      dropped + DroppedNow(slot, queue, e),
                      due + DueNow(slot, e))
  {
    match e
    case Received(msgs) =>
      DeliverAccounts(taken, queue, dropped, due, slot.mask, Stream(msgs, slot.iface));
      assert taken + ConsumedNow(slot, queue, e) == taken;
    case Subscribed(_, _) =>
      assert taken + [] == taken && due + [] == due;
    case Taken(s) =>
      assert due + [] == due;
      assert taken + ConsumedNow(slot, queue, e) + QueueStep(slot, queue, e) == taken + queue;
  }

  /** Over every run each matching change of the subscriber's interface is taken, still queued, or dropped
      because the channel was full, and without drops nothing is missing. */
  lemma {:induction false} RunAccounts(slot: Slot, queue: seq<Change>, events: seq<Event>)
    requires |queue| <= 8
    ensures Accounted(Consumed(slot, queue, events), QueueAfter(slot, queue, events), Dropped(slot, queue, events),
                      queue + Due(slot, events))
  {
    if events == [] {
      assert [] + queue == queue && queue + [] == queue;
    } else {
      var n := |events| - 1;
      var taken := Consumed(slot, queue, events[..n]);
      var q, dropped := QueueAfter(slot, queue, events[..n]), Dropped(slot, queue, events[..n]);
      RunAccounts(slot, queue, events[..n]);
      StepAccounts(slot, events[n], taken, q, dropped, queue + Due(slot, events[..n]));
      DueAppend(slot, queue, events);
    }
  }

  lemma DueAppend(slot: Slot, queue: seq<Change>, events: seq<Event>)
    requires events != []
    ensures queue + Due(slot, events) == queue + Due(slot, events[..|events| - 1]) + DueNow(slot, events[|events| - 1])
  {
  }

  lemma StepInOrder(slot: Slot, e: Event, taken: seq<Change>, queue: seq<Change>, due: seq<Change>)
    requires Within(taken + queue, due)
    ensures Within(taken + ConsumedNow(slot, queue, e) + QueueStep(slot, queue, e), due + DueNow(slot, e))
  {
    match e
    case Received(msgs) =>
      DeliverWithin(taken, queue, slot.mask, Stream(msgs, slot.iface), due);
      assert taken + ConsumedNow(slot, queue, e) == taken;
    case Subscribed(_, _) =>
      assert taken + [] == taken && due + [] == due;
    case Taken(s) =>
      assert due + [] == due;
      assert taken + ConsumedNow(slot, queue, e) + QueueStep(slot, queue, e) == taken + queue;
  }

  /** Over every run a subscriber takes, and then holds, matching changes of its interface only, each at
      most once and in the order in which they happened. */
  lemma {:induction false} RunInOrder(slot: Slot, queue: seq<Change>, events: seq<Event>)
    ensures Within(Consumed(slot, queue, events) + QueueAfter(slot, queue, events), queue + Due(slot, events))
  {
    if events == [] {
      WithinSame(queue);
      assert [] + queue == queue && queue + [] == queue;
    } else {
      var n := |events| - 1;
      RunInOrder(slot, queue, events[..n]);
      StepInOrder(slot, events[n], Consumed(slot, queue, events[..n]), QueueAfter(slot, queue, events[..n]),
                  queue + Due(slot, events[..n]));
      DueAppend(slot, queue, events);
    }
  }

  // Channels in terms of the messages alone

  /** The states that messages report for an interface, in order. */
  function States(msgs: seq<Message>, iface: string): seq<OperState> {
    if msgs == [] then [] else
    var n := |msgs| - 1;
    States(msgs[..n], iface) + match msgs[n]
                               case LinkMessage(name, state) => if name == iface then [state] else []
                               case _ => []
  }

  /** The bit that subscribers know a state by; a state the kernel added since has none. */
  function BitOf(state: OperState): Option<Change> {
    match state
    case Up => Some(Change(0x01))
    case Down => Some(Change(0x02))
    case Testing => Some(Change(0x04))
    case StateUnknown => Some(Change(0x08))
    case Dormant => Some(Change(0x10))
    case NotPresent => Some(Change(0x20))
    case LowerLayerDown => Some(Change(0x40))
    case Unrecognized => None
  }

  /** What a subscriber with a mask is told of these states: the bit of each state that its mask has. */
  function Told(mask: Change, states: seq<OperState>): seq<Change> {
    if states == [] then [] else
    var n := |states| - 1;
    Told(mask, states[..n]) + ToldOne(mask, BitOf(states[n]))
  }

  function ToldOne(mask: Change, bit: Option<Change>): seq<Change> {
    if bit.Some? && Wants(mask, bit.value) then [bit.value] else []
  }

  /** The change that stands for a state is its bit. */
  lemma ChangeIsBit(state: OperState)
    ensures OperStateChange(state) == BitOf(state)
  {
  }

  /** A mask covers a change when they have a bit in common. */
  lemma WantsBit(mask: bv64, bit: bv64)
    ensures Wants(Change(mask), Change(bit)) <==> mask & bit != 0
  {
  }

  /** The changes of the messages that match a mask are those a subscriber with it is told of. */
  lemma {:induction false} MatchingIsTold(mask: Change, msgs: seq<Message>, iface: string)
    ensures Matching(mask, Stream(msgs, iface)) == Told(mask, States(msgs, iface))
  {
    if msgs != [] {
      var n := |msgs| - 1;
      MatchingIsTold(mask, msgs[..n], iface);
      if msgs[n].LinkMessage? && msgs[n].name == iface {
        OneMore(mask, msgs, iface, msgs[n].state);
      } else {
        assert Stream(msgs, iface) == Stream(msgs[..n], iface) && States(msgs, iface) == States(msgs[..n], iface);
      }
    }
  }

  lemma OneMore(mask: Change, msgs: seq<Message>, iface: string, state: OperState)
    requires msgs != [] && msgs[|msgs| - 1] == LinkMessage(iface, state)
    requires Matching(mask, Stream(msgs[..|msgs| - 1], iface)) == Told(mask, States(msgs[..|msgs| - 1], iface))
    ensures Matching(mask, Stream(msgs, iface)) == Told(mask, States(msgs, iface))
  {
    var init := msgs[..|msgs| - 1];
    var changes, states, change := Stream(init, iface), States(init, iface), OperStateChange(state);
    ChangeIsBit(state);
    assert States(msgs, iface) == states + [state];
    ToldAppend(mask, states, state);
    if change.None? {
      assert Stream(msgs, iface) == changes;
    } else {
      assert Stream(msgs, iface) == changes + [change.value];
      MatchingAppend(mask, changes, change.value);
    }
  }

  lemma ToldAppend(mask: Change, states: seq<OperState>, state: OperState)
    ensures Told(mask, states + [state]) == Told(mask, states) + ToldOne(mask, BitOf(state))
  {
    assert (states + [state])[..|states|] == states;
  }

  lemma MatchingAppend(mask: Change, changes: seq<Change>, change: Change)
    ensures Matching(mask, changes + [change]) == Matching(mask, changes) + MatchingOne(mask, change)
  {
    assert (changes + [change])[..|changes|] == changes;
  }

  /** With room, a batch of messages adds to the queue of a channel exactly what its mask asks for. */
  lemma QueueTold(queue: seq<Change>, mask: Change, msgs: seq<Message>, iface: string)
    requires |queue| + |Told(mask, States(msgs, iface))| <= 8
    ensures Deliver(queue, mask, Stream(msgs, iface)) == queue + Told(mask, States(msgs, iface))
  {
    MatchingIsTold(mask, msgs, iface);
    RoomMeansNoLoss(queue, mask, Stream(msgs, iface));
  }

  function CountOf(states: seq<OperState>, state: OperState): nat {
    if states == [] then 0 else
    var n := |states| - 1;
    CountOf(states[..n], state) + if states[n] == state then 1 else 0
  }

  function Recognized(states: seq<OperState>): nat {
    if states == [] then 0 else
    var n := |states| - 1;
    Recognized(states[..n]) + if states[n].Unrecognized? then 0 else 1
  }

  /** A mask of one bit gets that bit once for each message of its state, and nothing for any other. */
  lemma {:induction false} OneBitTold(state: OperState, states: seq<OperState>)
    requires BitOf(state).Some?
    ensures var told := Told(BitOf(state).value, states);
            |told| == CountOf(states, state) && forall c :: c in told ==> c == BitOf(state).value
  {
    if states != [] {
      var n := |states| - 1;
      OneBitTold(state, states[..n]);
      if BitOf(states[n]).Some? {
        DistinctBits(state, states[n]);
      }
    }
  }

  lemma DistinctBits(s: OperState, t: OperState)
    requires BitOf(s).Some? && BitOf(t).Some?
    ensures Wants(BitOf(s).value, BitOf(t).value) <==> s == t
    ensures BitOf(s) == BitOf(t) <==> s == t
  {
  }

  lemma AnyBit(s: OperState)
    ensures s.Unrecognized? <==> BitOf(s).None?
    ensures BitOf(s).Some? ==> Wants(Change(0x7f), BitOf(s).value)
  {
  }

  /** The mask of all seven bits gets one change for each recognized message. */
  lemma {:induction false} AllBitsTold(states: seq<OperState>)
    ensures |Told(Change(0x7f), states)| == Recognized(states)
  {
    if states != [] {
      AllBitsTold(states[..|states| - 1]);
      AnyBit(states[|states| - 1]);
    }
  }

  lemma AllSame(changes: seq<Change>, c: Change)
    requires forall x :: x in changes ==> x == c
    ensures changes == seq(|changes|, i => c)
  {
    assert forall i :: 0 <= i < |changes| ==> changes[i] in changes;
  }

  /** The subscription the server makes: with room, one link-down change for each message of its interface
      that reports the state down, and nothing else. */
  lemma LinkDownQueued(queue: seq<Change>, msgs: seq<Message>, iface: string)
    requires |queue| + CountOf(States(msgs, iface), Down) <= 8
    ensures Deliver(queue, LINK_DOWN, Stream(msgs, iface)) ==
            queue + seq(CountOf(States(msgs, iface), Down), i => Change(0x02))
  {
    OneBitTold(Down, States(msgs, iface));
    AllSame(Told(LINK_DOWN, States(msgs, iface)), Change(0x02));
    QueueTold(queue, LINK_DOWN, msgs, iface);
  }
}
