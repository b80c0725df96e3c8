/** Notification of link state changes (package netstate). */
module Netstate {
  import opened Wrappers

  /** A bit mask of changes. */
  datatype Change = Change(bits: bv64)

  const LINK_UP := Change(1)
  const LINK_DOWN := Change(2)
  const LINK_TESTING := Change(4)
  const LINK_UNKNOWN := Change(8)
  const LINK_DORMANT := Change(16)
  const LINK_NOT_PRESENT := Change(32)
  const LINK_LOWER_LAYER_DOWN := Change(64)

  /** Does a subscriber's mask cover a change? */
  predicate Wants(mask: Change, change: Change) {
    mask.bits & change.bits != 0
  }

  const CAPACITY := 8

  datatype OperState = StateUnknown | NotPresent | Down | LowerLayerDown | Testing | Dormant | Up | Unrecognized

  datatype Message = LinkMessage(name: string, state: OperState) | LinkWithoutAttributes | OtherMessage

  function OperStateChange(s: OperState): Option<Change> {
    match s
    case StateUnknown => Some(LINK_UNKNOWN)
    case NotPresent => Some(LINK_NOT_PRESENT)
    case Down => Some(LINK_DOWN)
    case LowerLayerDown => Some(LINK_LOWER_LAYER_DOWN)
    case Testing => Some(LINK_TESTING)
    case Dormant => Some(LINK_DORMANT)
    case Up => Some(LINK_UP)
    case Unrecognized => None
  }

  type ChangeSet = map<string, seq<Change>>

  function ChangesOf(changed: ChangeSet, iface: string): seq<Change> {
    if iface in changed then changed[iface] else []
  }

  // Specification on values

  /** The recognized changes of one interface, in the order of the messages. */
  function Stream(msgs: seq<Message>, iface: string): seq<Change> {
    if msgs == [] then [] else
    var n := |msgs| - 1;
    Stream(msgs[..n], iface) +
    match msgs[n]
    case LinkMessage(name, state) =>
      if name == iface && OperStateChange(state).Some? then [OperStateChange(state).value] else []
    case _ => []
  }

  /** A send that does not block: lost when the buffer is full. */
  function Push(queue: seq<Change>, change: Change): seq<Change> {
    if |queue| < CAPACITY then queue + [change] else queue
  }

  /** A queue after the changes that match its mask were offered in order. */
  function Deliver(queue: seq<Change>, mask: Change, changes: seq<Change>): seq<Change> {
    if changes == [] then queue else
    var n := |changes| - 1;
    DeliverOne(Deliver(queue, mask, changes[..n]), mask, changes[n])
  }

  function DeliverOne(queue: seq<Change>, mask: Change, change: Change): seq<Change> {
    if Wants(mask, change) then Push(queue, change) else queue
  }

  /** Where a channel is registered: its position in one bucket. */
  datatype Slot = Slot(iface: string, mask: Change, index: nat)

  /** What may happen while the watcher runs: a batch of messages, a subscription, or a subscriber
      taking one item from its channel. */
  datatype Event = Received(msgs: seq<Message>) | Subscribed(iface: string, mask: Change) | Taken(slot: Slot)

  function QueueStep(slot: Slot, queue: seq<Change>, e: Event): seq<Change> {
    match e
    case Received(msgs) => Deliver(queue, slot.mask, Stream(msgs, slot.iface))
    case Subscribed(_, _) => queue
    case Taken(s) => if s == slot && queue != [] then queue[1..] else queue
  }

  function QueueAfter(slot: Slot, queue: seq<Change>, events: seq<Event>): seq<Change> {
    if events == [] then queue else
    var n := |events| - 1;
    QueueStep(slot, QueueAfter(slot, queue, events[..n]), events[n])
  }

  /** How many subscriptions to one bucket a run has. */
  function Subscriptions(iface: string, mask: Change, events: seq<Event>): nat {
    if events == [] then 0 else
    var n := |events| - 1;
    Subscriptions(iface, mask, events[..n]) + Joins(iface, mask, events[n])
  }

  function Joins(iface: string, mask: Change, e: Event): nat {
    if e == Subscribed(iface, mask) then 1 else 0
  }

  /** The n-th event is the subscription that registered the channel in this slot, in a bucket that had
      `base` channels before the run. */
  predicate Born(slot: Slot, base: nat, events: seq<Event>, n: nat) {
    && n < |events| && events[n] == Subscribed(slot.iface, slot.mask)
    && slot.index == base + Subscriptions(slot.iface, slot.mask, events[..n])
  }

  /** The queue of a channel registered during the run, which saw the events after its subscription. */
  ghost predicate Lived(slot: Slot, base: nat, queue: seq<Change>, events: seq<Event>) {
    exists n :: Born(slot, base, events, n) && queue == QueueAfter(slot, [], events[n + 1..])
  }

  // The program

  /** A buffered channel; using a closed one panics, so it is never done. */
  class Channel {
    var queue: seq<Change>
    var closed: bool

    constructor ()
      ensures queue == [] && !closed
    {
      queue := [];
      closed := false;
    }

    method Offer(change: Change)
      requires !closed
      modifies this`queue
      ensures queue == Push(old(queue), change)
    {
      if |queue| < CAPACITY {
        queue := queue + [change];
      }
    }

    method Close()
      requires !closed
      modifies this`closed
      ensures closed
    {
      closed := true;
    }
  }

  /** The entry of an interface holds its recognized changes, and there is none without one. */
  predicate Collected(changes: ChangeSet, msgs: seq<Message>, iface: string) {
    (iface in changes <==> Stream(msgs, iface) != []) && ChangesOf(changes, iface) == Stream(msgs, iface)
  }

  /** The change set after one more message. */
  function Collect(changes: ChangeSet, m: Message): ChangeSet {
    match m
    case LinkMessage(name, state) =>
      var c := OperStateChange(state);
      if c.Some? then changes[name := ChangesOf(changes, name) + [c.value]] else changes
    case _ => changes
  }

  lemma CollectStep(changes: ChangeSet, msgs: seq<Message>, i: nat, iface: string)
    requires i < |msgs| && Collected(changes, msgs[..i], iface)
    ensures Collected(Collect(changes, msgs[i]), msgs[..i + 1], iface)
  {
    assert msgs[..i + 1][..i] == msgs[..i];
  }

  method Process(msgs: seq<Message>) returns (changes: ChangeSet)
    ensures forall iface :: iface in changes <==> Stream(msgs, iface) != []
    ensures forall iface :: ChangesOf(changes, iface) == Stream(msgs, iface)
  {
    changes := map[];
    for i := 0 to |msgs|
      invariant forall iface :: iface in changes <==> Stream(msgs[..i], iface) != []
      invariant forall iface :: ChangesOf(changes, iface) == Stream(msgs[..i], iface)
    {
      ghost var before := changes;
      match msgs[i] {
        case LinkWithoutAttributes =>
        case OtherMessage =>
        case LinkMessage(name, state) =>
          var c := OperStateChange(state);
          if c.Some? {
            changes := changes[name := ChangesOf(changes, name) + [c.value]];
          }
      }
      assert changes == Collect(before, msgs[i]);
      forall iface
        ensures iface in changes <==> Stream(msgs[..i + 1], iface) != []
        ensures ChangesOf(changes, iface) == Stream(msgs[..i + 1], iface)
      {
        CollectStep(before, msgs, i, iface);
      }
    }
    assert msgs[..|msgs|] == msgs;
  }

  type Buckets = map<string, map<Change, seq<Channel>>>

  ghost predicate At(m: Buckets, s: Slot, c: Channel) {
    s.iface in m && s.mask in m[s.iface] && s.index < |m[s.iface][s.mask]| && m[s.iface][s.mask][s.index] == c
  }

  /** home gives every channel of the buckets its one position. */
  ghost predicate Placed(m: Buckets, home: map<Channel, Slot>) {
    && (forall c :: c in home ==> At(m, home[c], c))
    && (forall i, k, x :: i in m && k in m[i] && 0 <= x < |m[i][k]| ==>
          m[i][k][x] in home && home[m[i][k][x]] == Slot(i, k, x))
  }

  function Bucket(m: Buckets, iface: string, mask: Change): seq<Channel> {
    if iface in m && mask in m[iface] then m[iface][mask] else []
  }

  lemma PlacedAppend(m: Buckets, home: map<Channel, Slot>, m': Buckets, iface: string, mask: Change, c: Channel)
    requires Placed(m, home) && c !in home
    requires m' == m[iface := (if iface in m then m[iface] else map[])[mask := Bucket(m, iface, mask) + [c]]]
    ensures Placed(m', home[c := Slot(iface, mask, |Bucket(m, iface, mask)|)])
  {
    var home' := home[c := Slot(iface, mask, |Bucket(m, iface, mask)|)];
    forall d | d in home'
      ensures At(m', home'[d], d)
    {
      assert d != c ==> At(m, home[d], d);
    }
    forall i, k, x | i in m' && k in m'[i] && 0 <= x < |m'[i][k]|
      ensures m'[i][k][x] in home' && home'[m'[i][k][x]] == Slot(i, k, x)
    {
      if i == iface && k == mask && x == |Bucket(m, iface, mask)| {
        assert m'[i][k][x] == c;
      } else {
        assert i in m && k in m[i] && x < |m[i][k]| && m'[i][k][x] == m[i][k][x];
      }
    }
  }

  class Watcher {
    var watching: bool
    var m: Buckets

    /** The one slot of every registered channel. */
    ghost var home: map<Channel, Slot>

    constructor ()
      ensures Valid() && home == map[] && !watching
    {
      watching := false;
      m := map[];
      home := map[];
    }

    /** Each registered channel is in exactly one position of exactly one bucket. */
    ghost predicate Valid()
      reads this
    {
      Placed(m, home)
    }

    ghost predicate AllOpen()
      reads this, home.Keys
    {
      forall c :: c in home ==> !c.closed
    }

    method Subscribe(iface: string, changes: Change) returns (c: Channel)
      requires Valid()
      modifies this`m, this`home
      ensures Valid() && fresh(c) && c.queue == [] && !c.closed
      ensures c !in old(home) && home == old(home)[c := Slot(iface, changes, Size(old(m), iface, changes))]
      ensures forall i, k :: Bucket(m, i, k) == Bucket(old(m), i, k) + if i == iface && k == changes then [c] else []
    {
      c := new Channel();
      ghost var was := m;
      if iface !in m {
        m := m[iface := map[]];
      }
      var bucket := if changes in m[iface] then m[iface][changes] else [];
      m := m[iface := m[iface][changes := bucket + [c]]];
      PlacedAppend(was, home, m, iface, changes, c);
      home := home[c := Slot(iface, changes, |bucket|)];
    }

    /** The innermost loop of notify: offers a change to every channel of a bucket. */
    method Broadcast(iface: string, mask: Change, change: Change)
      requires Valid() && AllOpen() && iface in m && mask in m[iface]
      modifies home.Keys`queue
      ensures forall c :: c in home ==>
                c.queue == if home[c].iface == iface && home[c].mask == mask
                           then Push(old(c.queue), change) else old(c.queue)
    {
      var v := m[iface][mask];
      for x := 0 to |v|
        invariant forall c :: c in home ==>
                    c.queue == if home[c].iface == iface && home[c].mask == mask && home[c].index < x
                               then Push(old(c.queue), change) else old(c.queue)
      {
        var c := v[x];
        assert c in home && home[c] == Slot(iface, mask, x);
        assert forall d :: d in home && home[d] == home[c] ==> d == c;
        c.Offer(change);
      }
    }

    /** The loop of notify over the masks registered for an interface, in any order. */
    method Tell(iface: string, change: Change)
      requires Valid() && AllOpen() && iface in m
      modifies home.Keys`queue
      ensures forall c :: c in home ==>
                c.queue == if home[c].iface == iface && Wants(home[c].mask, change)
                           then Push(old(c.queue), change) else old(c.queue)
    {
      var todo := m[iface].Keys;
      while todo != {}
        invariant todo <= m[iface].Keys
        invariant forall c :: c in home ==>
                    c.queue == if home[c].iface == iface && Wants(home[c].mask, change) && home[c].mask !in todo
                               then Push(old(c.queue), change) else old(c.queue)
        decreases |todo|
      {
        var k :| k in todo;
        todo := todo - {k};
        if Wants(k, change) {
          Broadcast(iface, k, change);
        }
      }
    }

    /** Notifies every subscriber, in any order of the interfaces and buckets. */
    method Notify(changed: ChangeSet)
      requires Valid() && AllOpen()
      modifies home.Keys`queue
      ensures forall c :: c in home ==> c.queue == Deliver(old(c.queue), home[c].mask, ChangesOf(changed, home[c].iface))
    {
      var todo := changed.Keys;
      while todo != {}
        invariant todo <= changed.Keys
        invariant forall c :: c in home ==>
                    c.queue == Deliver(old(c.queue), home[c].mask,
                                       if home[c].iface in todo then [] else ChangesOf(changed, home[c].iface))
        decreases |todo|
      {
        var iface :| iface in todo;
        todo := todo - {iface};
        if iface !in m {
          continue;
        }
        var changes := changed[iface];
        for i := 0 to |changes|
          invariant forall c :: c in home ==>
                      c.queue == Deliver(old(c.queue), home[c].mask,
                                         if home[c].iface == iface then changes[..i]
                                         else if home[c].iface in todo then [] else ChangesOf(changed, home[c].iface))
        {
          Tell(iface, changes[i]);
          forall c | c in home
            ensures Deliver(old(c.queue), home[c].mask, changes[..i + 1])
                 == DeliverOne(Deliver(old(c.queue), home[c].mask, changes[..i]), home[c].mask, changes[i])
          {
            DeliverStep(old(c.queue), home[c].mask, changes, i);
          }
        }
        assert changes[..|changes|] == changes;
      }
    }

    /** The innermost of the deferred loops: closes the channels of a bucket. */
    method CloseBucket(iface: string, mask: Change)
      requires Valid() && iface in m && mask in m[iface]
      requires forall c :: c in home && home[c].iface == iface && home[c].mask == mask ==> !c.closed
      modifies home.Keys`closed
      ensures forall c :: c in home ==>
                c.closed == if home[c].iface == iface && home[c].mask == mask then true else old(c.closed)
    {
      var v := m[iface][mask];
      for x := 0 to |v|
        invariant forall c :: c in home ==>
                    c.closed == if home[c].iface == iface && home[c].mask == mask then home[c].index < x
                                else old(c.closed)
      {
        var c := v[x];
        assert c in home && home[c] == Slot(iface, mask, x);
        assert forall d :: d in home && home[d] == home[c] ==> d == c;
        c.Close();
      }
    }

    /** The deferred loops: closes every registered channel. */
    method CloseAll()
      requires Valid() && AllOpen()
      modifies home.Keys`closed
      ensures forall c :: c in home ==> c.closed
    {
      var ifaces := m.Keys;
      while ifaces != {}
        invariant ifaces <= m.Keys
        invariant forall c :: c in home ==> c.closed == (home[c].iface !in ifaces)
        decreases |ifaces|
      {
        var iface :| iface in ifaces;
        ifaces := ifaces - {iface};
        var masks := m[iface].Keys;
        while masks != {}
          invariant masks <= m[iface].Keys
          invariant forall c :: c in home ==>
                      c.closed == (home[c].iface !in ifaces && (home[c].iface == iface ==> home[c].mask !in masks))
          decreases |masks|
        {
          var k :| k in masks;
          masks := masks - {k};
          CloseBucket(iface, k);
        }
      }
    }

    /** One step of a run. */
    method Step(e: Event)
      requires Valid() && AllOpen()
      modifies this`m, this`home, home.Keys`queue
      ensures Valid() && AllOpen()
      ensures forall c :: c in old(home) ==> c in home && home[c] == old(home)[c]
      ensures forall c :: c in old(home) ==> c.queue == QueueStep(home[c], old(c.queue), e)
      ensures forall c :: c in home && c !in old(home) ==> Newcomer(c, old(m), e) && fresh(c)
      ensures forall iface, mask :: Size(m, iface, mask) == Size(old(m), iface, mask) + Joins(iface, mask, e)
    {
      match e
      case Received(msgs) =>
        Receive(msgs);
      case Subscribed(iface, mask) =>
        Join(iface, mask);
      case Taken(s) =>
        Take(s);
    }

    /** One batch of messages from the kernel, processed and passed on. */
    method Receive(msgs: seq<Message>)
      requires Valid() && AllOpen()
      modifies home.Keys`queue
      ensures forall c :: c in home ==> c.queue == QueueStep(home[c], old(c.queue), Received(msgs))
    {
      var changed := Process(msgs);
      Notify(changed);
    }

    /** A subscription by another goroutine. */
    method Join(iface: string, mask: Change)
      requires Valid() && AllOpen()
      modifies this`m, this`home
      ensures Valid() && AllOpen()
      ensures forall c :: c in old(home) ==> c in home && home[c] == old(home)[c]
      ensures forall c :: c in home && c !in old(home) ==> Newcomer(c, old(m), Subscribed(iface, mask)) && fresh(c)
      ensures forall i, k :: Size(m, i, k) == Size(old(m), i, k) + Joins(i, k, Subscribed(iface, mask))
    {
      var c := Subscribe(iface, mask);
    }

    /** A subscriber receives from its channel, if it is registered and not empty. */
    method Take(s: Slot)
      requires Valid()
      modifies home.Keys`queue
      ensures forall c :: c in home ==> c.queue == QueueStep(home[c], old(c.queue), Taken(s))
    {
      if s.iface in m && s.mask in m[s.iface] && s.index < |m[s.iface][s.mask]| {
        var c := m[s.iface][s.mask][s.index];
        assert c in home;
        if c.queue != [] {
          c.queue := c.queue[1..];
        }
      }
    }

    /** c was registered, empty, by event e at the end of its bucket. */
    ghost predicate Newcomer(c: Channel, was: Buckets, e: Event)
      requires c in home
      reads this, c
    {
      && e == Subscribed(home[c].iface, home[c].mask) && c.queue == []
      && home[c].index == Size(was, home[c].iface, home[c].mask)
    }

    /** The loop of osWatch, interleaved with the other goroutines' steps. */
    method Serve(events: seq<Event>)
      requires Valid() && AllOpen()
      modifies this`m, this`home, home.Keys`queue
      ensures Valid() && AllOpen()
      ensures forall c :: c in old(home) ==> c in home && home[c] == old(home)[c]
      ensures forall c :: c in old(home) ==> c.queue == QueueAfter(home[c], old(c.queue), events)
      ensures forall c :: c in home && c !in old(home) ==>
                fresh(c) && Lived(home[c], Size(old(m), home[c].iface, home[c].mask), c.queue, events)
      ensures forall iface, mask ::
                Size(m, iface, mask) == Size(old(m), iface, mask) + Subscriptions(iface, mask, events)
    {
      for i := 0 to |events|
        invariant Valid() && AllOpen()
        invariant forall c :: c in old(home) ==> c in home && home[c] == old(home)[c]
        invariant forall c :: c in old(home) ==> c.queue == QueueAfter(home[c], old(c.queue), events[..i])
        invariant forall c :: c in home && c !in old(home) ==>
                    fresh(c) && Lived(home[c], Size(old(m), home[c].iface, home[c].mask), c.queue, events[..i])
        invariant forall iface, mask ::
                    Size(m, iface, mask) == Size(old(m), iface, mask) + Subscriptions(iface, mask, events[..i])
      {
        label before:
        Step(events[i]);
        forall c | c in home && c !in old(home)
          ensures fresh(c) && Lived(home[c], Size(old(m), home[c].iface, home[c].mask), c.queue, events[..i + 1])
        {
          var base := Size(old(m), home[c].iface, home[c].mask);
          if c in old@before(home) {
            LivedStep(home[c], base, old@before(c.queue), events, i);
          } else {
            LivedNew(home[c], base, events, i);
          }
        }
        forall c | c in old(home)
          ensures c.queue == QueueAfter(home[c], old(c.queue), events[..i + 1])
        {
          QueueAfterStep(home[c], old(c.queue), events, i);
        }
        SubscriptionsStep(events, i);
      }
      assert events[..|events|] == events;
    }

    /** A run of the watcher until its context is canceled or its socket fails, with the subscriptions
        and receives that other goroutines make meanwhile. A second call panics. */
    method Watch(events: seq<Event>) returns (panicked: bool)
      requires Valid() && (!watching ==> AllOpen())
      modifies this, home.Keys
      ensures panicked == old(watching)
      ensures panicked ==> unchanged(this) && unchanged(home.Keys)
      ensures !panicked ==> Valid() && watching && forall c :: c in home ==> c.closed
      ensures !panicked ==> forall c :: c in old(home) ==> c in home && home[c] == old(home)[c]
      ensures !panicked ==> forall c :: c in old(home) ==> c.queue == QueueAfter(home[c], old(c.queue), events)
      ensures !panicked ==> forall c :: c in home && c !in old(home) ==>
                fresh(c) && Lived(home[c], Size(old(m), home[c].iface, home[c].mask), c.queue, events)
      ensures !panicked ==> forall iface, mask ::
                Size(m, iface, mask) == Size(old(m), iface, mask) + Subscriptions(iface, mask, events)
    {
      if watching {
        return true;
      }
      watching := true;
      Serve(events);
      CloseAll();
      return false;
    }
  }

  /** The number of channels in a bucket. */
  function Size(m: Buckets, iface: string, mask: Change): nat {
    |Bucket(m, iface, mask)|
  }

  lemma SubscriptionsStep(events: seq<Event>, i: nat)
    requires i < |events|
    ensures forall iface, mask ::
              Subscriptions(iface, mask, events[..i + 1]) ==
              Subscriptions(iface, mask, events[..i]) + Joins(iface, mask, events[i])
  {
    assert events[..i + 1][..i] == events[..i];
  }

  lemma QueueAfterStep(slot: Slot, queue: seq<Change>, events: seq<Event>, i: nat)
    requires i < |events|
    ensures QueueAfter(slot, queue, events[..i + 1]) == QueueStep(slot, QueueAfter(slot, queue, events[..i]), events[i])
  {
    assert events[..i + 1][..i] == events[..i];
  }

  lemma LivedStep(slot: Slot, base: nat, queue: seq<Change>, events: seq<Event>, i: nat)
    requires i < |events| && Lived(slot, base, queue, events[..i])
    ensures Lived(slot, base, QueueStep(slot, queue, events[i]), events[..i + 1])
  {
    var n: nat :| Born(slot, base, events[..i], n) && queue == QueueAfter(slot, [], events[..i][n + 1..]);
    var later := events[..i + 1][n + 1..];
    assert later[..|later| - 1] == events[..i][n + 1..] && later[|later| - 1] == events[i];
    assert QueueAfter(slot, [], later) == QueueStep(slot, queue, events[i]);
    assert events[..i + 1][..n] == events[..i][..n];
    assert Born(slot, base, events[..i + 1], n);
  }

  lemma LivedNew(slot: Slot, base: nat, events: seq<Event>, i: nat)
    requires i < |events| && events[i] == Subscribed(slot.iface, slot.mask)
    requires slot.index == base + Subscriptions(slot.iface, slot.mask, events[..i])
    ensures Lived(slot, base, [], events[..i + 1])
  {
    assert events[..i + 1][..i] == events[..i];
    assert Born(slot, base, events[..i + 1], i);
    assert events[..i + 1][i + 1..] == [];
  }

  lemma DeliverStep(queue: seq<Change>, mask: Change, changes: seq<Change>, i: nat)
    requires i < |changes|
    ensures Deliver(queue, mask, changes[..i + 1]) == DeliverOne(Deliver(queue, mask, changes[..i]), mask, changes[i])
  {
    assert changes[..i + 1][..i] == changes[..i];
  }
}
