/** Laws of the due times: r are the multicast request instants, start the start of the scheduler and
    d the minimum delay between multicast advertisements. */
module SchedulerLaws {
  import opened Netip
  import opened Ndp
  import opened Scheduler

  predicate Ordered(start: int, r: seq<int>) {
    forall i :: 0 <= i < |r| ==> Prev(start, r, i) <= r[i]
  }

  /** A due time is at least d after the previous request and at most d after its own. */
  lemma DueBounds(start: int, d: nat, r: seq<int>, i: nat)
    requires i < |r| && Ordered(start, r)
    ensures Prev(start, r, i) + d <= Due(start, d, r, i) <= r[i] + d
    ensures r[i] <= Due(start, d, r, i)
  {
  }

  lemma {:induction false} OrderedFrom(start: int, r: seq<int>, i: nat, j: nat)
    requires i <= j < |r| && Ordered(start, r)
    ensures start <= r[i] <= r[j]
    decreases j
  {
    if i < j {
      OrderedFrom(start, r, i, j - 1);
    } else if i > 0 {
      OrderedFrom(start, r, i - 1, i - 1);
    }
    assert Prev(start, r, j) <= r[j];
  }

  /** Due times keep the order of the requests and none falls within d of the start. */
  lemma DueOrder(start: int, d: nat, r: seq<int>, i: nat, j: nat)
    requires i < j < |r| && Ordered(start, r)
    ensures start + d <= Due(start, d, r, i) <= Due(start, d, r, j)
  {
    DueBounds(start, d, r, i);
    DueBounds(start, d, r, j);
    OrderedFrom(start, r, i, j - 1);
    if i > 0 {
      OrderedFrom(start, r, i - 1, i - 1);
    }
  }

  /** At most one due time in any window shorter than d, as section 6.2.6 of RFC 4861 asks. */
  ghost predicate RateLimited(start: int, d: nat, r: seq<int>) {
    forall i, j :: 0 <= i < j < |r| ==> Due(start, d, r, i) + d <= Due(start, d, r, j)
  }

  /** Neither request came early, or the second leaves room for the delay of the first. */
  predicate RoomAfter(start: int, d: nat, r: seq<int>, i: nat)
    requires i + 1 < |r|
  {
    Gap(start, r, i) >= d || Gap(start, r, i + 1) >= 2 * d
  }

  lemma NeighboursLimited(start: int, d: nat, r: seq<int>, i: nat)
    requires i + 1 < |r| && Ordered(start, r)
    ensures Due(start, d, r, i) + d <= Due(start, d, r, i + 1) <==> RoomAfter(start, d, r, i)
  {
    assert Prev(start, r, i + 1) <= r[i + 1];
  }

  /** The limit holds over a run exactly when every early request is followed by a gap of at least 2d. */
  lemma RateLimitedIff(start: int, d: nat, r: seq<int>)
    requires Ordered(start, r)
    ensures RateLimited(start, d, r) <==> forall i :: 0 <= i < |r| - 1 ==> RoomAfter(start, d, r, i)
  {
    forall i | 0 <= i < |r| - 1
      ensures Due(start, d, r, i) + d <= Due(start, d, r, i + 1) <==> RoomAfter(start, d, r, i)
    {
      NeighboursLimited(start, d, r, i);
    }
    if forall i :: 0 <= i < |r| - 1 ==> RoomAfter(start, d, r, i) {
      forall i, j | 0 <= i < j < |r|
        ensures Due(start, d, r, i) + d <= Due(start, d, r, j)
      {
        if i + 1 < j {
          DueOrder(start, d, r, i + 1, j);
        }
        assert RoomAfter(start, d, r, i);
      }
    } else {
      var i :| 0 <= i < |r| - 1 && !RoomAfter(start, d, r, i);
      assert Due(start, d, r, i) + d > Due(start, d, r, i + 1);
    }
  }

  /** Requests at least 2d apart meet the limit, whatever the first one. */
  lemma WideRequestsLimited(start: int, d: nat, r: seq<int>)
    requires Ordered(start, r)
    requires forall i :: 1 <= i < |r| ==> Gap(start, r, i) >= 2 * d
    ensures RateLimited(start, d, r)
  {
    RateLimitedIff(start, d, r);
  }

  /** With requests only d apart, sends two positions apart are still at least d apart. */
  lemma TwoApart(start: int, d: nat, r: seq<int>, i: nat)
    requires i + 2 < |r| && Ordered(start, r) && Gap(start, r, i + 1) >= d
    ensures Due(start, d, r, i) + d <= Due(start, d, r, i + 2)
  {
    DueBounds(start, d, r, i);
    DueBounds(start, d, r, i + 2);
  }

  /** The delay is taken from the request, not from the previous send: requests made d apart from the
      start on, as an interval of three seconds allows, put the first two sends at the same instant. */
  lemma SameInstant(start: int, d: nat)
    requires d > 0
    ensures Dues(start, d, [start, start + d]) == [start + d, start + d]
    ensures !RateLimited(start, d, [start, start + d])
  {
    var r := [start, start + d];
    assert Due(start, d, r, 0) == Due(start, d, r, 1) == start + d;
  }

  /** Requests made together are sent together: any number of sends may fall on one instant. */
  lemma Burst(start: int, d: nat, r: seq<int>, i: nat, j: nat)
    requires d > 0 && Ordered(start, r) && 0 < i < j < |r|
    requires forall k :: 0 <= k < |r| ==> r[k] == r[0]
    ensures Due(start, d, r, i) == Due(start, d, r, j)
  {
    assert r[i - 1] == r[j - 1] == r[i] == r[j];
  }

  // The generator

  lemma RoundSecondNear(x: nat, whole: nat)
    ensures RoundSecond(x) % SECOND == 0
    ensures x - SECOND / 2 < RoundSecond(x) <= x + SECOND / 2
    ensures whole % SECOND == 0 && whole <= x ==> whole <= RoundSecond(x)
    ensures whole % SECOND == 0 && x <= whole ==> RoundSecond(x) <= whole
  {
  }

  /** Every delay is a whole number of seconds within half a second of [min, max], inside it when the
      bounds are whole seconds, except that the first three are capped at 16 seconds. */
  lemma MulticastDelayBounds(i: nat, min: nat, max: nat, rnd: nat)
    requires min <= max && Random(min, max, rnd)
    ensures var d := MulticastDelay(i, min, max, rnd);
            && d % SECOND == 0
            && d <= max + SECOND / 2
            && (i < 3 ==> d <= 16 * SECOND)
            && (d != 16 * SECOND || i >= 3 ==> min - SECOND / 2 < d)
            && (d != 16 * SECOND || i >= 3 ==> min % SECOND == 0 ==> min <= d)
            && (max % SECOND == 0 ==> d <= max)
  {
    var x := if min == max then max else min + rnd;
    RoundSecondNear(x, min);
    RoundSecondNear(x, max);
  }

  /** A later draw never gives an earlier delay. */
  lemma MulticastDelayGrows(i: nat, min: nat, max: nat, rnd: nat, rnd': nat)
    requires min <= max && Random(min, max, rnd') && rnd <= rnd'
    ensures MulticastDelay(i, min, max, rnd) <= MulticastDelay(i, min, max, rnd')
  {
  }

  /** Every whole second strictly inside the interval is the delay of some draw, the cap of the first three
      aside; an interval of one value has that value's nearest second. */
  lemma MulticastDelayReaches(i: nat, min: nat, max: nat, whole: nat) returns (rnd: nat)
    requires whole % 1_000_000_000 == 0 && (min < whole < max || min == whole == max)
    ensures Random(min, max, rnd)
    ensures MulticastDelay(i, min, max, rnd) == if i < 3 && whole > 16_000_000_000 then 16_000_000_000 else whole
  {
    rnd := whole - min;
  }

  lemma MulticastDelayAtLeast(i: nat, min: nat, max: nat, rnd: nat, least: nat)
    requires min <= max && Random(min, max, rnd)
    requires least % SECOND == 0 && least <= min && least <= 16 * SECOND
    ensures MulticastDelay(i, min, max, rnd) >= least
  {
    RoundSecondNear(if min == max then max else min + rnd, least);
  }

  /** Without solicited multicast requests, a minimum interval of at least 2d meets the limit, if one of
      the two is a whole number of seconds and the cap of the first delays leaves room. */
  lemma GeneratorLimited(start: int, d: nat, min: nat, max: nat, r: seq<int>)
    requires 2 * d <= min <= max && 2 * d <= MAX_INITIAL_ADV_INTERVAL
    requires 2 * d % SECOND == 0 || min % SECOND == 0
    requires r != [] ==> start <= r[0]
    requires forall i :: 0 <= i < |r| - 1 ==> Spaced(i, min, max, r[i + 1] - r[i])
    ensures Ordered(start, r) && RateLimited(start, d, r)
  {
    var least := if 2 * d % SECOND == 0 then 2 * d
                 else if min <= MAX_INITIAL_ADV_INTERVAL then min
                 else MAX_INITIAL_ADV_INTERVAL;
    forall i | 1 <= i < |r|
      ensures Gap(start, r, i) >= 2 * d && Prev(start, r, i) <= r[i]
    {
      assert Spaced(i - 1, min, max, r[i - 1 + 1] - r[i - 1]);
      var rnd: nat :| Random(min, max, rnd) && r[i] - r[i - 1] >= MulticastDelay(i - 1, min, max, rnd);
      MulticastDelayAtLeast(i - 1, min, max, rnd, least);
    }
    WideRequestsLimited(start, d, r);
  }

  /** Multicast requests only. */
  function GroupRequests(r: seq<int>): seq<Request> {
    seq(|r|, i requires 0 <= i < |r| => Request(r[i], AllNodes()))
  }

  lemma {:induction false} GroupTimes(r: seq<int>)
    ensures Times(GroupRequests(r)) == r
  {
    AllNodesIsGroup();
    if r != [] {
      var n := |r| - 1;
      GroupTimes(r[..n]);
      assert GroupRequests(r)[..n] == GroupRequests(r[..n]);
    }
  }

  lemma {:induction false} GroupDueTimes(sends: seq<Send>)
    requires forall i :: 0 <= i < |sends| ==> sends[i].dst == AllNodes()
    ensures |DueTimes(sends)| == |sends| && forall i :: 0 <= i < |sends| ==> DueTimes(sends)[i] == sends[i].due
  {
    AllNodesIsGroup();
    if sends != [] {
      GroupDueTimes(sends[..|sends| - 1]);
    }
  }

  lemma GroupSends(start: int, d: nat, r: seq<int>, sends: seq<Send>, i: nat)
    requires |sends| == |r| && i < |r|
    requires forall k :: 0 <= k < |sends| ==> sends[k].dst == AllNodes()
    requires DueTimes(sends) == Dues(start, d, Times(GroupRequests(r)))
    ensures sends[i].due == Due(start, d, r, i)
  {
    GroupTimes(r);
    GroupDueTimes(sends);
    assert DueTimes(sends)[i] == sends[i].due;
  }

  lemma GroupSendsApart(start: int, d: nat, r: seq<int>, sends: seq<Send>)
    requires |sends| == |r| && RateLimited(start, d, r)
    requires forall k :: 0 <= k < |sends| ==> sends[k].dst == AllNodes()
    requires DueTimes(sends) == Dues(start, d, Times(GroupRequests(r)))
    ensures forall i, j :: 0 <= i < j < |sends| ==> sends[i].due + d <= sends[j].due
  {
    forall i, j | 0 <= i < j < |sends|
      ensures sends[i].due + d <= sends[j].due
    {
      GroupSends(start, d, r, sends, i);
      GroupSends(start, d, r, sends, j);
    }
  }

  /** The generator feeding the scheduler: with the default minimum delay of 3 seconds and a minimum
      interval of at least 6, no two advertisements are due less than 3 seconds apart. */
  method Unsolicited(start: int, min: nat, max: nat, turns: nat) returns (sends: seq<Send>)
    requires 6_000_000_000 <= min <= max
    ensures |sends| == turns
    ensures forall i :: 0 <= i < turns ==> sends[i].dst == AllNodes()
    ensures forall i, j :: 0 <= i < j < turns ==> sends[i].due + 3_000_000_000 <= sends[j].due
  {
    var r := Generate(start, min, max, turns);
    var reqs := GroupRequests(r);
    sends := Schedule(start, MIN_DELAY_BETWEEN_RAS, reqs);
    GeneratorLimited(start, MIN_DELAY_BETWEEN_RAS, min, max, r);
    assert forall i :: 0 <= i < turns ==> Serves(sends[i], reqs[i]);
    GroupSendsApart(start, MIN_DELAY_BETWEEN_RAS, r, sends);
  }
}
