/** When router advertisements are sent: the request generator, the handling of solicitations and the
    scheduler (corerad/advertise.go). Instants are nanoseconds of a clock that never goes back. */
module Scheduler {
  import opened Netip
  import opened Ndp

  const MAX_INITIAL_ADV_INTERVAL := 16 * SECOND
  const MAX_INITIAL_ADV := 3
  const MIN_DELAY_BETWEEN_RAS := 3 * SECOND
  const MAX_RA_DELAY := 500 * MILLISECOND

  datatype Request = Request(at: int, dst: Addr)

  datatype Send = Send(due: int, dst: Addr)

  predicate ToGroup(a: Addr) {
    a.V6? && IsMulticast(a)
  }

  /** ff02::1 */
  function AllNodes(): Addr {
    AllNodesFits();
    V6(0xff02 * Pow2(112) + 1)
  }

  /** The destination of the answer to a router solicitation. */
  function Answer(host: Addr): Addr {
    if IsUnspecified(host) then AllNodes() else host
  }

  // Requests and sends as multicast instants

  function Times(reqs: seq<Request>): seq<int> {
    if reqs == [] then [] else
    var n := |reqs| - 1;
    Times(reqs[..n]) + if ToGroup(reqs[n].dst) then [reqs[n].at] else []
  }

  function DueTimes(sends: seq<Send>): seq<int> {
    if sends == [] then [] else
    var n := |sends| - 1;
    DueTimes(sends[..n]) + if ToGroup(sends[n].dst) then [sends[n].due] else []
  }

  /** The instant before the i-th multicast request: the previous one, or the start of the scheduler. */
  function Prev(start: int, r: seq<int>, i: nat): int
    requires i <= |r|
  {
    if i == 0 then start else r[i - 1]
  }

  function Gap(start: int, r: seq<int>, i: nat): int
    requires i < |r|
  {
    r[i] - Prev(start, r, i)
  }

  /** The due time of the i-th multicast request, for a minimum delay d. */
  function Due(start: int, d: int, r: seq<int>, i: nat): int
    requires i < |r|
  {
    if Gap(start, r, i) < d then r[i] + d else r[i]
  }

  function Dues(start: int, d: int, r: seq<int>): (s: seq<int>)
    ensures |s| == |r|
    ensures forall i :: 0 <= i < |r| ==> s[i] == Due(start, d, r, i)
  {
    if r == [] then [] else
    var n := |r| - 1;
    Dues(start, d, r[..n]) + [Due(start, d, r, n)]
  }

  /** A send that answers a request: to its destination and, unless multicast, within the random delay. */
  predicate Serves(send: Send, req: Request) {
    send.dst == req.dst && (!ToGroup(req.dst) ==> req.at <= send.due < req.at + 500_000_000)
  }

  /** The scheduler's loop, over the requests it accepts before it is canceled: one send for each
      request, the multicast ones due as Dues says. */
  method Schedule(start: int, d: int, reqs: seq<Request>) returns (sends: seq<Send>)
    ensures |sends| == |reqs|
    ensures forall i :: 0 <= i < |reqs| ==> Serves(sends[i], reqs[i])
    ensures DueTimes(sends) == Dues(start, d, Times(reqs))
  {
    sends := [];
    var lastMulticast := start;
    for i := 0 to |reqs|
      invariant |sends| == i
      invariant forall k :: 0 <= k < i ==> Serves(sends[k], reqs[k])
      invariant DueTimes(sends) == Dues(start, d, Times(reqs[..i]))
      invariant lastMulticast == Prev(start, Times(reqs[..i]), |Times(reqs[..i])|)
    {
      var now, ip := reqs[i].at, reqs[i].dst;
      var delay := 0;
      if !ToGroup(ip) {
        var jitter: int :| 0 <= jitter < MAX_RA_DELAY;
        delay := jitter;
      } else {
        if now - lastMulticast < d {
          delay := d;
        }
        lastMulticast := now;
      }
      var send := Send(now + delay, ip);
      assert Serves(send, reqs[i]);
      ScheduleStep(start, d, reqs, i, sends, send);
      sends := sends + [send];
    }
    assert reqs[..|reqs|] == reqs;
  }

  /** One turn of the scheduler's loop, as seen by the multicast requests alone. */
  lemma ScheduleStep(start: int, d: int, reqs: seq<Request>, i: nat, sends: seq<Send>, send: Send)
    requires i < |reqs| && DueTimes(sends) == Dues(start, d, Times(reqs[..i])) && send.dst == reqs[i].dst
    requires var r, now := Times(reqs[..i]), reqs[i].at;
             ToGroup(send.dst) ==> send.due == if now - Prev(start, r, |r|) < d then now + d else now
    ensures DueTimes(sends + [send]) == Dues(start, d, Times(reqs[..i + 1]))
    ensures var r, r' := Times(reqs[..i]), Times(reqs[..i + 1]);
            Prev(start, r', |r'|) == if ToGroup(send.dst) then reqs[i].at else Prev(start, r, |r|)
  {
    TimesStep(reqs, i);
    DueTimesAppend(sends, send);
    DuesAppend(start, d, Times(reqs[..i]), reqs[i].at);
  }

  lemma TimesStep(reqs: seq<Request>, i: nat)
    requires i < |reqs|
    ensures Times(reqs[..i + 1]) == Times(reqs[..i]) + if ToGroup(reqs[i].dst) then [reqs[i].at] else []
  {
    assert reqs[..i + 1][..i] == reqs[..i];
  }

  lemma DueTimesAppend(sends: seq<Send>, x: Send)
    ensures DueTimes(sends + [x]) == DueTimes(sends) + if ToGroup(x.dst) then [x.due] else []
  {
    assert (sends + [x])[..|sends|] == sends;
  }

  lemma DuesAppend(start: int, d: int, r: seq<int>, t: int)
    ensures Dues(start, d, r + [t]) == Dues(start, d, r) + [if t - Prev(start, r, |r|) < d then t + d else t]
  {
    assert (r + [t])[..|r|] == r;
  }

  lemma AllNodesFits()
    ensures 0xff02 * Pow2(112) + 1 < Pow2(128)
  {
    Pow2Words();
    Pow2Above(16, 112, 0xff02);
    assert Pow2(112) > 1;
  }

  lemma AllNodesIsGroup()
    ensures ToGroup(AllNodes())
  {
    Pow2Add(8, 112);
    Pow2Words();
    DivUnique(AllNodes().n, Pow2(120), 0xff, 2 * Pow2(112) + 1);
  }

  /** A solicitation without a source address asks for a multicast advertisement, any other for one
      to its source. */
  lemma AnswerKind(host: Addr)
    requires host.V6? && !IsMulticast(host)
    ensures ToGroup(Answer(host)) <==> host.n == 0
    ensures Answer(host) == if host.n == 0 then AllNodes() else host
  {
    AllNodesIsGroup();
  }

  // The generator of unsolicited requests

  /** Duration.Round(time.Second) of a non-negative duration: half a second rounds up. */
  function RoundSecond(x: nat): nat {
    var r := x % SECOND;
    if r + r < SECOND then x - r else x + SECOND - r
  }

  /** What Int63n(max - min) may give; it panics unless its argument is positive. */
  predicate Random(min: nat, max: nat, rnd: nat) {
    min != max ==> rnd < max - min
  }

  function MulticastDelay(i: nat, min: nat, max: nat, rnd: nat): nat
    requires min <= max && Random(min, max, rnd)
  {
    var d := if min == max then RoundSecond(max) else RoundSecond(min + rnd);
    if i < MAX_INITIAL_ADV && d > MAX_INITIAL_ADV_INTERVAL then MAX_INITIAL_ADV_INTERVAL else d
  }

  /** A gap at least as long as some delay that may be drawn for turn i. */
  ghost predicate Spaced(i: nat, min: nat, max: nat, gap: int)
    requires min <= max
  {
    exists rnd: nat :: Random(min, max, rnd) && gap >= MulticastDelay(i, min, max, rnd)
  }

  /** The instants at which the generator makes its first `turns` requests, each after the delay drawn
      for its turn and however much later the timer fires. */
  method Generate(begin: int, min: nat, max: nat, turns: nat) returns (times: seq<int>)
    requires min <= max
    ensures |times| == turns && (turns > 0 ==> times[0] == begin)
    ensures forall i :: 0 <= i < turns - 1 ==> Spaced(i, min, max, times[i + 1] - times[i])
  {
    times := [];
    var now := begin;
    var i := 0;
    while i < turns
      invariant 0 <= i <= turns && |times| == i
      invariant i > 0 ==> times[0] == begin
      invariant i == 0 ==> now == begin
      invariant forall k :: 0 <= k < i - 1 ==> Spaced(k, min, max, times[k + 1] - times[k])
      invariant i > 0 ==> Spaced(i - 1, min, max, now - times[i - 1])
    {
      ghost var before := now;
      times := times + [now];
      var rnd: nat :| Random(min, max, rnd);
      var late: int :| late >= 0;
      var delay := MulticastDelay(i, min, max, rnd);
      now := now + delay + late;
      assert now - before >= delay;
      i := i + 1;
    }
  }
}
