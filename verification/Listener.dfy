/** The read loop that delivers NDP messages and tolerates a few failed reads (corerad/listener.go). */
module Listener {

  const RETRIES := 5
  const BACKOFF_STEP := 50 // milliseconds
  const NDP_HOP_LIMIT := 255

  /** What a read gives: a message, a timeout, another error, or the cancelation of the context. */
  datatype Read = Message(id: int, hopLimit: nat) | Timeout | Fault | Canceled

  datatype Received = Got(id: int) | Exhausted | Stopped | Waiting

  /** How listening ended; Listening when the reads so far leave it running. */
  datatype End = RetriesExhausted | ReadStopped | HandlerFailed | Listening

  /** A message that was not forwarded by a router on its way. */
  predicate Good(r: Read) {
    r.Message? && r.hopLimit == 255
  }

  /** A read that is tried again. */
  predicate Bad(r: Read) {
    r.Timeout? || (r.Message? && r.hopLimit != 255)
  }

  predicate AllBad(input: seq<Read>, lo: nat, hi: nat)
    requires hi <= |input|
  {
    forall k :: lo <= k < hi ==> Bad(input[k])
  }

  /** The good messages of a sequence of reads. */
  function Messages(input: seq<Read>): seq<int> {
    if input == [] then [] else
    var n := |input| - 1;
    Messages(input[..n]) + if Good(input[n]) then [input[n].id] else []
  }

  /** Five bad reads in a row end at position k. */
  predicate Streak(input: seq<Read>, k: nat)
    requires k <= |input|
  {
    k >= 5 && AllBad(input, k - 5, k)
  }

  /** The backoff in milliseconds after reads pos to hi: 50 for each place by which a timeout comes later. */
  function Backoff(input: seq<Read>, pos: nat, hi: nat): nat
    requires pos <= hi <= |input|
    decreases hi - pos
  {
    if hi == pos then 0 else
    Backoff(input, pos, hi - 1) + if input[hi - 1].Timeout? then 50 * (hi - 1 - pos) else 0
  }

  /** At most 50, 100, 150 and 200 milliseconds in one call. */
  lemma BackoffBounded(input: seq<Read>, pos: nat, hi: nat)
    requires pos <= hi <= |input| && hi <= pos + 5
    ensures Backoff(input, pos, hi) <= 500
  {
    BackoffSum(input, pos, hi);
  }

  lemma {:induction false} BackoffSum(input: seq<Read>, pos: nat, hi: nat)
    requires pos <= hi <= |input|
    ensures 2 * Backoff(input, pos, hi) <= 50 * (hi - pos) * (hi - pos - 1) || hi == pos
    decreases hi - pos
  {
    if hi > pos {
      BackoffSum(input, pos, hi - 1);
      var k := hi - pos;
      assert 50 * k * (k - 1) == 50 * (k - 1) * (k - 2) + 100 * (k - 1);
    }
  }

  method ReceiveRetry(input: seq<Read>, pos: nat) returns (r: Received, used: nat, slept: nat)
    requires pos <= |input|
    ensures pos <= used <= |input| && used <= pos + 5
    ensures slept == Backoff(input, pos, used)
    ensures match r
            case Got(id) => pos < used && AllBad(input, pos, used - 1) && input[used - 1] == Message(id, 255)
            case Stopped => pos < used && AllBad(input, pos, used - 1) &&
                (input[used - 1].Fault? || input[used - 1].Canceled?)
            case Exhausted => used == pos + 5 && AllBad(input, pos, used)
            case Waiting => used == |input| < pos + 5 && AllBad(input, pos, used)
  {
    used := pos;
    slept := 0;
    for i := 0 to RETRIES
      invariant used == pos + i <= |input|
      invariant AllBad(input, pos, used)
      invariant slept == Backoff(input, pos, used)
    {
      if used == |input| {
        return Waiting, used, slept;
      }
      var read := input[used];
      used := used + 1;
      match read
      case Fault =>
        return Stopped, used, slept;
      case Canceled =>
        return Stopped, used, slept;
      case Timeout =>
        slept := slept + i * BACKOFF_STEP;
      case Message(id, hopLimit) =>
        if hopLimit == NDP_HOP_LIMIT {
          return Got(id), used, slept;
        }
    }
    return Exhausted, used, slept;
  }

  /** Delivers exactly the good messages, in order, until a read stops it, the handler fails, or five
      reads in a row are bad for the first time. `fails` says of each message delivered, by its place, whether
      the handler fails on it. */
  method Listen(input: seq<Read>, fails: nat -> bool) returns (delivered: seq<int>, end: End, used: nat)
    ensures used <= |input| && delivered == Messages(input[..used])
    ensures forall k :: 0 <= k < used ==> !Streak(input, k)
    ensures end.RetriesExhausted? <==> Streak(input, used)
    ensures end.ReadStopped? <==> used > 0 && (input[used - 1].Fault? || input[used - 1].Canceled?)
    ensures end.HandlerFailed? <==> delivered != [] && fails(|delivered| - 1)
    ensures end.HandlerFailed? ==> used > 0 && Good(input[used - 1])
    ensures forall k :: 0 <= k < |delivered| - 1 ==> !fails(k)
    ensures end.Listening? ==> used == |input|
    ensures forall k :: 0 <= k < used - 1 ==> Good(input[k]) || Bad(input[k])
  {
    delivered, used := [], 0;
    while true
      invariant used <= |input| && delivered == Messages(input[..used])
      invariant forall k :: 0 <= k < |delivered| ==> !fails(k)
      invariant used > 0 ==> Good(input[used - 1])
      invariant forall k :: 0 <= k <= used ==> !Streak(input, k)
      invariant forall k :: 0 <= k < used ==> Good(input[k]) || Bad(input[k])
      decreases |input| - used
    {
      var r, next, slept := ReceiveRetry(input, used);
      ghost var bad := if r.Got? || r.Stopped? then next - 1 else next;
      NoMessages(input, used, bad);
      NoStreak(input, used, bad);
      used := next;
      match r
      case Waiting =>
        return delivered, Listening, used;
      case Exhausted =>
        return delivered, RetriesExhausted, used;
      case Stopped =>
        MessagesStep(input, bad);
        return delivered, ReadStopped, used;
      case Got(id) =>
        MessagesStep(input, bad);
        delivered := delivered + [id];
        if fails(|delivered| - 1) {
          return delivered, HandlerFailed, used;
        }
    }
  }

  lemma MessagesStep(input: seq<Read>, k: nat)
    requires k < |input|
    ensures Messages(input[..k + 1]) == Messages(input[..k]) + if Good(input[k]) then [input[k].id] else []
  {
    assert input[..k + 1][..k] == input[..k];
  }

  lemma {:induction false} NoMessages(input: seq<Read>, lo: nat, hi: nat)
    requires lo <= hi <= |input| && AllBad(input, lo, hi)
    ensures Messages(input[..hi]) == Messages(input[..lo])
    decreases hi
  {
    if lo < hi {
      NoMessages(input, lo, hi - 1);
      MessagesStep(input, hi - 1);
    }
  }

  /** After a good read, or at the beginning, a streak takes five reads. */
  lemma NoStreak(input: seq<Read>, lo: nat, hi: nat)
    requires lo <= hi <= |input| && hi <= lo + RETRIES && (lo > 0 ==> Good(input[lo - 1]))
    ensures forall k :: lo <= k <= hi && k < lo + RETRIES ==> !Streak(input, k)
    ensures hi < |input| && !Bad(input[hi]) ==> !Streak(input, hi + 1)
  {
    forall k | lo <= k <= hi && k < lo + RETRIES && k >= RETRIES
      ensures !Streak(input, k)
    {
      assert !Bad(input[lo - 1]);
    }
  }
}
