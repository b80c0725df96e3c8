/** The session loop that acquires, uses, releases and re-dials an interface (system/dialer.go). */
module Dialer {
  import opened Wrappers

  // Durations are in milliseconds.
  const ATTEMPTS := 50
  const DELAY_STEP := 250
  const MAX_DELAY := 3000

  /** Errors by the tests that the source makes on them. */
  datatype Error = Permission | Syscall | LinkNotReady | LinkChange | Canceled | NotExist | TimedOut | CleanUp | Other

  datatype Mode = Advertise | Monitor

  /** A dialed context: its identity, and the setting its restore closure captured, if it has one. */
  datatype Session = Session(id: nat, restore: Option<bool>)

  /** How a run of Dial ended; Running when it is observed before its end. */
  datatype Outcome = Finished | FailedWith(error: Error) | Running

  /** What happens in a run: Dial is called; dial is called; its socket opens; the autoconfiguration setting
      is read, or written with or without success; a context is acquired; dial fails; the user's function
      returns; its context is released; the wait before a retry is interrupted. */
  datatype Event =
    | Started
    | Dialed
    | Listened
    | Read(value: bool)
    | Write(enable: bool, err: Option<Error>)
    | Acquire(id: nat)
    | Failed(error: Error)
    | Returned(result: Option<Error>)
    | Release(id: nat)
    | Interrupted(error: Error)

  // Facts of a history

  /** The setting after the writes that succeeded. */
  function Setting(original: bool, log: seq<Event>): bool {
    if log == [] then original else
    var n := |log| - 1;
    if log[n].Write? && log[n].err.None? then log[n].enable else Setting(original, log[..n])
  }

  function LastWrite(log: seq<Event>): Option<Event> {
    if log == [] then None else
    var n := |log| - 1;
    if log[n].Write? then Some(log[n]) else LastWrite(log[..n])
  }

  predicate FailedToEnable(e: Event) {
    e.Write? && e.enable && e.err.Some?
  }

  /** At some point a write disabled the setting and the very next one, which should have enabled it again,
      failed. */
  predicate Lost(log: seq<Event>) {
    log != [] &&
    var n := |log| - 1;
    Lost(log[..n]) || (FailedToEnable(log[n]) && LastWrite(log[..n]) == Some(Write(false, None)))
  }

  function Count(log: seq<Event>, e: Event): nat {
    if log == [] then 0 else
    var n := |log| - 1;
    Count(log[..n], e) + if log[n] == e then 1 else 0
  }

  function Acquired(log: seq<Event>): nat {
    if log == [] then 0 else
    var n := |log| - 1;
    Acquired(log[..n]) + if log[n].Acquire? then 1 else 0
  }

  function Released(log: seq<Event>): nat {
    if log == [] then 0 else
    var n := |log| - 1;
    Released(log[..n]) + if log[n].Release? then 1 else 0
  }

  /** The sockets opened and not closed. */
  function Sockets(log: seq<Event>): int {
    Count(log, Listened) - Released(log)
  }

  /** The calls of dial that failed after their socket was opened. */
  function Leaks(log: seq<Event>): nat {
    if log == [] then 0 else
    var n := |log| - 1;
    Leaks(log[..n]) + if log[n].Failed? && n > 0 && log[n - 1] != Dialed then 1 else 0
  }

  // The protocol

  datatype Phase =
    | Between
    | Dialing
    | SettingUp
    | Captured(prev: bool)
    | Prepared(prev: bool)
    | InUse(id: nat, restore: Option<bool>)
    | Leaving(id: nat, restore: Option<bool>)
    | Restoring(prev: bool)

  function Next(phase: Phase, e: Event): Phase {
    match e
    case Started => Between
    case Dialed => Dialing
    case Listened => SettingUp
    case Read(v) => Captured(v)
    case Write(_, _) => if phase.Captured? then Prepared(phase.prev) else Between
    case Acquire(id) => InUse(id, if phase.Prepared? then Some(phase.prev) else None)
    case Failed(_) => Between
    case Returned(_) => if phase.InUse? then Leaving(phase.id, phase.restore) else Between
    case Release(_) => if phase.Leaving? && phase.restore.Some? then Restoring(phase.restore.value) else Between
    case Interrupted(_) => Between
  }

  function PhaseOf(log: seq<Event>): Phase {
    if log == [] then Between else Next(PhaseOf(log[..|log| - 1]), log[|log| - 1])
  }

  /** Where the loop of Dial stands: before its first dial; with a context; after the user's function
      returned nil; with an error from it or from the first dial; after a number of retries; interrupted. */
  datatype Loop = First | Serving | Satisfied | Broken(error: Error) | Retrying(attempts: nat) | Stopped(error: Error)

  function NextLoop(loop: Loop, e: Event): Loop {
    match e
    case Started => First
    case Dialed =>
      if loop.Broken? then Retrying(1) else if loop.Retrying? then Retrying(loop.attempts + 1) else loop
    case Acquire(_) => Serving
    case Failed(error) => if loop.First? then Broken(error) else loop
    case Returned(result) => if result.None? then Satisfied else Broken(result.value)
    case Interrupted(error) => Stopped(error)
    case _ => loop
  }

  function LoopOf(log: seq<Event>): Loop {
    if log == [] then Satisfied else NextLoop(LoopOf(log[..|log| - 1]), log[|log| - 1])
  }

  /** A context that could not be cleaned up: the setting was not written back, for no tolerated reason. */
  predicate CleanUpFailed(log: seq<Event>) {
    log != [] && PhaseOf(log) == Between &&
    var last := log[|log| - 1];
    last.Write? && last.err.Some? && last.err.value != Permission && last.err.value != NotExist
  }

  /** How Dial must end after a history, or None while it must go on. */
  function Verdict(log: seq<Event>): Option<Outcome> {
    if CleanUpFailed(log) then Some(FailedWith(CleanUp)) else
    match LoopOf(log)
    case First => None
    case Serving => None
    case Satisfied => Some(Finished)
    case Broken(e) => if Recoverable(e) then None else Some(Ending(e))
    case Retrying(n) => if n < ATTEMPTS then None else Some(FailedWith(TimedOut))
    case Stopped(e) => Some(Ending(e))
  }

  /** Cancelation is no failure. */
  function Ending(e: Error): Outcome {
    if e == Canceled then Finished else FailedWith(e)
  }

  /** Is there to be a retry? */
  predicate MayRetry(loop: Loop) {
    (loop.Broken? && Recoverable(loop.error)) || (loop.Retrying? && loop.attempts < ATTEMPTS)
  }

  /** May e come next? An advertising interface has its setting read and disabled before use, and written
      back after its release; a dial fails before that, or when the disabling write fails. The first dial
      is followed by others only as retries. */
  predicate Allowed(mode: Mode, original: bool, log: seq<Event>, e: Event) {
    var phase, loop := PhaseOf(log), LoopOf(log);
    match e
    case Started => phase.Between?
    case Dialed => phase.Between? && (loop.First? || MayRetry(loop)) && !CleanUpFailed(log)
    case Listened => phase.Dialing?
    case Read(v) => phase.SettingUp? && mode.Advertise? && v == Setting(original, log)
    case Write(enable, _) => (phase.Captured? && !enable) || (phase.Restoring? && enable == phase.prev)
    case Acquire(id) => id == Acquired(log) && (phase.Prepared? || (phase.SettingUp? && mode.Monitor?))
    case Failed(_) =>
      phase.Dialing? || phase.SettingUp? ||
      (phase.Prepared? && LastWrite(log).Some? && LastWrite(log).value.Write? && LastWrite(log).value.err.Some?)
    case Returned(_) => phase.InUse?
    case Release(id) => phase.Leaving? && id == phase.id
    case Interrupted(_) => phase.Between? && MayRetry(loop) && !CleanUpFailed(log)
  }

  predicate Legal(mode: Mode, original: bool, log: seq<Event>) {
    log == [] ||
    var n := |log| - 1;
    Legal(mode, original, log[..n]) && Allowed(mode, original, log[..n], log[n])
  }

  lemma Appended(mode: Mode, original: bool, log: seq<Event>, e: Event)
    requires Legal(mode, original, log) && Allowed(mode, original, log, e)
    ensures Legal(mode, original, log + [e]) && PhaseOf(log + [e]) == Next(PhaseOf(log), e)
    ensures Setting(original, log + [e]) == if e.Write? && e.err.None? then e.enable else Setting(original, log)
    ensures Sockets(log + [e]) == Sockets(log) + (if e.Listened? then 1 else 0) - (if e.Release? then 1 else 0)
    ensures Acquired(log + [e]) == Acquired(log) + if e.Acquire? then 1 else 0
    ensures Count(log + [e], Dialed) == Count(log, Dialed) + if e.Dialed? then 1 else 0
    ensures LastWrite(log + [e]) == if e.Write? then Some(e) else LastWrite(log)
    ensures LoopOf(log + [e]) == NextLoop(LoopOf(log), e)
  {
    assert (log + [e])[..|log|] == log;
  }

  /** Errors after which init dials again. A denied permission will not go away. */
  predicate Recoverable(e: Error) {
    e.Syscall? || e.LinkNotReady? || e.LinkChange?
  }

  /** The sleep before retry i. */
  function Delay(i: nat): nat {
    if i * DELAY_STEP > MAX_DELAY then MAX_DELAY else i * DELAY_STEP
  }

  function TotalDelay(n: nat): nat {
    if n == 0 then 0 else TotalDelay(n - 1) + Delay(n - 1)
  }

  lemma {:induction false} TotalDelayGrows(i: nat, n: nat)
    requires i <= n
    ensures TotalDelay(i) <= TotalDelay(n)
  {
    if i < n {
      TotalDelayGrows(i, n - 1);
    }
  }

  lemma TotalDelayGrowing(n: nat)
    ensures forall i :: 0 <= i <= n ==> TotalDelay(i) <= TotalDelay(n)
  {
    forall i | 0 <= i <= n
      ensures TotalDelay(i) <= TotalDelay(n)
    {
      TotalDelayGrows(i, n);
    }
  }

  lemma {:induction false} TotalDelayIs(n: nat)
    ensures n <= 13 ==> TotalDelay(n) == 125 * n * (n - 1)
    ensures n >= 13 ==> TotalDelay(n) == 19500 + 3000 * (n - 13)
  {
    if 0 < n <= 13 {
      TotalDelayIs(n - 1);
      assert 125 * n * (n - 1) == 125 * (n - 1) * (n - 2) + 250 * (n - 1);
    } else if n > 13 {
      TotalDelayIs(n - 1);
    }
  }

  /** All the sleeps of the retry loop together. */
  lemma RetriesSleep()
    ensures TotalDelay(ATTEMPTS) == 130500
  {
    TotalDelayIs(ATTEMPTS);
  }

  class Dialer {
    const mode: Mode

    // The kernel's autoconfiguration setting of the interface, and the value it had at first.
    var autoconf: bool
    const original: bool

    // Open sockets, and the identity of the next context.
    var sockets: nat
    var next: nat

    // What happened so far, and the time spent sleeping before retries.
    ghost var log: seq<Event>
    ghost var slept: nat

    constructor (mode: Mode, autoconf: bool)
      ensures Idle() && log == [] && slept == 0
      ensures this.mode == mode && original == autoconf
    {
      this.mode := mode;
      this.autoconf := autoconf;
      original := autoconf;
      sockets, next := 0, 0;
      log, slept := [], 0;
    }

    /** The history is legal and explains the state. */
    ghost predicate Valid()
      reads this
    {
      && Legal(mode, original, log)
      && autoconf == Setting(original, log)
      && sockets == Sockets(log)
      && next == Acquired(log)
    }

    /** No context is live and no dial is under way. */
    ghost predicate Idle()
      reads this
    {
      Valid() && PhaseOf(log) == Between
    }

    /** Context s is live. */
    ghost predicate Live(s: Session)
      reads this
    {
      Valid() && PhaseOf(log) == InUse(s.id, s.restore) && sockets > 0
    }

    ghost method Record(e: Event)
      requires Legal(mode, original, log) && Allowed(mode, original, log, e)
      modifies this`log
      ensures log == old(log) + [e] && Legal(mode, original, log)
      ensures PhaseOf(log) == Next(PhaseOf(old(log)), e)
      ensures LoopOf(log) == NextLoop(LoopOf(old(log)), e)
      ensures Setting(original, log) == if e.Write? && e.err.None? then e.enable else Setting(original, old(log))
      ensures Sockets(log) == Sockets(old(log)) + (if e.Listened? then 1 else 0) - (if e.Release? then 1 else 0)
      ensures Acquired(log) == Acquired(old(log)) + if e.Acquire? then 1 else 0
      ensures Count(log, Dialed) == Count(old(log), Dialed) + if e.Dialed? then 1 else 0
      ensures LastWrite(log) == if e.Write? then Some(e) else LastWrite(old(log))
    {
      Appended(mode, original, log, e);
      log := log + [e];
    }

    /** A write of the setting, which takes place or fails without effect. */
    method SetIPv6Autoconf(enable: bool) returns (err: Option<Error>)
      requires Valid() && Allowed(mode, original, log, Write(enable, None))
      modifies this`autoconf, this`log
      ensures Valid() && log == old(log) + [Write(enable, err)]
      ensures autoconf == if err.None? then enable else old(autoconf)
      ensures PhaseOf(log) == Next(PhaseOf(old(log)), Write(enable, err)) && LoopOf(log) == LoopOf(old(log))
      ensures LastWrite(log) == Some(Write(enable, err))
      ensures Count(log, Dialed) == Count(old(log), Dialed)
    {
      var fault: Option<Error> := *;
      err := fault;
      if err.None? {
        autoconf := enable;
      }
      Record(Write(enable, err));
    }

    /** Saves and disables the setting. A denied write is tolerated. */
    method SetAutoconf() returns (prev: Result<bool, Error>)
      requires Valid() && PhaseOf(log) == SettingUp && mode.Advertise?
      modifies this`autoconf, this`log
      ensures Valid() && Count(log, Dialed) == Count(old(log), Dialed) && LoopOf(log) == LoopOf(old(log))
      ensures prev.Ok? ==> prev.value == old(autoconf) && PhaseOf(log) == Prepared(prev.value)
      ensures prev.Ok? ==>
                exists err: Option<Error> ::
                  && (err.None? || err.value == Permission)
                  && log == old(log) + [Read(prev.value), Write(false, err)]
                  && autoconf == (prev.value && err.Some?)
      ensures prev.Err? ==> prev.error == Other && autoconf == old(autoconf)
      ensures prev.Err? ==> Allowed(mode, original, log, Failed(prev.error))
      ensures prev.Err? ==> log == old(log) ||
                            exists e :: e != Permission && log == old(log) + [Read(autoconf), Write(false, Some(e))]
    {
      var readable: bool := *;
      if !readable {
        return Err(Other);
      }
      var was := autoconf;
      Record(Read(was));
      var err := SetIPv6Autoconf(false);
      assert log == old(log) + [Read(was), Write(false, err)];
      if err.Some? && err.value != Permission {
        return Err(Other);
      }
      return Ok(was);
    }

    /** Opens the socket and sets it up. When a filter, the control messages or the group cannot be set
        after the socket was opened, the source leaves it open. */
    method DialNDP() returns (err: Option<Error>)
      requires Valid() && PhaseOf(log) == Dialing
      modifies this`sockets, this`log
      ensures Valid() && Count(log, Dialed) == Count(old(log), Dialed) && LoopOf(log) == LoopOf(old(log))
      ensures log == old(log) || log == old(log) + [Listened]
      ensures err.None? ==> log == old(log) + [Listened] && PhaseOf(log) == SettingUp
      ensures err.Some? ==> Allowed(mode, original, log, Failed(err.value))
      ensures err.Some? && log != old(log) ==> err == Some(Other)
    {
      var fault: Option<Error> := *;
      if fault.Some? {
        return fault;
      }
      sockets := sockets + 1;
      Record(Listened);
      var filtered: bool := *;
      if !filtered {
        return Some(Other);
      }
      var inspecting: bool := *;
      if !inspecting {
        return Some(Other);
      }
      var joined: bool := *;
      if !joined {
        return Some(Other);
      }
      return None;
    }

    /** The steps of dial that may fail: the checks of the interface, the socket and the setting. */
    method Prepare() returns (restore: Result<Option<bool>, Error>)
      requires Valid() && PhaseOf(log) == Dialing
      modifies this`autoconf, this`sockets, this`log
      ensures Valid() && old(log) <= log && Count(log, Dialed) == Count(old(log), Dialed)
      ensures LoopOf(log) == LoopOf(old(log))
      ensures restore.Ok? ==> sockets > 0 && restore.value == if mode.Advertise? then Some(old(autoconf)) else None
      ensures restore.Ok? ==> PhaseOf(log) == if mode.Advertise? then Prepared(old(autoconf)) else SettingUp
      ensures restore.Err? ==> Allowed(mode, original, log, Failed(restore.error)) && autoconf == old(autoconf)
    {
      var ready: Option<Error> := *;
      if ready.Some? {
        return Err(ready.value);
      }
      var err := DialNDP();
      if err.Some? {
        return Err(err.value);
      }
      if mode.Monitor? {
        return Ok(None);
      }
      var prev := SetAutoconf();
      if prev.Err? {
        return Err(prev.error);
      }
      return Ok(Some(prev.value));
    }

    /** One call of dial. A failure after the socket opened leaves it open; each leaves the setting as it
        was. */
    method DialFunc() returns (r: Result<Session, Error>)
      requires Idle() && Allowed(mode, original, log, Dialed)
      modifies this`autoconf, this`sockets, this`next, this`log
      ensures old(log) <= log && old(log) + [Dialed] <= log && Count(log, Dialed) == Count(old(log), Dialed) + 1
      ensures r.Ok? ==> Live(r.value) && r.value.id == old(next) && next == old(next) + 1 && LoopOf(log) == Serving
      ensures r.Ok? ==> r.value.restore == if mode.Advertise? then Some(old(autoconf)) else None
      ensures r.Err? ==> Idle() && next == old(next) && autoconf == old(autoconf) && !CleanUpFailed(log)
      ensures r.Err? ==> LoopOf(log) == NextLoop(NextLoop(LoopOf(old(log)), Dialed), Failed(r.error))
    {
      Record(Dialed);
      var restore := Prepare();
      if restore.Err? {
        Record(Failed(restore.error));
        return Err(restore.error);
      }
      var s := Session(next, restore.value);
      next := next + 1;
      Record(Acquire(s.id));
      return Ok(s);
    }

    /** The user's function, which may fail in any way. */
    method Use(s: Session) returns (err: Option<Error>)
      requires Live(s)
      modifies this`log
      ensures Valid() && log == old(log) + [Returned(err)] && PhaseOf(log) == Leaving(s.id, s.restore)
      ensures LoopOf(log) == if err.None? then Satisfied else Broken(err.value)
      ensures Count(log, Dialed) == Count(old(log), Dialed)
    {
      var result: Option<Error> := *;
      err := result;
      Record(Returned(err));
    }

    /** The done function of a context: closes the socket and, if a setting was saved, writes it back
        once. Denied permission and a vanished interface are no failure. */
    method Done(s: Session) returns (err: Option<Error>)
      requires Valid() && PhaseOf(log) == Leaving(s.id, s.restore) && sockets > 0
      modifies this`autoconf, this`sockets, this`log
      ensures Idle() && sockets == old(sockets) - 1
      ensures s.restore.None? ==> err.None? && log == old(log) + [Release(s.id)] && autoconf == old(autoconf)
      ensures s.restore.Some? ==>
                exists e :: && log == old(log) + [Release(s.id), Write(s.restore.value, e)]
                            && autoconf == (if e.None? then s.restore.value else old(autoconf))
                            && err == if e == Some(Permission) || e == Some(NotExist) then None else e
      ensures err.Some? <==> CleanUpFailed(log)
      ensures Count(log, Dialed) == Count(old(log), Dialed) && LoopOf(log) == LoopOf(old(log))
    {
      sockets := sockets - 1;
      Record(Release(s.id));
      err := None;
      if s.restore.Some? {
        err := SetIPv6Autoconf(s.restore.value);
        assert log == old(log) + [Release(s.id), Write(s.restore.value, err)];
        if err.Some? && err.value in {Permission, NotExist} {
          err := None;
        }
      }
    }

    /** Sleeps before a retry, unless interrupted. */
    method Wait(delay: nat) returns (canceled: Option<Error>)
      requires Idle() && MayRetry(LoopOf(log)) && !CleanUpFailed(log)
      modifies this`log, this`slept
      ensures Idle() && !CleanUpFailed(log) && Count(log, Dialed) == Count(old(log), Dialed)
      ensures canceled.None? ==> log == old(log) && slept == old(slept) + delay
      ensures canceled.Some? ==> log == old(log) + [Interrupted(canceled.value)] && slept <= old(slept) + delay
      ensures canceled.Some? ==> LoopOf(log) == Stopped(canceled.value)
    {
      canceled := *;
      var part: nat :| part <= delay && (canceled.None? ==> part == delay);
      slept := slept + part;
      if canceled.Some? {
        Record(Interrupted(canceled.value));
      }
    }

    /** One turn of the retry loop: a sleep, and a dial unless the sleep is interrupted. */
    method Attempt(delay: nat) returns (r: Result<Session, Error>, interrupted: bool)
      requires Idle() && MayRetry(LoopOf(log)) && !CleanUpFailed(log)
      modifies this`autoconf, this`sockets, this`next, this`log, this`slept
      ensures old(log) <= log
      ensures r.Ok? ==> Live(r.value) && r.value.id == old(next) && next == old(next) + 1 && LoopOf(log) == Serving
      ensures r.Err? ==> Idle() && next == old(next) && !CleanUpFailed(log)
      ensures interrupted ==> r.Err? && LoopOf(log) == Stopped(r.error)
      ensures !interrupted && r.Err? ==> LoopOf(log) == NextLoop(LoopOf(old(log)), Dialed)
      ensures slept <= old(slept) + delay && (!interrupted ==> slept == old(slept) + delay)
      ensures Count(log, Dialed) == Count(old(log), Dialed) + if interrupted then 0 else 1
    {
      var canceled := Wait(delay);
      if canceled.Some? {
        return Err(canceled.value), true;
      }
      r := DialFunc();
      return r, false;
    }

    /** The retry loop: whatever a retry fails with, it is tried again, after a longer sleep. Cancelation may
        cut a sleep short. */
    method Retry(attempts: nat) returns (r: Result<Session, Error>)
      requires Idle() && LoopOf(log).Broken? && MayRetry(LoopOf(log)) && !CleanUpFailed(log)
      requires 0 < attempts <= ATTEMPTS
      modifies this`autoconf, this`sockets, this`next, this`log, this`slept
      ensures old(log) <= log
      ensures r.Ok? ==> Live(r.value) && r.value.id == old(next) && next == old(next) + 1 && LoopOf(log) == Serving
      ensures r.Err? ==> Idle() && next == old(next) && !CleanUpFailed(log)
      ensures r.Err? ==> LoopOf(log) == Stopped(r.error) || (LoopOf(log) == Retrying(attempts) && r.error == TimedOut)
      ensures slept <= old(slept) + TotalDelay(attempts)
      ensures var dials := Count(log, Dialed) - Count(old(log), Dialed);
              && 0 <= dials <= attempts
              && (r.Ok? || LoopOf(log).Retrying? ==> slept == old(slept) + TotalDelay(dials))
              && (r.Err? && LoopOf(log).Retrying? ==> dials == attempts)
    {
      var delay := 0;
      TotalDelayGrowing(attempts);
      for i := 0 to attempts
        invariant Idle() && old(log) <= log && next == old(next) && !CleanUpFailed(log)
        invariant LoopOf(log) == if i == 0 then LoopOf(old(log)) else Retrying(i)
        invariant delay == Delay(i)
        invariant slept == old(slept) + TotalDelay(i)
        invariant Count(log, Dialed) == Count(old(log), Dialed) + i
      {
        assert TotalDelay(i) + delay == TotalDelay(i + 1) <= TotalDelay(attempts);
        var interrupted;
        r, interrupted := Attempt(delay);
        if r.Ok? || interrupted {
          return;
        }
        delay := (i + 1) * DELAY_STEP;
        if delay > MAX_DELAY {
          delay := MAX_DELAY;
        }
      }
      return Err(TimedOut);
    }

    /** Dials the first time, or again after a recoverable error, with at most 50 retries, which sleep
        130.5 seconds at most. It gives up only when the history calls for it. */
    method Init(cause: Option<Error>) returns (r: Result<Session, Error>)
      requires Idle() && !CleanUpFailed(log)
      requires LoopOf(log) == if cause.None? then First else Broken(cause.value)
      modifies this`autoconf, this`sockets, this`next, this`log, this`slept
      ensures old(log) <= log
      ensures r.Ok? ==> Live(r.value) && r.value.id == old(next) && next == old(next) + 1
      ensures r.Err? ==> Idle() && next == old(next) && Verdict(log) == Some(Ending(r.error))
      ensures slept <= old(slept) + 130500
      ensures Count(old(log), Dialed) + (if cause.None? then 1 else 0)
              <= Count(log, Dialed)
              <= Count(old(log), Dialed) + ATTEMPTS + if cause.None? then 1 else 0
      ensures cause.Some? && !Recoverable(cause.value) ==> r == Err(cause.value) && log == old(log)
    {
      var err := cause;
      if err.None? {
        r := DialFunc();
        if r.Ok? {
          return;
        }
        err := Some(r.error);
      }
      if !Recoverable(err.value) {
        return Err(err.value);
      }
      RetriesSleep();
      r := Retry(ATTEMPTS);
    }

    /** Up to `turns` turns of the loop of Dial, which may go on forever: every claim holds after any
        number of turns, and at its end. It ends exactly as its history calls for. */
    method Dial(turns: nat) returns (outcome: Outcome)
      requires Idle()
      modifies this`autoconf, this`sockets, this`next, this`log, this`slept
      ensures Idle() && old(log) + [Started] <= log
      ensures !outcome.Running? ==> Verdict(log) == Some(outcome)
      ensures outcome.Running? ==> next == old(next) + turns && !CleanUpFailed(log)
      ensures outcome.Running? ==> if turns == 0 then log == old(log) + [Started] else LoopOf(log).Broken?
      ensures turns > 0 ==> Count(log, Dialed) > Count(old(log), Dialed)
      ensures autoconf == original <==> !(original && Lost(log))
      ensures (forall e :: e in log ==> !FailedToEnable(e)) ==> autoconf == original
      ensures sockets == Leaks(log)
    {
      Record(Started);
      outcome := Turns(turns);
      SettingKept(mode, original, log);
      if forall e :: e in log ==> !FailedToEnable(e) {
        NoFailureNoLoss(log);
      }
      OpenSockets(mode, original, log);
    }

    method Turns(turns: nat) returns (outcome: Outcome)
      requires Idle() && LoopOf(log) == First && !CleanUpFailed(log)
      modifies this`autoconf, this`sockets, this`next, this`log, this`slept
      ensures Idle() && old(log) <= log
      ensures !outcome.Running? ==> Verdict(log) == Some(outcome)
      ensures outcome.Running? ==> next == old(next) + turns && !CleanUpFailed(log)
      ensures outcome.Running? ==> if turns == 0 then log == old(log) else LoopOf(log).Broken?
      ensures turns > 0 ==> Count(log, Dialed) > Count(old(log), Dialed)
    {
      var err: Option<Error> := None;
      for turn := 0 to turns
        invariant Idle() && old(log) <= log && next == old(next) + turn && !CleanUpFailed(log)
        invariant err.Some? <==> turn > 0
        invariant LoopOf(log) == if err.None? then First else Broken(err.value)
        invariant if turn == 0 then log == old(log) else Count(log, Dialed) > Count(old(log), Dialed)
      {
        var dctx := Init(err);
        if dctx.Err? {
          if dctx.error == Canceled {
            return Finished;
          }
          return FailedWith(dctx.error);
        }
        err := Use(dctx.value);
        var cleanup := Done(dctx.value);
        if cleanup.Some? {
          return FailedWith(CleanUp);
        }
        if err.None? {
          return Finished;
        }
      }
      return Running;
    }
  }

  // Laws of every legal history

  /** What the setting is in each phase: the value to come back to is the original one until it is lost. */
  predicate Kept(original: bool, log: seq<Event>) {
    var phase, kept, setting := PhaseOf(log), original && !Lost(log), Setting(original, log);
    match phase
    case Captured(prev) => setting == prev == kept
    case Prepared(prev) => KeptAside(prev, kept, setting, LastWrite(log))
    case InUse(_, restore) =>
      if restore.Some? then KeptAside(restore.value, kept, setting, LastWrite(log)) else setting == kept
    case Leaving(_, restore) =>
      if restore.Some? then KeptAside(restore.value, kept, setting, LastWrite(log)) else setting == kept
    case Restoring(prev) => KeptAside(prev, kept, setting, LastWrite(log))
    case _ => setting == kept
  }

  /** The value is saved, and the setting off unless the write that disables it failed. */
  predicate KeptAside(prev: bool, kept: bool, setting: bool, last: Option<Event>) {
    && prev == kept
    && last.Some? && last.value.Write? && !last.value.enable
    && setting == (prev && last.value.err.Some?)
  }

  lemma {:induction false} KeptAlways(mode: Mode, original: bool, log: seq<Event>)
    requires Legal(mode, original, log)
    ensures Kept(original, log)
  {
    if log != [] {
      KeptAlways(mode, original, log[..|log| - 1]);
    }
  }

  /** Between sessions the setting is the original one if and only if it was off at first, or never was
      disabled by a write after which the write that enables it again failed. */
  lemma SettingKept(mode: Mode, original: bool, log: seq<Event>)
    requires Legal(mode, original, log) && PhaseOf(log) == Between
    ensures Setting(original, log) == original <==> !(original && Lost(log))
  {
    KeptAlways(mode, original, log);
  }

  lemma {:induction false} NoFailureNoLoss(log: seq<Event>)
    requires forall e :: e in log ==> !FailedToEnable(e)
    ensures !Lost(log)
  {
    if log != [] {
      NoFailureNoLoss(log[..|log| - 1]);
    }
  }

  /** A socket is open for the dial or session under way, and for each dial that failed after its socket
      was opened. */
  lemma {:induction false} OpenSockets(mode: Mode, original: bool, log: seq<Event>)
    requires Legal(mode, original, log)
    ensures var phase := PhaseOf(log);
            Sockets(log) == Leaks(log) + if phase.Between? || phase.Dialing? || phase.Restoring? then 0 else 1
    ensures log != [] ==> (PhaseOf(log).Dialing? <==> log[|log| - 1].Dialed?)
  {
    if log != [] {
      OpenSockets(mode, original, log[..|log| - 1]);
    }
  }

  // Laws of the loop

  /** After the user's function returned an error: a missing permission and every unrecoverable error end
      the loop, a broken system call or a changed or unready link does not. */
  lemma AfterReturn(mode: Mode, original: bool, log: seq<Event>, e: Error)
    requires Legal(mode, original, log) && PhaseOf(log) == Between && LoopOf(log) == Broken(e) && !CleanUpFailed(log)
    ensures Verdict(log) == match e
                            case Canceled => Some(Finished)
                            case Syscall => None
                            case LinkNotReady => None
                            case LinkChange => None
                            case _ => Some(FailedWith(e))
    ensures Verdict(log).None? <==> Allowed(mode, original, log, Dialed)
  {
  }
}

/** Laws of the histories of the dialer. */
module DialerLaws {
  import opened Wrappers
  import opened Dialer

  lemma {:induction false} LegalPrefix(mode: Mode, original: bool, log: seq<Event>, n: nat)
    requires Legal(mode, original, log) && n <= |log|
    ensures Legal(mode, original, log[..n])
  {
    if n == |log| {
      assert log[..n] == log;
    } else {
      var init := log[..|log| - 1];
      LegalPrefix(mode, original, init, n);
      assert init[..n] == log[..n];
    }
  }

  lemma EventAllowed(mode: Mode, original: bool, log: seq<Event>, i: nat)
    requires Legal(mode, original, log) && i < |log|
    ensures Legal(mode, original, log[..i]) && Allowed(mode, original, log[..i], log[i])
  {
    LegalPrefix(mode, original, log, i);
    LegalPrefix(mode, original, log, i + 1);
    assert log[..i + 1][..i] == log[..i];
  }

  /** The value a dial saves for restoring is the original one, unless it was lost before: dialing again
      never saves the value that the dialer itself has set. */
  lemma SavedIsOriginal(mode: Mode, original: bool, log: seq<Event>, i: nat)
    requires Legal(mode, original, log) && i < |log| && log[i].Read?
    ensures log[i].value == original <==> !(original && Lost(log[..i]))
  {
    EventAllowed(mode, original, log, i);
    KeptAlways(mode, original, log[..i]);
  }

  /** The contexts acquired and not yet released after a history. */
  function LiveAfter(log: seq<Event>): set<nat> {
    if log == [] then {} else
    var n := |log| - 1;
    match log[n]
    case Acquire(id) => LiveAfter(log[..n]) + {id}
    case Release(id) => LiveAfter(log[..n]) - {id}
    case _ => LiveAfter(log[..n])
  }

  /** At most one context is live at any time, and none between sessions. */
  lemma {:induction false} OneLive(mode: Mode, original: bool, log: seq<Event>)
    requires Legal(mode, original, log)
    ensures var phase := PhaseOf(log); LiveAfter(log) == if phase.InUse? || phase.Leaving? then {phase.id} else {}
    ensures PhaseOf(log).InUse? || PhaseOf(log).Leaving? ==> PhaseOf(log).id == Acquired(log) - 1
  {
    if log != [] {
      OneLive(mode, original, log[..|log| - 1]);
    }
  }

  /** Each context acquired is acquired once and released once, and nothing else is. */
  lemma {:induction false} ReleasedOnce(mode: Mode, original: bool, log: seq<Event>, id: nat)
    requires Legal(mode, original, log)
    ensures Count(log, Acquire(id)) == if id < Acquired(log) then 1 else 0
    ensures Count(log, Release(id)) == if id < Acquired(log) && id !in LiveAfter(log) then 1 else 0
  {
    OneLive(mode, original, log);
    if log != [] {
      var n := |log| - 1;
      OneLive(mode, original, log[..n]);
      ReleasedOnce(mode, original, log[..n], id);
    }
  }

  /** The user's function returns next, then its context is released, and then what was read before is
      written back. */
  lemma ReleasedNext(mode: Mode, original: bool, log: seq<Event>, i: nat)
    requires Legal(mode, original, log) && i < |log| && log[i].Acquire?
    ensures i + 1 < |log| ==> log[i + 1].Returned?
    ensures i + 2 < |log| ==> log[i + 2] == Release(log[i].id)
    ensures mode.Advertise? ==> i >= 2 && log[i - 2].Read? && log[i - 1].Write? && !log[i - 1].enable
    ensures mode.Advertise? && i + 3 < |log| ==> log[i + 3].Write? && log[i + 3].enable == log[i - 2].value
    ensures mode.Monitor? && i + 3 < |log| ==> !log[i + 3].Write?
  {
    var restore := Acquiring(mode, original, log, i);
    if i + 1 < |log| {
      Using(mode, original, log, i + 1, log[i].id, restore);
    }
    if i + 2 < |log| {
      Releasing(mode, original, log, i + 2, log[i].id, restore);
    }
    if i + 3 < |log| {
      EventAllowed(mode, original, log, i + 3);
    }
  }

  lemma Acquiring(mode: Mode, original: bool, log: seq<Event>, i: nat) returns (restore: Option<bool>)
    requires Legal(mode, original, log) && i < |log| && log[i].Acquire?
    ensures PhaseOf(log[..i + 1]) == InUse(log[i].id, restore) && (restore.Some? <==> mode.Advertise?)
    ensures restore.Some? ==>
              i >= 2 && log[i - 2] == Read(restore.value) && log[i - 1].Write? && !log[i - 1].enable
  {
    EventAllowed(mode, original, log, i);
    PhaseStep(log, i);
    restore := None;
    if mode.Advertise? {
      PreparedBy(log[..i], mode, original);
      restore := Some(PhaseOf(log[..i]).prev);
    } else {
      MonitorReadsNothing(mode, original, log[..i]);
    }
  }

  lemma {:induction false} MonitorReadsNothing(mode: Mode, original: bool, log: seq<Event>)
    requires Legal(mode, original, log) && mode.Monitor?
    ensures !PhaseOf(log).Captured? && !PhaseOf(log).Prepared?
  {
    if log != [] {
      MonitorReadsNothing(mode, original, log[..|log| - 1]);
    }
  }

  lemma Using(mode: Mode, original: bool, log: seq<Event>, i: nat, id: nat, restore: Option<bool>)
    requires Legal(mode, original, log) && i < |log| && PhaseOf(log[..i]) == InUse(id, restore)
    ensures log[i].Returned? && PhaseOf(log[..i + 1]) == Leaving(id, restore)
  {
    EventAllowed(mode, original, log, i);
    PhaseStep(log, i);
  }

  lemma Releasing(mode: Mode, original: bool, log: seq<Event>, i: nat, id: nat, restore: Option<bool>)
    requires Legal(mode, original, log) && i < |log| && PhaseOf(log[..i]) == Leaving(id, restore)
    ensures log[i] == Release(id)
    ensures PhaseOf(log[..i + 1]) == if restore.Some? then Restoring(restore.value) else Between
  {
    EventAllowed(mode, original, log, i);
    PhaseStep(log, i);
  }

  lemma PhaseStep(log: seq<Event>, i: nat)
    requires i < |log|
    ensures PhaseOf(log[..i + 1]) == Next(PhaseOf(log[..i]), log[i])
  {
    assert log[..i + 1][..i] == log[..i];
  }

  lemma PreparedBy(log: seq<Event>, mode: Mode, original: bool)
    requires Legal(mode, original, log) && PhaseOf(log).Prepared?
    ensures |log| >= 2 && log[|log| - 2] == Read(PhaseOf(log).prev)
    ensures log[|log| - 1].Write? && !log[|log| - 1].enable
  {
    var init := log[..|log| - 1];
    assert PhaseOf(init).Captured? && init != [];
    assert init[|init| - 1].Read?;
  }

  // Why a run ends

  /** Nothing since place i started the loop anew, dialed or came back from the user's function. */
  predicate QuietSince(log: seq<Event>, i: nat) {
    forall k :: i < k < |log| ==> !log[k].Started? && !log[k].Dialed? && !log[k].Returned?
  }

  /** The event that brought the loop where it stands. */
  predicate Causes(e: Event, loop: Loop) {
    match loop
    case Satisfied => e == Returned(None)
    case Broken(error) => e == Returned(Some(error)) || e == Failed(error)
    case Stopped(error) => e == Interrupted(error)
    case _ => false
  }

  lemma {:induction false} CauseOf(mode: Mode, original: bool, log: seq<Event>) returns (i: nat)
    requires Legal(mode, original, log) && Started in log
    requires LoopOf(log).Satisfied? || LoopOf(log).Broken? || LoopOf(log).Stopped?
    ensures i < |log| && Causes(log[i], LoopOf(log)) && QuietSince(log, i)
  {
    var n := |log| - 1;
    if Causes(log[n], LoopOf(log)) {
      i := n;
    } else {
      assert log == log[..n] + [log[n]];
      i := CauseOf(mode, original, log[..n]);
    }
  }

  /** Dial finishes because the user's function returned nil, or because of a cancelation. */
  lemma FinishedBecause(mode: Mode, original: bool, log: seq<Event>) returns (i: nat)
    requires Legal(mode, original, log) && Started in log && Verdict(log) == Some(Finished)
    ensures i < |log| && QuietSince(log, i)
    ensures log[i] in {Returned(None), Returned(Some(Canceled)), Failed(Canceled), Interrupted(Canceled)}
  {
    i := CauseOf(mode, original, log);
  }

  /** The retries so far, each a dial, followed an error after which the loop may go on. */
  lemma {:induction false} RetriedSince(mode: Mode, original: bool, log: seq<Event>) returns (i: nat, e: Error)
    requires Legal(mode, original, log) && Started in log && LoopOf(log).Retrying?
    ensures i < |log| && (log[i] == Returned(Some(e)) || log[i] == Failed(e))
    ensures e.Syscall? || e.LinkNotReady? || e.LinkChange?
    ensures Count(log, Dialed) - Count(log[..i + 1], Dialed) == LoopOf(log).attempts
  {
    var n := |log| - 1;
    var init := log[..n];
    assert log == init + [log[n]];
    if log[n].Dialed? && LoopOf(init).Broken? {
      i := CauseOf(mode, original, init);
      e := LoopOf(init).error;
      NoDials(init, i + 1);
      assert log[..i + 1] == init[..i + 1];
    } else {
      i, e := RetriedSince(mode, original, init);
      assert log[..i + 1] == init[..i + 1];
    }
  }

  lemma {:induction false} NoDials(log: seq<Event>, i: nat)
    requires i <= |log| && forall k :: i <= k < |log| ==> !log[k].Dialed?
    ensures Count(log, Dialed) == Count(log[..i], Dialed)
    decreases |log|
  {
    if i == |log| {
      assert log[..i] == log;
    } else {
      var init := log[..|log| - 1];
      NoDials(init, i);
      assert init[..i] == log[..i];
    }
  }

  /** Dial fails because a context could not be cleaned up, because of an error after which it may not go
      on, or after fifty retries. */
  lemma FailedBecause(mode: Mode, original: bool, log: seq<Event>, e: Error) returns (i: nat)
    requires Legal(mode, original, log) && Started in log && Verdict(log) == Some(FailedWith(e))
    ensures i < |log|
    ensures || (e == CleanUp && log[i].Write? && log[i].err.Some? && i == |log| - 1)
            || (log[i] in {Returned(Some(e)), Failed(e), Interrupted(e)} && QuietSince(log, i))
            || (e == TimedOut && log[i].Returned? && Count(log, Dialed) - Count(log[..i + 1], Dialed) == 50)
            || (e == TimedOut && log[i].Failed? && Count(log, Dialed) - Count(log[..i + 1], Dialed) == 50)
  {
    if CleanUpFailed(log) {
      i := |log| - 1;
    } else if LoopOf(log).Retrying? {
      RetriesBounded(mode, original, log);
      var cause;
      i, cause := RetriedSince(mode, original, log);
    } else {
      i := CauseOf(mode, original, log);
    }
  }

  lemma {:induction false} RetriesBounded(mode: Mode, original: bool, log: seq<Event>)
    requires Legal(mode, original, log)
    ensures LoopOf(log).Retrying? ==> 0 < LoopOf(log).attempts <= ATTEMPTS
  {
    if log != [] {
      RetriesBounded(mode, original, log[..|log| - 1]);
    }
  }

  /** A session that disables the setting, up to the write that should enable it again. */
  lemma DisablingSession() returns (log: seq<Event>)
    ensures log == [Started, Dialed, Listened, Read(true), Write(false, None), Acquire(0), Returned(None), Release(0)]
    ensures Legal(Advertise, true, log) && PhaseOf(log) == Restoring(true) && LoopOf(log) == Satisfied
    ensures LastWrite(log) == Some(Write(false, None)) && !Setting(true, log)
  {
    log := [];
    log := Extend(log, Started);
    log := Extend(log, Dialed);
    log := Extend(log, Listened);
    log := Extend(log, Read(true));
    log := Extend(log, Write(false, None));
    log := Extend(log, Acquire(0));
    log := Extend(log, Returned(None));
    log := Extend(log, Release(0));
  }

  /** A run that loses the setting: a session disables it and cannot write it back. */
  lemma LosingRun(run: seq<Event>)
    requires run == [Started, Dialed, Listened, Read(true), Write(false, None), Acquire(0), Returned(None),
                     Release(0), Write(true, Some(Permission))]
    ensures Legal(Advertise, true, run) && PhaseOf(run) == Between && Lost(run) && !Setting(true, run)
    ensures Verdict(run) == Some(Finished)
  {
    var before := DisablingSession();
    var log := Extend(before, Write(true, Some(Permission)));
    assert run == log && run[..|before|] == before;
  }

  lemma Extend(log: seq<Event>, e: Event) returns (log': seq<Event>)
    requires Legal(Advertise, true, log) && Allowed(Advertise, true, log, e)
    ensures log' == log + [e] && Legal(Advertise, true, log') && PhaseOf(log') == Next(PhaseOf(log), e)
    ensures LoopOf(log') == NextLoop(LoopOf(log), e)
    ensures Setting(true, log') == if e.Write? && e.err.None? then e.enable else Setting(true, log)
    ensures Acquired(log') == Acquired(log) + if e.Acquire? then 1 else 0
    ensures LastWrite(log') == if e.Write? then Some(e) else LastWrite(log)
    ensures Leaks(log') == Leaks(log) + if e.Failed? && log != [] && log[|log| - 1] != Dialed then 1 else 0
  {
    Appended(Advertise, true, log, e);
    log' := log + [e];
    assert log'[..|log|] == log;
  }

  /** A dial that fails after its socket was opened. */
  lemma FailingDial() returns (log: seq<Event>)
    ensures log == [Started, Dialed, Listened, Failed(Other)]
    ensures Legal(Advertise, true, log) && PhaseOf(log) == Between && LoopOf(log) == Broken(Other) && Leaks(log) == 1
  {
    log := [];
    log := Extend(log, Started);
    log := Extend(log, Dialed);
    log := Extend(log, Listened);
    log := Extend(log, Failed(Other));
  }

  /** A run that leaves a socket open without touching the setting. */
  lemma LeakingRun(run: seq<Event>)
    requires run == [Started, Dialed, Listened, Failed(Other)]
    ensures Legal(Advertise, true, run) && PhaseOf(run) == Between && Sockets(run) == Leaks(run) == 1
    ensures Verdict(run) == Some(FailedWith(Other))
  {
    var log := FailingDial();
    OpenSockets(Advertise, true, log);
    assert run == log;
  }
}
