/** Building and sending router advertisements (config/config.go, corerad/advertise.go). */
module Advertisement {
  import opened Netip
  import opened Wrappers
  import opened Ndp
  import opened Plugins
  import opened Config
  import Selection
  import Scheduler
  import Verify

  datatype Misconfiguration = InterfaceNotForwarding

  datatype Built = Built(ra: RA, misconfigurations: seq<Misconfiguration>)

  /** Why our advertisement cannot be built. */
  datatype Failure = ForwardingUnknown | PluginFailed(error: Selection.Error)

  /** What sending to a destination amounts to. */
  datatype Sent = Skipped | Wrote(ra: RA, dst: Addr) | CannotBuild(failure: Failure) | WriteFailed

  /** One view of the system for each plugin, each ready for it. */
  predicate AllReady(plugins: seq<Plugin>, envs: seq<Env>) {
    |envs| == |plugins| && forall i :: 0 <= i < |plugins| ==> Ready(plugins[i], envs[i])
  }

  type Contribution = Result<seq<NdpOption>, Selection.Error>

  /** What each plugin contributes. */
  function Contributions(plugins: seq<Plugin>, envs: seq<Env>): seq<Contribution>
    requires AllReady(plugins, envs)
  {
    seq(|plugins|, i requires 0 <= i < |plugins| => Outputs(plugins[i], envs[i]))
  }

  /** All contributions one after the other, or the first failure. */
  function Joined(outs: seq<Contribution>): Contribution {
    if outs == [] then Ok([]) else
    var n := |outs| - 1;
    match Joined(outs[..n])
    case Err(e) => Err(e)
    case Ok(opts) =>
      match outs[n]
      case Err(e) => Err(e)
      case Ok(more) => Ok(opts + more)
  }

  function BaseOf(ifi: Interface, lifetime: int): Base {
    Base(ifi.hopLimit, ifi.managed, ifi.otherConfig, ifi.preference, lifetime, ifi.reachableTime, ifi.retransmitTimer)
  }

  /** The advertisement of an interface. */
  function BuildRA(ifi: Interface, forwarding: bool, envs: seq<Env>): Result<Built, Selection.Error>
    requires AllReady(ifi.plugins, envs)
  {
    match Joined(Contributions(ifi.plugins, envs))
    case Err(e) => Err(e)
    case Ok(opts) =>
      var suppressed := ifi.defaultLifetime > 0 && !forwarding;
      Ok(Built(RA(BaseOf(ifi, if suppressed then 0 else ifi.defaultLifetime), opts),
               if suppressed then [InterfaceNotForwarding] else []))
  }

  method BuildRouterAdvertisement(ifi: Interface, forwarding: bool, envs: seq<Env>)
    returns (r: Result<Built, Selection.Error>)
    requires AllReady(ifi.plugins, envs)
    ensures r == BuildRA(ifi, forwarding, envs)
  {
    var ra := new RouterAdvertisement(BaseOf(ifi, ifi.defaultLifetime));
    ghost var outs := Contributions(ifi.plugins, envs);
    for i := 0 to |ifi.plugins|
      invariant ra.base == BaseOf(ifi, ifi.defaultLifetime)
      invariant Joined(outs[..i]) == Ok(ra.options)
    {
      JoinedStep(outs, i);
      var err := Apply(ifi.plugins[i], envs[i], ra);
      assert outs[i] == Outputs(ifi.plugins[i], envs[i]);
      if err.Some? {
        FailureStays(outs, i + 1);
        return Err(err.value);
      }
    }
    assert outs[..|ifi.plugins|] == outs;
    assert Joined(outs) == Ok(ra.options);
    var ms: seq<Misconfiguration> := [];
    if ra.base.routerLifetime > 0 && !forwarding {
      ra.base := ra.base.(routerLifetime := 0);
      ms := ms + [InterfaceNotForwarding];
    }
    assert ms == if ifi.defaultLifetime > 0 && !forwarding then [InterfaceNotForwarding] else [];
    return Ok(Built(RA(ra.base, ra.options), ms));
  }

  /** Our advertisement, when the forwarding state can be read (None: it cannot) and every plugin succeeds. */
  function OwnRA(ifi: Interface, forwarding: Option<bool>, envs: seq<Env>): Result<RA, Failure>
    requires AllReady(ifi.plugins, envs)
  {
    if forwarding.None? then Err(ForwardingUnknown) else
    match BuildRA(ifi, forwarding.value, envs)
    case Err(e) => Err(PluginFailed(e))
    case Ok(built) => Ok(built.ra)
  }

  method BuildOwnRA(ifi: Interface, forwarding: Option<bool>, envs: seq<Env>) returns (r: Result<RA, Failure>)
    requires AllReady(ifi.plugins, envs)
    ensures r == OwnRA(ifi, forwarding, envs)
  {
    if forwarding.None? {
      return Err(ForwardingUnknown);
    }
    var built := BuildRouterAdvertisement(ifi, forwarding.value, envs);
    if built.Err? {
      return Err(PluginFailed(built.error));
    }
    return Ok(built.value.ra);
  }

  /** A message from another host. */
  datatype Message = RouterSolicitation | Advertised(ra: RA) | OtherMessage

  /** How a message is handled: an answer to send, and the inconsistencies that are reported. */
  datatype Handled = Handled(answer: Option<Addr>, problems: seq<Verify.Problem>)

  /** Solicitations ask for an advertisement; those of other routers are compared with ours. */
  method Handle(ifi: Interface, m: Message, host: Addr, forwarding: Option<bool>, envs: seq<Env>)
    returns (r: Result<Handled, Failure>)
    requires AllReady(ifi.plugins, envs)
    ensures r.Err? <==> m.Advertised? && OwnRA(ifi, forwarding, envs).Err?
    ensures r.Err? ==> r.error == OwnRA(ifi, forwarding, envs).error
    ensures r.Ok? ==> r.value.answer == if m.RouterSolicitation? then Some(Scheduler.Answer(host)) else None
    ensures r.Ok? ==> r.value.problems == if m.Advertised?
                                          then Verify.RAProblems(OwnRA(ifi, forwarding, envs).value, m.ra)
                                          else []
  {
    match m
    case RouterSolicitation =>
      var dst := host;
      if IsUnspecified(host) {
        dst := Scheduler.AllNodes();
      }
      return Ok(Handled(Some(dst), []));
    case Advertised(ra) =>
      var want := BuildOwnRA(ifi, forwarding, envs);
      if want.Err? {
        return Err(want.error);
      }
      var problems := Verify.VerifyRAs(want.value, ra);
      return Ok(Handled(None, problems));
    case OtherMessage =>
      return Ok(Handled(None, []));
  }

  /** Nothing is sent to a group in unicast-only mode; anything else is built and written, if the
      connection takes it. */
  method Send(ifi: Interface, dst: Addr, forwarding: Option<bool>, envs: seq<Env>, writable: bool)
    returns (sent: Sent)
    requires AllReady(ifi.plugins, envs)
    ensures sent.Skipped? <==> ifi.unicastOnly && Scheduler.ToGroup(dst)
    ensures !sent.Skipped? ==> match OwnRA(ifi, forwarding, envs)
                               case Err(e) => sent == CannotBuild(e)
                               case Ok(ra) => sent == if writable then Wrote(ra, dst) else WriteFailed
  {
    if ifi.unicastOnly && Scheduler.ToGroup(dst) {
      return Skipped;
    }
    var r := BuildOwnRA(ifi, forwarding, envs);
    if r.Err? {
      return CannotBuild(r.error);
    }
    if !writable {
      return WriteFailed;
    }
    return Wrote(r.value, dst);
  }

  function Withdrawn(ra: RA): RA {
    RA(ra.base.(routerLifetime := 0), ra.options)
  }

  /** The final advertisement is sent exactly when the process will not be restarted and groups may be
      sent to. It withdraws the default route and is otherwise what would be sent anyway. */
  method Shutdown(ifi: Interface, terminate: bool, forwarding: Option<bool>, envs: seq<Env>, writable: bool)
    returns (sent: Sent)
    requires AllReady(ifi.plugins, envs)
    ensures sent.Skipped? <==> !terminate || ifi.unicastOnly
    ensures !sent.Skipped? ==>
              match OwnRA(ifi, forwarding, envs)
              case Err(e) => sent == CannotBuild(e)
              case Ok(ra) => sent == if writable then Wrote(Withdrawn(ra), Scheduler.AllNodes()) else WriteFailed
  {
    if !terminate {
      return Skipped;
    }
    var cfg := ifi.(defaultLifetime := 0);
    Scheduler.AllNodesIsGroup();
    sent := Send(cfg, Scheduler.AllNodes(), forwarding, envs, writable);
  }

  // Laws

  lemma JoinedStep(outs: seq<Contribution>, i: nat)
    requires i < |outs|
    ensures Joined(outs[..i]).Ok? ==>
              Joined(outs[..i + 1]) == if outs[i].Err? then outs[i] else Ok(Joined(outs[..i]).value + outs[i].value)
  {
    assert outs[..i + 1][..i] == outs[..i];
  }

  lemma {:induction false} FailureStays(outs: seq<Contribution>, n: nat)
    requires n <= |outs| && Joined(outs[..n]).Err?
    ensures Joined(outs) == Joined(outs[..n])
    decreases |outs|
  {
    var m := |outs| - 1;
    if n <= m {
      assert outs[..m][..n] == outs[..n];
      FailureStays(outs[..m], n);
    } else {
      assert outs[..n] == outs;
    }
  }

  /** The advertisement is built exactly when every plugin succeeds. */
  lemma {:induction false} BuiltIffAllSucceed(outs: seq<Contribution>)
    ensures Joined(outs).Ok? <==> forall i :: 0 <= i < |outs| ==> outs[i].Ok?
  {
    if outs != [] {
      BuiltIffAllSucceed(outs[..|outs| - 1]);
    }
  }

  /** How many options the first n contributions have. */
  function Offset(outs: seq<Contribution>, n: nat): nat
    requires n <= |outs| && forall i :: 0 <= i < |outs| ==> outs[i].Ok?
  {
    if n == 0 then 0 else Offset(outs, n - 1) + |outs[n - 1].value|
  }

  lemma {:induction false} OptionsLength(outs: seq<Contribution>, n: nat)
    requires n <= |outs| && forall i :: 0 <= i < |outs| ==> outs[i].Ok?
    ensures Joined(outs[..n]).Ok? && |Joined(outs[..n]).value| == Offset(outs, n)
  {
    if n > 0 {
      OptionsLength(outs, n - 1);
      JoinedStep(outs, n - 1);
    }
  }

  /** Each plugin's options stand together, in the order of the plugins, and nothing else is there. */
  lemma {:induction false} OptionsInOrder(outs: seq<Contribution>, n: nat, i: nat)
    requires i < n <= |outs| && forall k :: 0 <= k < |outs| ==> outs[k].Ok?
    ensures Joined(outs[..n]).Ok?
    ensures var opts := Joined(outs[..n]).value;
            && Offset(outs, i) <= Offset(outs, i + 1) <= |opts| == Offset(outs, n)
            && opts[Offset(outs, i)..Offset(outs, i + 1)] == outs[i].value
  {
    OptionsLength(outs, n - 1);
    OptionsLength(outs, n);
    JoinedStep(outs, n - 1);
    if i < n - 1 {
      OptionsInOrder(outs, n - 1, i);
      var opts, init := Joined(outs[..n]).value, Joined(outs[..n - 1]).value;
      assert opts[..|init|] == init;
      var lo, hi := Offset(outs, i), Offset(outs, i + 1);
      assert opts[lo..hi] == init[lo..hi];
    }
  }

  /** For an accepted interface the router lifetime is 0 or between the maximum interval and 9000 seconds,
      is positive only while forwarding, and is suppressed exactly when a misconfiguration is reported. */
  lemma LifetimeAdvertised(ifi: Interface, forwarding: bool, envs: seq<Env>)
    requires AllReady(ifi.plugins, envs) && BuildRA(ifi, forwarding, envs).Ok?
    requires ifi.defaultLifetime == 0 || ifi.maxInterval <= ifi.defaultLifetime <= 9000 * SECOND
    requires ifi.maxInterval >= 0
    ensures var built := BuildRA(ifi, forwarding, envs).value;
            var lifetime := built.ra.base.routerLifetime;
            && (lifetime == 0 || ifi.maxInterval <= lifetime <= 9000 * SECOND)
            && (lifetime > 0 ==> forwarding)
            && (built.misconfigurations != [] <==> lifetime != ifi.defaultLifetime)
            && (built.misconfigurations != [] ==> built.misconfigurations == [InterfaceNotForwarding] && lifetime == 0)
  {
  }
}
