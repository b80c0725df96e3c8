/** Parsing of interfaces and of the whole configuration (config/interface.go, config/config.go). */
module Interfaces {
  import opened Sorting
  import opened Wrappers
  import opened Ndp
  import opened Config

  /** A duration setting with a default that must lie in a range. */
  function RangedDuration(d: RawDuration, def: int, low: int, high: int, e: Error): Result<int, Error> {
    match PlainDuration(d, def)
    case Err(e') => Err(e')
    case Ok(ns) => if low <= ns <= high then Ok(ns) else Err(e)
  }

  function MaxInterval(raw: RawInterface): Result<int, Error> {
    RangedDuration(raw.maxInterval, 600 * SECOND, 4 * SECOND, 1800 * SECOND, IntervalRange)
  }

  function Timer(d: RawDuration): Result<int, Error> {
    RangedDuration(d, 0, 0, HOUR, TimerRange)
  }

  function HopLimit(raw: RawInterface): int {
    if raw.hopLimit.Some? then raw.hopLimit.value else 64
  }

  /** The interface stanzas that are accepted. A monitoring interface ignores everything else. */
  predicate InterfaceOk(raw: RawInterface, c: Context) {
    if raw.monitor then !raw.advertise else
    && MaxInterval(raw).Ok?
    && var max := MaxInterval(raw).value;
    && ParseMinInterval(raw.minInterval, max, c.slack).Ok?
    && Timer(raw.reachableTime).Ok?
    && Timer(raw.retransmitTimer).Ok?
    && 0 <= HopLimit(raw) <= 255
    && ParseDefaultLifetime(raw.defaultLifetime, max).Ok?
    && ParsePreference(raw.preference).Ok?
    && PluginsOk(raw, max, c)
  }

  function InterfaceOf(name: string, raw: RawInterface, c: Context): Interface
    requires InterfaceOk(raw, c)
  {
    if raw.monitor then
      Interface(name, true, false, raw.verbose, 0, 0, false, false, 0, 0, 0, 0, false, Addresser.Medium, [])
    else
      var max := MaxInterval(raw).value;
      Interface(name, false, raw.advertise, raw.verbose, ParseMinInterval(raw.minInterval, max, c.slack).value, max,
                raw.managed, raw.otherConfig, Timer(raw.reachableTime).value, Timer(raw.retransmitTimer).value,
                HopLimit(raw),
                ParseDefaultLifetime(raw.defaultLifetime, max).value, raw.unicastOnly,
                ParsePreference(raw.preference).value, PluginsOf(raw, max, c))
  }

  method ParseInterface(name: string, raw: RawInterface, c: Context) returns (r: Result<Interface, Error>)
    ensures r.Ok? <==> InterfaceOk(raw, c)
    ensures r.Ok? ==> r.value == InterfaceOf(name, raw, c)
  {
    if raw.monitor && raw.advertise {
      return Err(MonitorAndAdvertise);
    }
    if raw.monitor {
      return Ok(Interface(name, true, false, raw.verbose, 0, 0, false, false, 0, 0, 0, 0, false, Addresser.Medium, []));
    }
    var maxInterval := PlainDuration(raw.maxInterval, 600 * SECOND);
    if maxInterval.Err? {
      return Err(maxInterval.error);
    }
    var max := maxInterval.value;
    if max < 4 * SECOND || max > 1800 * SECOND {
      return Err(IntervalRange);
    }
    var min := ParseMinInterval(raw.minInterval, max, c.slack);
    if min.Err? {
      return Err(min.error);
    }
    var reachable := Timer(raw.reachableTime);
    if reachable.Err? {
      return Err(reachable.error);
    }
    var retransmit := Timer(raw.retransmitTimer);
    if retransmit.Err? {
      return Err(retransmit.error);
    }
    var hopLimit := 64;
    if raw.hopLimit.Some? {
      hopLimit := raw.hopLimit.value;
    }
    if hopLimit < 0 || hopLimit > 255 {
      return Err(HopLimitRange);
    }
    var lifetime := ParseDefaultLifetime(raw.defaultLifetime, max);
    if lifetime.Err? {
      return Err(lifetime.error);
    }
    var preference := ParsePreference(raw.preference);
    if preference.Err? {
      return Err(preference.error);
    }
    var plugins := ParsePlugins(raw, max, c);
    if plugins.Err? {
      return Err(plugins.error);
    }
    return Ok(Interface(name, raw.monitor, raw.advertise, raw.verbose, min.value, max, raw.managed, raw.otherConfig,
                        reachable.value, retransmit.value, hopLimit, lifetime.value, raw.unicastOnly, preference.value,
                        plugins.value));
  }

  /** The names a stanza configures, if it identifies them in one way. */
  function NamesOf(raw: RawInterface): Option<seq<string>> {
    if raw.name != "" && raw.names == [] then Some([raw.name])
    else if raw.name == "" && raw.names != [] then Some(raw.names)
    else None
  }

  predicate StanzaOk(raw: RawInterface, c: Context) {
    NamesOf(raw).Some? && InterfaceOk(raw, c)
  }

  function InterfacesOf(raw: RawInterface, c: Context): (r: seq<Interface>)
    requires StanzaOk(raw, c)
  {
    var names := NamesOf(raw).value;
    seq(|names|, i requires 0 <= i < |names| => InterfaceOf(names[i], raw, c))
  }

  method ParseInterfaces(raw: RawInterface, c: Context) returns (r: Result<seq<Interface>, Error>)
    ensures r.Ok? <==> StanzaOk(raw, c)
    ensures r.Ok? ==> r.value == InterfacesOf(raw, c)
  {
    var names;
    if raw.name != "" && raw.names != [] {
      return Err(NameAndNames);
    } else if raw.name != "" {
      names := [raw.name];
    } else if raw.names != [] {
      names := raw.names;
    } else {
      return Err(NoName);
    }
    var ifis: seq<Interface> := [];
    for i := 0 to |names|
      invariant |ifis| == i && (i > 0 ==> InterfaceOk(raw, c))
      invariant forall k :: 0 <= k < i ==> ifis[k] == InterfaceOf(names[k], raw, c)
    {
      var iface := ParseInterface(names[i], raw, c);
      if iface.Err? {
        return Err(iface.error);
      }
      ifis := ifis + [iface.value];
    }
    return Ok(ifis);
  }

  // The whole configuration

  function NamesOfAll(raws: seq<RawInterface>, c: Context): seq<string>
    requires forall i :: 0 <= i < |raws| ==> StanzaOk(raws[i], c)
  {
    if raws == [] then [] else
    var n := |raws| - 1;
    assert StanzaOk(raws[n], c);
    NamesOfAll(raws[..n], c) + NamesOf(raws[n]).value
  }

  function InterfacesOfAll(raws: seq<RawInterface>, c: Context): seq<Interface>
    requires forall i :: 0 <= i < |raws| ==> StanzaOk(raws[i], c)
  {
    if raws == [] then [] else InterfacesOfAll(raws[..|raws| - 1], c) + InterfacesOf(raws[|raws| - 1], c)
  }

  predicate ConfigOk(raws: seq<RawInterface>, c: Context) {
    raws != [] && (forall i :: 0 <= i < |raws| ==> StanzaOk(raws[i], c)) && NoDup(NamesOfAll(raws, c))
  }

  /** The inner loop of Parse: records the names of one stanza, failing on one seen before. */
  method SeeNames(ifis: seq<Interface>, seen: set<string>, ghost before: seq<string>, ghost names: seq<string>)
    returns (ok: bool, seen': set<string>)
    requires |ifis| == |names| && forall i :: 0 <= i < |ifis| ==> ifis[i].name == names[i]
    requires NoDup(before) && seen == Elements(before)
    ensures ok <==> NoDup(before + names)
    ensures ok ==> seen' == Elements(before + names)
  {
    seen' := seen;
    assert before + names[..0] == before;
    for i := 0 to |ifis|
      invariant NoDup(before + names[..i]) && seen' == Elements(before + names[..i])
    {
      assert before + names[..i + 1] == before + names[..i] + [names[i]];
      if ifis[i].name in seen' {
        ghost var known := before + names[..i];
        ghost var upto := (before + names)[..|before| + i + 1];
        ghost var k :| 0 <= k < |known| && known[k] == names[i];
        assert upto == known + [names[i]];
        assert upto[k] == upto[|known|];
        PrefixDup(before + names, |before| + i + 1);
        return false, seen';
      }
      seen' := seen' + {ifis[i].name};
    }
    assert names[..|ifis|] == names;
    return true, seen';
  }

  lemma PrefixDup(s: seq<string>, n: nat)
    requires n <= |s| && !NoDup(s[..n])
    ensures !NoDup(s)
  {
    var i, j :| 0 <= i < j < n && s[..n][i] == s[..n][j];
    assert s[i] == s[j];
  }

  /** The debug server's settings; an empty address stands for no server. */
  datatype Debug = Debug(address: string, prometheus: bool, pprof: bool)

  /** A decoded file, and whether its debug address, if there is one, resolves. */
  datatype File = File(debug: Debug, resolves: bool, interfaces: seq<RawInterface>)

  datatype Configuration = Configuration(debug: Debug, interfaces: seq<Interface>)

  predicate DebugOk(f: File) {
    f.debug.address != "" ==> f.resolves
  }

  method Parse(f: File, c: Context) returns (r: Result<Configuration, Error>)
    ensures r.Ok? <==> DebugOk(f) && ConfigOk(f.interfaces, c)
    ensures r.Ok? ==> r.value.interfaces == InterfacesOfAll(f.interfaces, c)
    ensures r.Ok? ==> r.value.debug == if f.debug.address == "" then Debug("", false, false) else f.debug
  {
    if f.interfaces == [] {
      return Err(NoInterfaces);
    }
    var debug := Debug("", false, false);
    if f.debug.address != "" {
      if !f.resolves {
        return Err(BadDebugAddress);
      }
      debug := f.debug;
    }
    var interfaces := ParseStanzas(f.interfaces, c);
    if interfaces.Err? {
      return Err(interfaces.error);
    }
    return Ok(Configuration(debug, interfaces.value));
  }

  /** The loop over the stanzas. */
  method ParseStanzas(raws: seq<RawInterface>, c: Context) returns (r: Result<seq<Interface>, Error>)
    requires raws != []
    ensures r.Ok? <==> ConfigOk(raws, c)
    ensures r.Ok? ==> r.value == InterfacesOfAll(raws, c)
  {
    var interfaces: seq<Interface> := [];
    var seen: set<string> := {};
    for i := 0 to |raws|
      invariant forall k :: 0 <= k < i ==> StanzaOk(raws[k], c)
      invariant NoDup(NamesOfAll(raws[..i], c)) && seen == Elements(NamesOfAll(raws[..i], c))
      invariant interfaces == InterfacesOfAll(raws[..i], c)
    {
      var ifis := ParseInterfaces(raws[i], c);
      if ifis.Err? {
        return Err(ifis.error);
      }
      assert raws[..i + 1][..i] == raws[..i];
      var ok, seen' := SeeNames(ifis.value, seen, NamesOfAll(raws[..i], c), NamesOf(raws[i]).value);
      if !ok {
        if forall k :: 0 <= k < |raws| ==> StanzaOk(raws[k], c) {
          NamesPrefix(raws, c, i + 1);
        }
        return Err(RepeatedInterface);
      }
      seen := seen';
      interfaces := interfaces + ifis.value;
    }
    assert raws[..|raws|] == raws;
    return Ok(interfaces);
  }

  lemma {:induction false} NamesPrefix(raws: seq<RawInterface>, c: Context, n: nat)
    requires n <= |raws| && forall k :: 0 <= k < |raws| ==> StanzaOk(raws[k], c)
    requires !NoDup(NamesOfAll(raws[..n], c))
    ensures !NoDup(NamesOfAll(raws, c))
    decreases |raws|
  {
    if n == |raws| {
      assert raws[..n] == raws;
    } else {
      var init := raws[..|raws| - 1];
      assert init[..n] == raws[..n];
      NamesPrefix(init, c, n);
      var names := NamesOfAll(raws, c);
      assert names[..|NamesOfAll(init, c)|] == NamesOfAll(init, c);
      PrefixDup(names, |NamesOfAll(init, c)|);
    }
  }
}
