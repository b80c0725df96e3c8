/** When the advertisement of an accepted interface contradicts itself. */
module SelfConsistency {
  import opened Netip
  import opened Wrappers
  import opened Addresser
  import Sorting
  import opened Ndp
  import opened Plugins
  import opened Config
  import opened Interfaces
  import opened Advertisement
  import Selection
  import opened SelectionLaws
  import opened ConfigLaws
  import Verify
  import opened VerifyLaws

  // Validation makes every plugin ready

  /** The interface that an accepted stanza gives. */
  predicate Accepted(ifi: Interface, raw: RawInterface, c: Context) {
    InterfaceOk(raw, c) && ifi == InterfaceOf(ifi.name, raw, c)
  }

  predicate NoneDeprecated(raw: RawInterface) {
    && (forall p :: p in raw.prefixes ==> !p.deprecated)
    && (forall r :: r in raw.routes ==> !r.deprecated)
  }

  /** The i-th stanza, counting prefixes and then routes, is deprecated. */
  predicate Deprecated(raw: RawInterface, i: nat) {
    var m := |raw.prefixes|;
    (i < m && raw.prefixes[i].deprecated) || (m <= i < m + |raw.routes| && raw.routes[i - m].deprecated)
  }

  /** The plugins after the prefixes and routes. */
  function Others(raw: RawInterface, max: nat, c: Context): seq<Plugin>
    requires PluginsOk(raw, max, c)
  {
    Parsed(RDNSSParser(max), raw.rdnss) + Parsed(DNSSLParser(max), raw.dnssl)
    + (if raw.mtu != 0 then [MTUPlugin(raw.mtu)] else [])
    + (if raw.sourceLLA != Some(false) then [LLAPlugin] else [])
    + (if raw.captivePortal.Uri? then [CaptivePortalPlugin(c.newRef, raw.captivePortal.uri)] else [])
    + Parsed(PREF64Parser(max), raw.pref64)
  }

  lemma Regroup<T>(a: seq<T>, b: seq<T>, c: seq<T>)
    ensures a + b + c == a + (b + c)
  {
  }

  lemma PluginsSplit(raw: RawInterface, max: nat, c: Context)
    requires PluginsOk(raw, max, c)
    ensures PluginsOf(raw, max, c) ==
            Parsed(PrefixParser(c), raw.prefixes) + Parsed(RouteParser(c), raw.routes) + Others(raw, max, c)
  {
    var nets := Parsed(PrefixParser(c), raw.prefixes) + Parsed(RouteParser(c), raw.routes);
    var rdnss, dnssl := Parsed(RDNSSParser(max), raw.rdnss), Parsed(DNSSLParser(max), raw.dnssl);
    var mtu := if raw.mtu != 0 then [MTUPlugin(raw.mtu)] else [];
    var lla := if raw.sourceLLA != Some(false) then [LLAPlugin] else [];
    var portal := if raw.captivePortal.Uri? then [CaptivePortalPlugin(c.newRef, raw.captivePortal.uri)] else [];
    Regroup(nets, rdnss, dnssl);
    Regroup(nets, rdnss + dnssl, mtu);
    Regroup(nets, rdnss + dnssl + mtu, lla);
    Regroup(nets, rdnss + dnssl + mtu + lla, portal);
    Regroup(nets, rdnss + dnssl + mtu + lla + portal, Parsed(PREF64Parser(max), raw.pref64));
  }

  /** The one place where an MTU plugin, or a portal plugin, may stand among the others. */
  function RefPlace(raw: RawInterface, mtu: bool): nat {
    var at := |raw.rdnss| + |raw.dnssl|;
    if mtu then at else
    at + (if raw.mtu != 0 then 1 else 0) + (if raw.sourceLLA != Some(false) then 1 else 0)
  }

  lemma OtherAt(raw: RawInterface, max: nat, c: Context, k: nat)
    requires PluginsOk(raw, max, c) && k < |Others(raw, max, c)|
    ensures var p := Others(raw, max, c)[k];
            && !p.PrefixPlugin? && !p.RoutePlugin?
            && (p.MTUPlugin? ==> k == RefPlace(raw, true))
            && (p.CaptivePortalPlugin? ==> k == RefPlace(raw, false) && p.ref == c.newRef)
  {
  }

  lemma PrefixKind(raw: RawPrefix, epoch: Option<int>)
    ensures ParsePrefix(raw, epoch).Ok? ==> ParsePrefix(raw, epoch).value.PrefixPlugin?
  {
  }

  lemma RouteKind(raw: RawRoute, epoch: Option<int>)
    ensures ParseRoute(raw, epoch).Ok? ==> ParseRoute(raw, epoch).value.RoutePlugin?
  {
  }

  /** Where the plugins of each kind stand: first those of the prefixes, then those of the routes. */
  ghost predicate Laid(ps: seq<Plugin>, raw: RawInterface, c: Context) {
    var m, n := |raw.prefixes|, |raw.routes|;
    && m + n <= |ps| && AllParse(PrefixParser(c), raw.prefixes) && AllParse(RouteParser(c), raw.routes)
    && ps[..m] == Parsed(PrefixParser(c), raw.prefixes)
    && ps[m..m + n] == Parsed(RouteParser(c), raw.routes)
    && forall k :: m + n <= k < |ps| ==> LaidOther(ps[k], raw, c, k - m - n)
  }

  predicate LaidOther(p: Plugin, raw: RawInterface, c: Context, k: nat) {
    && !p.PrefixPlugin? && !p.RoutePlugin?
    && (p.MTUPlugin? ==> k == RefPlace(raw, true))
    && (p.CaptivePortalPlugin? ==> k == RefPlace(raw, false) && p.ref == c.newRef)
  }

  lemma PluginsLaid(raw: RawInterface, max: nat, c: Context)
    requires PluginsOk(raw, max, c)
    ensures Laid(PluginsOf(raw, max, c), raw, c)
  {
    PluginsSplit(raw, max, c);
    var m, n, others := |raw.prefixes|, |raw.routes|, Others(raw, max, c);
    ThreeParts(Parsed(PrefixParser(c), raw.prefixes), Parsed(RouteParser(c), raw.routes), others);
    forall k | 0 <= k < |others|
      ensures LaidOther(others[k], raw, c, k)
    {
      OtherAt(raw, max, c, k);
    }
  }

  lemma ThreeParts<T>(a: seq<T>, b: seq<T>, t: seq<T>)
    ensures var s, m, n := a + b + t, |a|, |b|;
            s[..m] == a && s[m..m + n] == b && forall k :: m + n <= k < |s| ==> s[k] == t[k - m - n]
  {
  }

  lemma PluginAt(ps: seq<Plugin>, raw: RawInterface, c: Context, i: nat)
    requires Laid(ps, raw, c) && i < |ps|
    ensures var m, n := |raw.prefixes|, |raw.routes|;
            && (ps[i].PrefixPlugin? <==> i < m)
            && (ps[i].PrefixPlugin? ==> Ok(ps[i]) == ParsePrefix(raw.prefixes[i], c.epoch))
            && (ps[i].RoutePlugin? <==> m <= i < m + n)
            && (ps[i].RoutePlugin? ==> Ok(ps[i]) == ParseRoute(raw.routes[i - m], c.epoch))
            && (m + n <= i ==> LaidOther(ps[i], raw, c, i - m - n))
  {
    var m, n := |raw.prefixes|, |raw.routes|;
    if i < m {
      assert ps[i] == ps[..m][i];
      PrefixKind(raw.prefixes[i], c.epoch);
    } else if i < m + n {
      assert ps[i] == ps[m..m + n][i - m];
      RouteKind(raw.routes[i - m], c.epoch);
    }
  }

  /** An accepted interface whose addresses can be asked for never panics while its advertisement is built,
      if and only if there is an epoch or nothing is deprecated. */
  lemma AcceptedReady(ifi: Interface, raw: RawInterface, c: Context, envs: seq<Env>)
    requires Accepted(ifi, raw, c) && !raw.monitor
    requires |envs| == |ifi.plugins| && forall i :: 0 <= i < |envs| ==> !envs[i].addrs.Unset?
    ensures AllReady(ifi.plugins, envs) <==> c.epoch.Some? || NoneDeprecated(raw)
  {
    PluginsLaid(raw, MaxInterval(raw).value, c);
    LaidReady(ifi.plugins, raw, c, envs);
  }

  lemma LaidReady(ps: seq<Plugin>, raw: RawInterface, c: Context, envs: seq<Env>)
    requires Laid(ps, raw, c) && |envs| == |ps| && forall i :: 0 <= i < |envs| ==> !envs[i].addrs.Unset?
    ensures AllReady(ps, envs) <==> c.epoch.Some? || NoneDeprecated(raw)
  {
    var m := |raw.prefixes|;
    forall i | 0 <= i < |ps|
      ensures Ready(ps[i], envs[i]) <==> c.epoch.Some? || !Deprecated(raw, i)
    {
      PluginAt(ps, raw, c, i);
      if ps[i].PrefixPlugin? {
        AcceptedPrefix(raw.prefixes[i], c.epoch);
      } else if ps[i].RoutePlugin? {
        AcceptedRoute(raw.routes[i - m], c.epoch);
      }
    }
    if AllReady(ps, envs) && c.epoch.None? {
      forall k | 0 <= k < m
        ensures !raw.prefixes[k].deprecated
      {
        assert Ready(ps[k], envs[k]) && !Deprecated(raw, k);
      }
      forall k | 0 <= k < |raw.routes|
        ensures !raw.routes[k].deprecated
      {
        assert Ready(ps[m + k], envs[m + k]) && !Deprecated(raw, m + k);
      }
    }
  }

  // What a built advertisement holds

  /** The plugin advertises the network n as a prefix. */
  ghost predicate GivesPrefix(p: Plugin, env: Env, n: Prefix) {
    p.PrefixPlugin? &&
    if p.auto then env.addrs.Fetched? && n in NetworkSet(env.addrs.value, p.prefix.bits) else n == p.prefix
  }

  /** The plugin advertises the network n as a route. */
  ghost predicate GivesRoute(p: Plugin, env: Env, n: Prefix) {
    p.RoutePlugin? &&
    if p.auto then
      env.routes.Fetched? && env.addrs.Fetched? && n in CoveringOf(Maximal(Table(env.routes.value)), env.addrs.value)
    else n == p.prefix
  }

  /** A plugin contributes options of its own kind. */
  lemma OutputKinds(p: Plugin, env: Env, i: nat)
    requires Ready(p, env) && Outputs(p, env).Ok? && i < |Outputs(p, env).value|
    ensures var x := Outputs(p, env).value[i];
            && (x.PrefixInformation? <==> p.PrefixPlugin?)
            && (x.RouteInformation? <==> p.RoutePlugin?)
            && (x.MTU? <==> p.MTUPlugin?) && (x.MTU? ==> x.ref == env.newRef)
            && (x.CaptivePortal? <==> p.CaptivePortalPlugin?) && (x.CaptivePortal? ==> x.ref == p.ref)
            && (HasRef(x) ==> |Outputs(p, env).value| == 1)
  {
    if p.PrefixPlugin? {
      var ps := if p.auto then Selection.AutoPrefixes(env.addrs.value, p.prefix.bits) else [p.prefix];
      assert Outputs(p, env).value[i] == PrefixOption(p, env.now, ps[i]);
    } else if p.RoutePlugin? {
      var ps := if p.auto then Selection.AutoRoutes(env.routes.value, env.addrs.value) else [p.prefix];
      assert Outputs(p, env).value[i] == RouteOption(p, env.now, ps[i]);
    }
  }

  lemma PrefixOutputs(p: Plugin, env: Env, x: NdpOption)
    requires Ready(p, env) && Outputs(p, env).Ok? && x.PrefixInformation?
    ensures x in Outputs(p, env).value <==> exists n: Prefix :: GivesPrefix(p, env, n) && x == PrefixOption(p, env.now, n)
  {
    if p.PrefixPlugin? {
      var ps := if p.auto then Selection.AutoPrefixes(env.addrs.value, p.prefix.bits) else [p.prefix];
      forall n: Prefix
        ensures n in ps <==> GivesPrefix(p, env, n)
      {
        if p.auto {
          AutoPrefixesElements(env.addrs.value, p.prefix.bits);
          assert n in ps <==> n in Sorting.Elements(ps);
        }
      }
      OptionsOf(ps, (n: Prefix) => PrefixOption(p, env.now, n), Outputs(p, env).value, x);
      assert x in Outputs(p, env).value <==> exists n: Prefix :: n in ps && x == PrefixOption(p, env.now, n);
    } else if x in Outputs(p, env).value {
      var i :| 0 <= i < |Outputs(p, env).value| && Outputs(p, env).value[i] == x;
      OutputKinds(p, env, i);
    }
  }

  lemma RouteOutputs(p: Plugin, env: Env, x: NdpOption)
    requires Ready(p, env) && Outputs(p, env).Ok? && x.RouteInformation?
    ensures x in Outputs(p, env).value <==> exists n: Prefix :: GivesRoute(p, env, n) && x == RouteOption(p, env.now, n)
  {
    if p.RoutePlugin? {
      var ps := if p.auto then Selection.AutoRoutes(env.routes.value, env.addrs.value) else [p.prefix];
      forall n: Prefix
        ensures n in ps <==> GivesRoute(p, env, n)
      {
        if p.auto {
          AdvertisedIffMaximal(env.routes.value, env.addrs.value, n);
        }
      }
      OptionsOf(ps, (n: Prefix) => RouteOption(p, env.now, n), Outputs(p, env).value, x);
      assert x in Outputs(p, env).value <==> exists n: Prefix :: n in ps && x == RouteOption(p, env.now, n);
    } else if x in Outputs(p, env).value {
      var i :| 0 <= i < |Outputs(p, env).value| && Outputs(p, env).value[i] == x;
      OutputKinds(p, env, i);
    }
  }

  lemma OptionsOf(ps: seq<Prefix>, f: Prefix -> NdpOption, opts: seq<NdpOption>, x: NdpOption)
    requires |opts| == |ps| && forall i :: 0 <= i < |ps| ==> opts[i] == f(ps[i])
    ensures x in opts <==> exists n: Prefix :: n in ps && x == f(n)
  {
    if x in opts {
      var i :| 0 <= i < |opts| && opts[i] == x;
      assert ps[i] in ps;
    }
    if n: Prefix :| n in ps && x == f(n) {
      var i :| 0 <= i < |ps| && ps[i] == n;
      assert opts[i] in opts;
    }
  }

  /** The option x comes from the i-th contribution. */
  predicate From(outs: seq<Contribution>, i: nat, x: NdpOption) {
    i < |outs| && outs[i].Ok? && x in outs[i].value
  }

  lemma {:induction false} JoinedMembers(outs: seq<Contribution>, x: NdpOption)
    requires Joined(outs).Ok?
    ensures x in Joined(outs).value <==> exists i :: From(outs, i, x)
  {
    if outs != [] {
      var n := |outs| - 1;
      JoinedMembers(outs[..n], x);
      if i: nat :| From(outs, i, x) {
        assert i < n ==> From(outs[..n], i, x);
      }
      if i: nat :| From(outs[..n], i, x) {
        assert From(outs, i, x);
      }
      if outs[n].Ok? && x in outs[n].value {
        assert From(outs, n, x);
      }
    }
  }

  /** The i-th plugin succeeds and contributes x. */
  ghost predicate Contributes(plugins: seq<Plugin>, envs: seq<Env>, i: nat, x: NdpOption)
    requires AllReady(plugins, envs)
  {
    i < |plugins| && Outputs(plugins[i], envs[i]).Ok? && x in Outputs(plugins[i], envs[i]).value
  }

  lemma BuiltMembers(ifi: Interface, forwarding: bool, envs: seq<Env>, x: NdpOption)
    requires AllReady(ifi.plugins, envs) && BuildRA(ifi, forwarding, envs).Ok?
    ensures x in BuildRA(ifi, forwarding, envs).value.ra.options <==>
            exists i: nat :: Contributes(ifi.plugins, envs, i, x)
  {
    var outs := Contributions(ifi.plugins, envs);
    JoinedMembers(outs, x);
    if i: nat :| From(outs, i, x) {
      assert Contributes(ifi.plugins, envs, i, x);
    }
    if i: nat :| Contributes(ifi.plugins, envs, i, x) {
      assert From(outs, i, x);
    }
  }

  lemma AllSucceed(ifi: Interface, forwarding: bool, envs: seq<Env>)
    requires AllReady(ifi.plugins, envs) && BuildRA(ifi, forwarding, envs).Ok?
    ensures forall i :: 0 <= i < |ifi.plugins| ==> Outputs(ifi.plugins[i], envs[i]).Ok?
  {
    var outs := Contributions(ifi.plugins, envs);
    BuiltIffAllSucceed(outs);
    assert forall i :: 0 <= i < |outs| ==> outs[i] == Outputs(ifi.plugins[i], envs[i]);
  }

  // Any list of plugins

  /** Plugins that advertise the same network as a prefix give it the same lifetimes. */
  ghost predicate PrefixesMatch(plugins: seq<Plugin>, envs: seq<Env>)
    requires AllReady(plugins, envs)
  {
    forall i, j, n: Prefix :: 0 <= i < |plugins| && 0 <= j < |plugins| && GivesPrefix(plugins[i], envs[i], n)
                              && GivesPrefix(plugins[j], envs[j], n) ==>
      PrefixLifetimes(plugins[i], envs[i].now) == PrefixLifetimes(plugins[j], envs[j].now)
  }

  /** Plugins that advertise the same network as a route with the same preference give it the same lifetime. */
  ghost predicate RoutesMatch(plugins: seq<Plugin>, envs: seq<Env>)
    requires AllReady(plugins, envs)
  {
    forall i, j, n: Prefix :: 0 <= i < |plugins| && 0 <= j < |plugins| && GivesRoute(plugins[i], envs[i], n)
                              && GivesRoute(plugins[j], envs[j], n) && plugins[i].preference == plugins[j].preference ==>
      RouteLifetime(plugins[i], envs[i].now) == RouteLifetime(plugins[j], envs[j].now)
  }

  lemma PrefixGiven(ifi: Interface, forwarding: bool, envs: seq<Env>, i: nat, n: Prefix)
    requires AllReady(ifi.plugins, envs) && BuildRA(ifi, forwarding, envs).Ok?
    requires i < |ifi.plugins| && GivesPrefix(ifi.plugins[i], envs[i], n)
    ensures PrefixOption(ifi.plugins[i], envs[i].now, n) in BuildRA(ifi, forwarding, envs).value.ra.options
  {
    var x := PrefixOption(ifi.plugins[i], envs[i].now, n);
    AllSucceed(ifi, forwarding, envs);
    PrefixOutputs(ifi.plugins[i], envs[i], x);
    assert Contributes(ifi.plugins, envs, i, x);
    BuiltMembers(ifi, forwarding, envs, x);
  }

  lemma PrefixGiver(ifi: Interface, forwarding: bool, envs: seq<Env>, x: NdpOption) returns (i: nat, n: Prefix)
    requires AllReady(ifi.plugins, envs) && BuildRA(ifi, forwarding, envs).Ok?
    requires x in BuildRA(ifi, forwarding, envs).value.ra.options && x.PrefixInformation?
    ensures i < |ifi.plugins| && GivesPrefix(ifi.plugins[i], envs[i], n)
    ensures x == PrefixOption(ifi.plugins[i], envs[i].now, n)
  {
    BuiltMembers(ifi, forwarding, envs, x);
    i :| Contributes(ifi.plugins, envs, i, x);
    PrefixOutputs(ifi.plugins[i], envs[i], x);
    n :| GivesPrefix(ifi.plugins[i], envs[i], n) && x == PrefixOption(ifi.plugins[i], envs[i].now, n);
  }

  /** The prefix options of one advertisement agree exactly when its plugins match. */
  lemma PrefixesAgreeIff(ifi: Interface, forwarding: bool, envs: seq<Env>)
    requires AllReady(ifi.plugins, envs) && BuildRA(ifi, forwarding, envs).Ok?
    ensures var ra := BuildRA(ifi, forwarding, envs).value.ra;
            PrefixesAgree(ra, ra) <==> PrefixesMatch(ifi.plugins, envs)
  {
    var ra, ps := BuildRA(ifi, forwarding, envs).value.ra, ifi.plugins;
    if PrefixesAgree(ra, ra) {
      forall i, j, n: Prefix | 0 <= i < |ps| && 0 <= j < |ps| && GivesPrefix(ps[i], envs[i], n)
                               && GivesPrefix(ps[j], envs[j], n)
        ensures PrefixLifetimes(ps[i], envs[i].now) == PrefixLifetimes(ps[j], envs[j].now)
      {
        PrefixGiven(ifi, forwarding, envs, i, n);
        PrefixGiven(ifi, forwarding, envs, j, n);
        var x, y := PrefixOption(ps[i], envs[i].now, n), PrefixOption(ps[j], envs[j].now, n);
        assert Verify.SamePrefix(x, y);
      }
    }
    if PrefixesMatch(ps, envs) {
      forall x, y | x in ra.options && y in ra.options && Verify.SamePrefix(x, y)
        ensures x.preferredLifetime == y.preferredLifetime && x.validLifetime == y.validLifetime
      {
        var i, n := PrefixGiver(ifi, forwarding, envs, x);
        var j, n' := PrefixGiver(ifi, forwarding, envs, y);
        assert n == n';
      }
    }
  }

  lemma RouteGiven(ifi: Interface, forwarding: bool, envs: seq<Env>, i: nat, n: Prefix)
    requires AllReady(ifi.plugins, envs) && BuildRA(ifi, forwarding, envs).Ok?
    requires i < |ifi.plugins| && GivesRoute(ifi.plugins[i], envs[i], n)
    ensures RouteOption(ifi.plugins[i], envs[i].now, n) in BuildRA(ifi, forwarding, envs).value.ra.options
  {
    var x := RouteOption(ifi.plugins[i], envs[i].now, n);
    AllSucceed(ifi, forwarding, envs);
    RouteOutputs(ifi.plugins[i], envs[i], x);
    assert Contributes(ifi.plugins, envs, i, x);
    BuiltMembers(ifi, forwarding, envs, x);
  }

  lemma RouteGiver(ifi: Interface, forwarding: bool, envs: seq<Env>, x: NdpOption) returns (i: nat, n: Prefix)
    requires AllReady(ifi.plugins, envs) && BuildRA(ifi, forwarding, envs).Ok?
    requires x in BuildRA(ifi, forwarding, envs).value.ra.options && x.RouteInformation?
    ensures i < |ifi.plugins| && GivesRoute(ifi.plugins[i], envs[i], n)
    ensures x == RouteOption(ifi.plugins[i], envs[i].now, n)
  {
    BuiltMembers(ifi, forwarding, envs, x);
    i :| Contributes(ifi.plugins, envs, i, x);
    RouteOutputs(ifi.plugins[i], envs[i], x);
    n :| GivesRoute(ifi.plugins[i], envs[i], n) && x == RouteOption(ifi.plugins[i], envs[i].now, n);
  }

  /** The route options of one advertisement agree exactly when its plugins match. */
  lemma RoutesAgreeIff(ifi: Interface, forwarding: bool, envs: seq<Env>)
    requires AllReady(ifi.plugins, envs) && BuildRA(ifi, forwarding, envs).Ok?
    ensures var ra := BuildRA(ifi, forwarding, envs).value.ra;
            RoutesAgree(ra, ra) <==> RoutesMatch(ifi.plugins, envs)
  {
    var ra, ps := BuildRA(ifi, forwarding, envs).value.ra, ifi.plugins;
    if RoutesAgree(ra, ra) {
      forall i, j, n: Prefix | 0 <= i < |ps| && 0 <= j < |ps| && GivesRoute(ps[i], envs[i], n)
                               && GivesRoute(ps[j], envs[j], n) && ps[i].preference == ps[j].preference
        ensures RouteLifetime(ps[i], envs[i].now) == RouteLifetime(ps[j], envs[j].now)
      {
        RouteGiven(ifi, forwarding, envs, i, n);
        RouteGiven(ifi, forwarding, envs, j, n);
        var x, y := RouteOption(ps[i], envs[i].now, n), RouteOption(ps[j], envs[j].now, n);
        assert Verify.SameRoute(x, y);
      }
    }
    if RoutesMatch(ps, envs) {
      forall x, y | x in ra.options && y in ra.options && Verify.SameRoute(x, y) && x.preference == y.preference
        ensures x.routeLifetime == y.routeLifetime
      {
        var i, n := RouteGiver(ifi, forwarding, envs, x);
        var j, n' := RouteGiver(ifi, forwarding, envs, y);
        assert n == n';
      }
    }
  }

  // Accepted interfaces

  /** The automatic prefix stanza and an explicit one that is the network of a usable address agree. */
  ghost predicate PrefixStanzasMatch(plugins: seq<Plugin>, envs: seq<Env>)
    requires AllReady(plugins, envs)
  {
    forall i, j :: 0 <= i < |plugins| && 0 <= j < |plugins| && plugins[i].PrefixPlugin? && plugins[j].PrefixPlugin?
                   && plugins[i].auto && !plugins[j].auto && GivesPrefix(plugins[i], envs[i], plugins[j].prefix) ==>
      PrefixLifetimes(plugins[i], envs[i].now) == PrefixLifetimes(plugins[j], envs[j].now)
  }

  /** An automatic route stanza agrees with every other stanza of its preference that advertises a route it
      advertises too. */
  ghost predicate RouteStanzasMatch(plugins: seq<Plugin>, envs: seq<Env>)
    requires AllReady(plugins, envs)
  {
    forall i, j, n: Prefix :: 0 <= i < |plugins| && 0 <= j < |plugins| && i != j && GivesRoute(plugins[i], envs[i], n)
                              && GivesRoute(plugins[j], envs[j], n) && plugins[i].auto
                              && plugins[i].preference == plugins[j].preference ==>
      RouteLifetime(plugins[i], envs[i].now) == RouteLifetime(plugins[j], envs[j].now)
  }

  /** Two prefix plugins of a list differ in their prefix, and one of them is explicit. */
  predicate DistinctPrefixes(ps: seq<Plugin>) {
    forall i, j :: 0 <= i < j < |ps| && ps[i].PrefixPlugin? && ps[j].PrefixPlugin? ==>
      ps[i].prefix != ps[j].prefix && !(ps[i].auto && ps[j].auto)
  }

  /** Two explicit route plugins of a list differ in their prefix. */
  predicate DistinctRoutes(ps: seq<Plugin>) {
    forall i, j :: 0 <= i < j < |ps| && ps[i].RoutePlugin? && ps[j].RoutePlugin? && !ps[i].auto && !ps[j].auto ==>
      ps[i].prefix != ps[j].prefix
  }

  lemma NotDisjoint(p: Prefix, q: Prefix)
    ensures Disjoint(p, q) ==> p != q
  {
    assert Contains(p, p.addr);
  }

  lemma AcceptedDistinct(raw: RawInterface, c: Context)
    requires PrefixesOk(raw.prefixes, c) && RoutesOk(raw.routes, c)
    ensures DistinctPrefixes(Parsed(PrefixParser(c), raw.prefixes))
    ensures DistinctRoutes(Parsed(RouteParser(c), raw.routes))
  {
    AcceptedPrefixes(raw.prefixes, c);
    AcceptedRoutes(raw.routes, c);
    forall p: Prefix, q: Prefix
      ensures Disjoint(p, q) ==> p != q
    {
      NotDisjoint(p, q);
    }
  }

  lemma LaidDistinct(ps: seq<Plugin>, raw: RawInterface, c: Context)
    requires Laid(ps, raw, c)
    requires DistinctPrefixes(Parsed(PrefixParser(c), raw.prefixes))
    requires DistinctRoutes(Parsed(RouteParser(c), raw.routes))
    ensures DistinctPrefixes(ps) && DistinctRoutes(ps)
  {
    var m, n := |raw.prefixes|, |raw.routes|;
    var prefixes, routes := ps[..m], ps[m..m + n];
    forall i | 0 <= i < |ps|
      ensures ps[i].PrefixPlugin? ==> i < m && prefixes[i] == ps[i]
      ensures ps[i].RoutePlugin? ==> m <= i < m + n && routes[i - m] == ps[i]
    {
      PluginAt(ps, raw, c, i);
    }
  }

  lemma PrefixesMatchIff(ps: seq<Plugin>, envs: seq<Env>)
    requires DistinctPrefixes(ps) && AllReady(ps, envs)
    ensures PrefixesMatch(ps, envs) <==> PrefixStanzasMatch(ps, envs)
  {
    if PrefixStanzasMatch(ps, envs) {
      forall i, j, n: Prefix | 0 <= i < |ps| && 0 <= j < |ps| && GivesPrefix(ps[i], envs[i], n)
                               && GivesPrefix(ps[j], envs[j], n)
        ensures PrefixLifetimes(ps[i], envs[i].now) == PrefixLifetimes(ps[j], envs[j].now)
      {
        assert i < j || i == j || j < i;
      }
    }
  }

  lemma RoutesMatchIff(ps: seq<Plugin>, envs: seq<Env>)
    requires DistinctRoutes(ps) && AllReady(ps, envs)
    ensures RoutesMatch(ps, envs) <==> RouteStanzasMatch(ps, envs)
  {
    if RouteStanzasMatch(ps, envs) {
      forall i, j, n: Prefix | 0 <= i < |ps| && 0 <= j < |ps| && GivesRoute(ps[i], envs[i], n)
                               && GivesRoute(ps[j], envs[j], n) && ps[i].preference == ps[j].preference
        ensures RouteLifetime(ps[i], envs[i].now) == RouteLifetime(ps[j], envs[j].now)
      {
        assert i < j || i == j || j < i;
      }
    }
  }

  /** An object that a plugin allocates is a new one. */
  predicate NewRefs(envs: seq<Env>, c: Context) {
    forall i :: 0 <= i < |envs| ==> envs[i].newRef != c.newRef
  }

  /** The one plugin that contributes an option with an identity, and its place in the list. */
  lemma RefGiver(ps: seq<Plugin>, raw: RawInterface, c: Context, envs: seq<Env>, i: nat, x: NdpOption)
    requires Laid(ps, raw, c) && AllReady(ps, envs) && Contributes(ps, envs, i, x) && HasRef(x)
    ensures Outputs(ps[i], envs[i]) == Ok([x])
    ensures Ref(x) == if x.MTU? then envs[i].newRef else c.newRef
    ensures i == |raw.prefixes| + |raw.routes| + RefPlace(raw, x.MTU?)
  {
    var opts := Outputs(ps[i], envs[i]).value;
    var k :| 0 <= k < |opts| && opts[k] == x;
    OutputKinds(ps[i], envs[i], k);
    PluginAt(ps, raw, c, i);
    assert opts == [x];
  }

  /** In one advertisement each object occurs once: there is one MTU plugin and one portal plugin at most. */
  lemma OneHeap(ifi: Interface, raw: RawInterface, c: Context, forwarding: bool, envs: seq<Env>)
    requires Laid(ifi.plugins, raw, c) && AllReady(ifi.plugins, envs) && BuildRA(ifi, forwarding, envs).Ok?
    requires NewRefs(envs, c)
    ensures var ra := BuildRA(ifi, forwarding, envs).value.ra; Heap(ra, ra)
  {
    var ra := BuildRA(ifi, forwarding, envs).value.ra;
    forall x, y | x in ra.options && y in ra.options && HasRef(x) && HasRef(y) && Ref(x) == Ref(y)
      ensures x == y
    {
      BuiltMembers(ifi, forwarding, envs, x);
      BuiltMembers(ifi, forwarding, envs, y);
      var i: nat :| Contributes(ifi.plugins, envs, i, x);
      var j: nat :| Contributes(ifi.plugins, envs, j, y);
      RefGiver(ifi.plugins, raw, c, envs, i, x);
      RefGiver(ifi.plugins, raw, c, envs, j, y);
      assert i == j;
      assert [x][0] == [y][0];
    }
  }

  /** The advertisement of an accepted interface, compared with itself, is reported unless its stanzas match:
      an automatic prefix with the explicit prefixes it expands to, an automatic route with every other route
      stanza that advertises one of its routes. */
  lemma AcceptedSelfSilent(ifi: Interface, raw: RawInterface, c: Context, forwarding: bool, envs: seq<Env>)
    requires Accepted(ifi, raw, c) && AllReady(ifi.plugins, envs) && BuildRA(ifi, forwarding, envs).Ok?
    requires NewRefs(envs, c)
    ensures var ra := BuildRA(ifi, forwarding, envs).value.ra;
            Verify.RAProblems(ra, ra) == [] <==>
            PrefixStanzasMatch(ifi.plugins, envs) && RouteStanzasMatch(ifi.plugins, envs)
  {
    if raw.monitor {
      assert BuildRA(ifi, forwarding, envs).value.ra.options == [];
      SelfSilent(BuildRA(ifi, forwarding, envs).value.ra);
    } else {
      PluginsLaid(raw, MaxInterval(raw).value, c);
      AcceptedDistinct(raw, c);
      LaidDistinct(ifi.plugins, raw, c);
      LaidSelfSilent(ifi, raw, c, forwarding, envs);
    }
  }

  lemma LaidSelfSilent(ifi: Interface, raw: RawInterface, c: Context, forwarding: bool, envs: seq<Env>)
    requires Laid(ifi.plugins, raw, c) && DistinctPrefixes(ifi.plugins) && DistinctRoutes(ifi.plugins)
    requires AllReady(ifi.plugins, envs) && BuildRA(ifi, forwarding, envs).Ok? && NewRefs(envs, c)
    ensures var ra := BuildRA(ifi, forwarding, envs).value.ra;
            Verify.RAProblems(ra, ra) == [] <==>
            PrefixStanzasMatch(ifi.plugins, envs) && RouteStanzasMatch(ifi.plugins, envs)
  {
    OneHeap(ifi, raw, c, forwarding, envs);
    SelfSilent(BuildRA(ifi, forwarding, envs).value.ra);
    PrefixesAgreeIff(ifi, forwarding, envs);
    RoutesAgreeIff(ifi, forwarding, envs);
    PrefixesMatchIff(ifi.plugins, envs);
    RoutesMatchIff(ifi.plugins, envs);
  }

  /** Without automatic stanzas an accepted interface never contradicts itself. */
  lemma ExplicitSelfSilent(ifi: Interface, raw: RawInterface, c: Context, forwarding: bool, envs: seq<Env>)
    requires Accepted(ifi, raw, c) && AllReady(ifi.plugins, envs) && BuildRA(ifi, forwarding, envs).Ok?
    requires NewRefs(envs, c)
    requires forall p :: p in ifi.plugins && (p.PrefixPlugin? || p.RoutePlugin?) ==> !p.auto
    ensures var ra := BuildRA(ifi, forwarding, envs).value.ra; Verify.RAProblems(ra, ra) == []
  {
    AcceptedSelfSilent(ifi, raw, c, forwarding, envs);
  }

  // An accepted interface that contradicts itself

  lemma ExampleFits()
    ensures Pow2(64) < Pow2(128) && Pow2(64) == Pow2(32) * Pow2(32)
  {
    Pow2Words();
    Pow2Add(32, 32);
    Pow2Add(64, 64);
    MulMono(Pow2(64), 2, Pow2(64));
  }

  /** 0:0:0:1::/64 */
  function ExampleNet(): Prefix {
    ExampleFits();
    Prefix(V6(Pow2(64)), 64)
  }

  /** A stanza for ::/64 with default lifetimes and one for 0:0:0:1::/64 with shorter ones. */
  function ExampleInterface(): RawInterface {
    var unset := RawDuration.Unset;
    RawInterface("eth0", [], false, true, false, unset, unset, false, false, unset, unset, None, unset, false,
                 DefaultPreference,
                 [RawPrefix(NoNet, None, None, unset, unset, false),
                  RawPrefix(Net(ExampleNet()), None, None, Given(2 * HOUR), Given(HOUR), false)],
                 [], [], [], [], 0, Some(false), NoPortal)
  }

  lemma ExampleBlocks()
    ensures var a := ExampleNet().addr;
            Block(a, 64) == 1 && Block(a, 96) == Pow2(32) == 0x1_0000_0000 && Block(a, 10) == 0
  {
    ExampleFits();
    var n := Pow2(64);
    DivUnique(n, Pow2(64), 1, 0);
    DivUnique(n, Pow2(32), Pow2(32), 0);
    Pow2Words();
    Pow2Add(64, 54);
    assert Pow2(54) == 2 * Pow2(53);
    MulMono(Pow2(64), 2, Pow2(54));
    DivUnique(n, Pow2(118), 0, n);
  }

  lemma ExampleNetIs()
    ensures var n := ExampleNet();
            && Canonical(n) && !IsUnspecified(n.addr) && !Is4In6(n.addr) && !IsLinkLocalUnicast(n.addr)
            && Disjoint(AutoPrefix(), n)
  {
    ExampleBlocks();
    DivUnique(0, Pow2(64), 0, 0);
  }

  function ExamplePlugins(epoch: Option<int>): seq<Plugin> {
    [PrefixPlugin(true, AutoPrefix(), true, true, 24 * HOUR, 4 * HOUR, epoch, false),
     PrefixPlugin(false, ExampleNet(), true, true, 2 * HOUR, HOUR, epoch, false)]
  }

  lemma ExampleAutomatic(epoch: Option<int>)
    ensures ParsePrefix(ExampleInterface().prefixes[0], epoch) == Ok(ExamplePlugins(epoch)[0])
  {
  }

  lemma ExampleExplicit(epoch: Option<int>)
    ensures ParsePrefix(ExampleInterface().prefixes[1], epoch) == Ok(ExamplePlugins(epoch)[1])
  {
    ExampleNetIs();
    ExplicitParses(ExampleNet(), ExampleInterface().prefixes[1], epoch);
  }

  lemma ExplicitParses(net: Prefix, raw: RawPrefix, epoch: Option<int>)
    requires net.addr.V6? && net.bits == 64 && Canonical(net) && !IsUnspecified(net.addr) && !Is4In6(net.addr)
    requires raw == RawPrefix(Net(net), None, None, Given(2 * HOUR), Given(HOUR), false)
    ensures ParsePrefix(raw, epoch) == Ok(PrefixPlugin(false, net, true, true, 2 * HOUR, HOUR, epoch, false))
  {
    assert ParseIPPrefix(raw.prefix) == Ok(Some(net));
  }

  lemma ExampleParsed(c: Context)
    ensures AllParse(PrefixParser(c), ExampleInterface().prefixes)
    ensures Parsed(PrefixParser(c), ExampleInterface().prefixes) == ExamplePlugins(c.epoch)
  {
    var raws := ExampleInterface().prefixes;
    ExampleAutomatic(c.epoch);
    ExampleExplicit(c.epoch);
    assert |raws| == 2 && forall i :: 0 <= i < 2 ==> PrefixParser(c)(raws[i]) == Some(ExamplePlugins(c.epoch)[i]);
  }

  lemma ExamplePrefixesOk(c: Context)
    ensures PrefixesOk(ExampleInterface().prefixes, c)
  {
    ExampleParsed(c);
    ExampleNetIs();
    AcceptedPrefixes(ExampleInterface().prefixes, c);
  }

  lemma PrefixesAlone(raw: RawInterface, max: nat, c: Context)
    requires PrefixesOk(raw.prefixes, c) && raw.routes == [] && raw.rdnss == [] && raw.dnssl == [] && raw.pref64 == []
    requires raw.mtu == 0 && raw.sourceLLA == Some(false) && raw.captivePortal.NoPortal?
    ensures PluginsOk(raw, max, c) && PluginsOf(raw, max, c) == Parsed(PrefixParser(c), raw.prefixes)
  {
    assert RoutesOk(raw.routes, c);
  }

  lemma ExamplePluginsOk(c: Context, max: nat)
    ensures PluginsOk(ExampleInterface(), max, c)
    ensures PluginsOf(ExampleInterface(), max, c) == ExamplePlugins(c.epoch)
  {
    ExampleParsed(c);
    ExamplePrefixesOk(c);
    PrefixesAlone(ExampleInterface(), max, c);
  }

  lemma ExampleAccepted(c: Context)
    requires c.slack <= 1
    ensures InterfaceOk(ExampleInterface(), c)
    ensures PluginsOf(ExampleInterface(), 600 * SECOND, c) == ExamplePlugins(c.epoch)
  {
    ExamplePluginsOk(c, 600 * SECOND);
    assert MaxInterval(ExampleInterface()) == Ok(600 * SECOND);
  }

  lemma ExampleGiven(p: Plugin, env: Env, a: IP)
    requires p.PrefixPlugin? && p.auto && p.prefix == AutoPrefix() && env.addrs == Fetched([a])
    requires a.address == ExampleNet() && !a.temporary && !a.tentative
    ensures GivesPrefix(p, env, ExampleNet())
  {
    ExampleNetIs();
    assert a in [a] && Selection.Usable(a) && Masked(a.address) == ExampleNet();
  }

  /** The two plugins succeed, and the automatic one expands to the network of the other. */
  lemma ExampleClash(epoch: Option<int>, envs: seq<Env>, a: IP)
    requires |envs| == 2 && envs[0].addrs == envs[1].addrs == Fetched([a])
    requires a.address == ExampleNet() && !a.temporary && !a.tentative
    ensures var ps := ExamplePlugins(epoch);
            AllReady(ps, envs) && !PrefixStanzasMatch(ps, envs) && Joined(Contributions(ps, envs)).Ok?
  {
    var ps := ExamplePlugins(epoch);
    ExampleGiven(ps[0], envs[0], a);
    assert PrefixLifetimes(ps[0], envs[0].now).0 != PrefixLifetimes(ps[1], envs[1].now).0;
    BuiltIffAllSucceed(Contributions(ps, envs));
  }

  /** On an interface whose address is 0:0:0:1::/64 this configuration is accepted, and the advertisement
      carries that prefix with two lifetimes. */
  lemma ExampleContradicts(ifi: Interface, c: Context, envs: seq<Env>, a: IP, forwarding: bool)
    requires c.slack <= 1 && |envs| == 2 && envs[0].addrs == envs[1].addrs == Fetched([a]) && NewRefs(envs, c)
    requires a.address == ExampleNet() && !a.temporary && !a.tentative
    ensures InterfaceOk(ExampleInterface(), c)
    ensures ifi == InterfaceOf("eth0", ExampleInterface(), c) ==>
              && AllReady(ifi.plugins, envs) && BuildRA(ifi, forwarding, envs).Ok?
              && var ra := BuildRA(ifi, forwarding, envs).value.ra; Verify.RAProblems(ra, ra) != []
  {
    ExampleAccepted(c);
    ExampleClash(c.epoch, envs, a);
    if ifi == InterfaceOf("eth0", ExampleInterface(), c) {
      assert ifi.plugins == ExamplePlugins(c.epoch);
      AcceptedSelfSilent(ifi, ExampleInterface(), c, forwarding, envs);
    }
  }
}
