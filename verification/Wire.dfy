/** From the configuration file to the wire: what the advertisement of an accepted interface holds, in terms of
    its stanzas and of the kernel's answers. */
module Wire {
  import opened Netip
  import opened Sorting
  import opened Wrappers
  import opened Addresser
  import opened Ndp
  import opened Plugins
  import opened Config
  import opened Interfaces
  import opened Advertisement
  import Rdnss
  import Selection
  import opened SelectionLaws
  import opened ConfigLaws
  import opened SelfConsistency
  import AddressLaws

  /** The plugins of an accepted interface, stanza by stanza. */
  ghost predicate Carries(ifi: Interface, raw: RawInterface, c: Context) {
    && Laid(ifi.plugins, raw, c) && 0 <= ifi.maxInterval
    && var ps, max := ifi.plugins, ifi.maxInterval;
    && (forall k :: 0 <= k < |raw.rdnss| ==> RDNSSOf(raw.rdnss[k], max).Some? && RDNSSOf(raw.rdnss[k], max).value in ps)
    && (forall k :: 0 <= k < |raw.dnssl| ==> DNSSLOf(raw.dnssl[k], max).Some? && DNSSLOf(raw.dnssl[k], max).value in ps)
    && (forall k :: 0 <= k < |raw.pref64| ==>
          PREF64Of(raw.pref64[k], max).Some? && PREF64Of(raw.pref64[k], max).value in ps)
    && 0 <= raw.mtu <= 65536 && (raw.mtu != 0 ==> MTUPlugin(raw.mtu) in ps)
    && (raw.sourceLLA != Some(false) ==> LLAPlugin in ps)
    && (raw.captivePortal.Uri? ==> CaptivePortalPlugin(c.newRef, raw.captivePortal.uri) in ps)
  }

  lemma AcceptedCarries(ifi: Interface, raw: RawInterface, c: Context)
    requires Accepted(ifi, raw, c) && !raw.monitor
    ensures Carries(ifi, raw, c)
  {
    PluginsLaid(raw, ifi.maxInterval, c);
    PluginsSplit(raw, ifi.maxInterval, c);
    OthersListed(raw, ifi.maxInterval, c);
    forall p | p in Others(raw, ifi.maxInterval, c)
      ensures p in ifi.plugins
    {
    }
  }

  lemma OthersListed(raw: RawInterface, max: nat, c: Context)
    requires PluginsOk(raw, max, c)
    ensures var ps := Others(raw, max, c);
            && (forall k :: 0 <= k < |raw.rdnss| ==>
                  RDNSSOf(raw.rdnss[k], max).Some? && RDNSSOf(raw.rdnss[k], max).value in ps)
            && (forall k :: 0 <= k < |raw.dnssl| ==>
                  DNSSLOf(raw.dnssl[k], max).Some? && DNSSLOf(raw.dnssl[k], max).value in ps)
            && (forall k :: 0 <= k < |raw.pref64| ==>
                  PREF64Of(raw.pref64[k], max).Some? && PREF64Of(raw.pref64[k], max).value in ps)
            && (raw.mtu != 0 ==> MTUPlugin(raw.mtu) in ps)
            && (raw.sourceLLA != Some(false) ==> LLAPlugin in ps)
            && (raw.captivePortal.Uri? ==> CaptivePortalPlugin(c.newRef, raw.captivePortal.uri) in ps)
  {
    var rdnss, dnssl := Parsed(RDNSSParser(max), raw.rdnss), Parsed(DNSSLParser(max), raw.dnssl);
    var pref64 := Parsed(PREF64Parser(max), raw.pref64);
    assert forall k :: 0 <= k < |raw.rdnss| ==> RDNSSParser(max)(raw.rdnss[k]).Some? && rdnss[k] in rdnss;
    assert forall k :: 0 <= k < |raw.dnssl| ==> DNSSLParser(max)(raw.dnssl[k]).Some? && dnssl[k] in dnssl;
    assert forall k :: 0 <= k < |raw.pref64| ==> PREF64Parser(max)(raw.pref64[k]).Some? && pref64[k] in pref64;
  }

  /** The advertisement of such an interface was built. */
  ghost predicate Advertises(ifi: Interface, raw: RawInterface, c: Context, forwarding: bool, envs: seq<Env>) {
    Carries(ifi, raw, c) && AllReady(ifi.plugins, envs) && BuildRA(ifi, forwarding, envs).Ok?
  }

  function Sent(ifi: Interface, forwarding: bool, envs: seq<Env>): RA
    requires AllReady(ifi.plugins, envs) && BuildRA(ifi, forwarding, envs).Ok?
  {
    BuildRA(ifi, forwarding, envs).value.ra
  }

  /** Every base field is its own setting, or its default; the lifetime only while forwarding. */
  lemma BaseOnWire(ifi: Interface, raw: RawInterface, c: Context, forwarding: bool, envs: seq<Env>)
    requires Accepted(ifi, raw, c) && !raw.monitor
    requires AllReady(ifi.plugins, envs) && BuildRA(ifi, forwarding, envs).Ok?
    ensures var base := Sent(ifi, forwarding, envs).base;
            && base.managed == raw.managed && base.otherConfig == raw.otherConfig
            && base.hopLimit == (if raw.hopLimit.Some? then raw.hopLimit.value else 64)
            && PreferenceChosen(raw.preference, base.preference)
            && PlainChosen(raw.reachableTime, 0, base.reachableTime)
            && PlainChosen(raw.retransmitTimer, 0, base.retransmitTimer)
            && (!forwarding ==> base.routerLifetime == 0)
            && exists max :: PlainChosen(raw.maxInterval, 600_000_000_000, max)
                             && (forwarding ==> Chosen(raw.defaultLifetime, 3 * max, base.routerLifetime))
  {
    AcceptedFields(ifi.name, raw, c);
    assert PlainChosen(raw.maxInterval, 600_000_000_000, ifi.maxInterval);
    SettingsChosen(raw, ifi.maxInterval, ifi.defaultLifetime, ifi.preference);
  }

  /** The time left of a lifetime, which only a deprecated stanza counts down. */
  function Left(lifetime: int, deprecated: bool, epoch: Option<int>, now: int): int {
    if !deprecated || epoch.None? then lifetime
    else if epoch.value + lifetime - now > 0 then epoch.value + lifetime - now else 0
  }

  /** A prefix stanza asks for the network n. */
  ghost predicate PrefixWanted(raw: RawPrefix, env: Env, n: Prefix) {
    if raw.prefix.Net? && raw.prefix.prefix.addr.n != 0 then n == raw.prefix.prefix
    else env.addrs.Fetched? &&
         exists a :: a in env.addrs.value && Routable(a) && a.address.bits == 64 && Masked(a.address) == n
  }

  /** Lifetimes are advertised as configured, or as the time left of each. */
  lemma LifetimesLeft(p: Plugin, now: int)
    requires (p.PrefixPlugin? || p.RoutePlugin?) && (p.deprecated ==> p.epoch.Some?)
    ensures p.PrefixPlugin? ==>
              PrefixLifetimes(p, now) == (Left(p.validLifetime, p.deprecated, p.epoch, now),
                                          Left(p.preferredLifetime, p.deprecated, p.epoch, now))
    ensures p.RoutePlugin? ==> RouteLifetime(p, now) == Left(p.lifetime, p.deprecated, p.epoch, now)
  {
  }

  /** The option of a prefix stanza for the network n, with its own flags and the lifetimes it asks for. */
  function WirePrefix(raw: RawPrefix, valid: int, preferred: int, epoch: Option<int>, now: int, n: Prefix): NdpOption {
    PrefixInformation(n.bits,
                      if raw.onLink.Some? then raw.onLink.value else true,
                      if raw.autonomous.Some? then raw.autonomous.value else true,
                      Left(valid, raw.deprecated, epoch, now), Left(preferred, raw.deprecated, epoch, now), n.addr)
  }

  lemma WirePrefixIs(raw: RawPrefix, p: Plugin, valid: int, preferred: int, epoch: Option<int>, now: int, n: Prefix)
    requires ParsePrefix(raw, epoch) == Ok(p) && (raw.deprecated ==> epoch.Some?)
    requires Chosen(raw.validLifetime, 86_400_000_000_000, valid)
    requires Chosen(raw.preferredLifetime, 14_400_000_000_000, preferred)
    ensures p.PrefixPlugin? && p.deprecated == raw.deprecated && p.epoch == epoch
    ensures PrefixOption(p, now, n) == WirePrefix(raw, valid, preferred, epoch, now, n)
  {
    AcceptedPrefix(raw, epoch);
    assert p.validLifetime == valid && p.preferredLifetime == preferred;
  }

  lemma WantedIsGiven(raw: RawPrefix, p: Plugin, epoch: Option<int>, env: Env, n: Prefix)
    requires ParsePrefix(raw, epoch) == Ok(p)
    ensures p.PrefixPlugin? && (PrefixWanted(raw, env, n) <==> GivesPrefix(p, env, n))
  {
    AcceptedPrefix(raw, epoch);
    if p.auto && env.addrs.Fetched? {
      AutoPrefixesExactly(env.addrs.value, 64, n);
      AutoPrefixesElements(env.addrs.value, 64);
      assert n in Selection.AutoPrefixes(env.addrs.value, 64) <==>
             n in Elements(Selection.AutoPrefixes(env.addrs.value, 64));
    }
  }

  /** The k-th prefix stanza contributes exactly the options of the networks it asks for, with its own flags
      and lifetimes: the configured network, or those of the routable addresses with a mask of 64. */
  lemma PrefixOnWire(ifi: Interface, raw: RawInterface, c: Context, forwarding: bool, envs: seq<Env>, k: nat,
                     x: NdpOption, valid: int, preferred: int)
    requires Advertises(ifi, raw, c, forwarding, envs) && k < |raw.prefixes| && x.PrefixInformation?
    requires Chosen(raw.prefixes[k].validLifetime, 86_400_000_000_000, valid)
    requires Chosen(raw.prefixes[k].preferredLifetime, 14_400_000_000_000, preferred)
    ensures k < |envs| && Outputs(ifi.plugins[k], envs[k]).Ok?
    ensures x in Outputs(ifi.plugins[k], envs[k]).value <==>
            exists n: Prefix :: PrefixWanted(raw.prefixes[k], envs[k], n) &&
              x == WirePrefix(raw.prefixes[k], valid, preferred, c.epoch, envs[k].now, n)
    ensures x in Outputs(ifi.plugins[k], envs[k]).value ==> x in Sent(ifi, forwarding, envs).options
  {
    PluginAt(ifi.plugins, raw, c, k);
    AllSucceed(ifi, forwarding, envs);
    PrefixContributes(raw.prefixes[k], ifi.plugins[k], c.epoch, envs[k], x, valid, preferred);
    Contributed(ifi, forwarding, envs, k, x);
  }

  lemma PrefixContributes(raw: RawPrefix, p: Plugin, epoch: Option<int>, env: Env, x: NdpOption,
                          valid: int, preferred: int)
    requires ParsePrefix(raw, epoch) == Ok(p) && Ready(p, env) && Outputs(p, env).Ok? && x.PrefixInformation?
    requires Chosen(raw.validLifetime, 86_400_000_000_000, valid)
    requires Chosen(raw.preferredLifetime, 14_400_000_000_000, preferred)
    ensures x in Outputs(p, env).value <==>
            exists n: Prefix :: PrefixWanted(raw, env, n) && x == WirePrefix(raw, valid, preferred, epoch, env.now, n)
  {
    PrefixOutputs(p, env, x);
    PrefixKind(raw, epoch);
    AcceptedPrefix(raw, epoch);
    forall n: Prefix
      ensures PrefixWanted(raw, env, n) <==> GivesPrefix(p, env, n)
      ensures PrefixOption(p, env.now, n) == WirePrefix(raw, valid, preferred, epoch, env.now, n)
    {
      WantedIsGiven(raw, p, epoch, env, n);
      WirePrefixIs(raw, p, valid, preferred, epoch, env.now, n);
    }
  }

  /** What a plugin contributes is in the advertisement. */
  lemma Contributed(ifi: Interface, forwarding: bool, envs: seq<Env>, i: nat, x: NdpOption)
    requires AllReady(ifi.plugins, envs) && BuildRA(ifi, forwarding, envs).Ok? && i < |ifi.plugins|
    ensures Outputs(ifi.plugins[i], envs[i]).Ok?
    ensures x in Outputs(ifi.plugins[i], envs[i]).value ==> x in Sent(ifi, forwarding, envs).options
  {
    AllSucceed(ifi, forwarding, envs);
    BuiltMembers(ifi, forwarding, envs, x);
    if x in Outputs(ifi.plugins[i], envs[i]).value {
      assert Contributes(ifi.plugins, envs, i, x);
    }
  }

  // Routes

  /** A route stanza asks for the network n. */
  ghost predicate RouteWanted(raw: RawRoute, env: Env, n: Prefix) {
    if raw.prefix.Net? && raw.prefix.prefix.addr.n != 0 then n == raw.prefix.prefix
    else env.routes.Fetched? && env.addrs.Fetched? && RouteSelected(env.routes.value, env.addrs.value, n)
  }

  /** The table has a route to n, an IPv6 network that holds a routable address and is inside no shorter one. */
  ghost predicate RouteSelected(routes: seq<Route>, addrs: seq<IP>, n: Prefix) {
    && (exists r :: r in routes && r.prefix == n)
    && n.addr.V6? && n.bits != 128
    && (exists a :: a in addrs && Routable(a) && Contains(n, a.address.addr))
    && (forall r :: r in routes && r.prefix.bits < n.bits ==> !Contains(r.prefix, n.addr))
  }

  function WireRoute(preference: Preference, lifetime: int, deprecated: bool, epoch: Option<int>, now: int, n: Prefix)
    : NdpOption
  {
    RouteInformation(n.bits, preference, Left(lifetime, deprecated, epoch, now), n.addr)
  }

  lemma RouteWantedIsGiven(raw: RawRoute, p: Plugin, epoch: Option<int>, env: Env, n: Prefix)
    requires ParseRoute(raw, epoch) == Ok(p)
    ensures p.RoutePlugin? && (RouteWanted(raw, env, n) <==> GivesRoute(p, env, n))
  {
    AcceptedRoute(raw, epoch);
    if p.auto && env.routes.Fetched? && env.addrs.Fetched? {
      AutoRoutesExactly(env.routes.value, env.addrs.value, n);
      AdvertisedIffMaximal(env.routes.value, env.addrs.value, n);
    }
  }

  lemma RouteContributes(raw: RawRoute, p: Plugin, epoch: Option<int>, env: Env, x: NdpOption,
                         preference: Preference, lifetime: int)
    requires ParseRoute(raw, epoch) == Ok(p) && Ready(p, env) && Outputs(p, env).Ok? && x.RouteInformation?
    requires PreferenceChosen(raw.preference, preference) && Chosen(raw.lifetime, 86_400_000_000_000, lifetime)
    ensures x in Outputs(p, env).value <==>
            exists n: Prefix :: RouteWanted(raw, env, n) &&
              x == WireRoute(preference, lifetime, raw.deprecated, epoch, env.now, n)
  {
    RouteOutputs(p, env, x);
    RouteKind(raw, epoch);
    AcceptedRoute(raw, epoch);
    forall n: Prefix
      ensures RouteWanted(raw, env, n) <==> GivesRoute(p, env, n)
    {
      RouteWantedIsGiven(raw, p, epoch, env, n);
    }
    assert p.lifetime == lifetime && p.preference == preference;
  }

  /** The k-th route stanza contributes exactly the options of the networks it asks for, with its own
      preference and lifetime: the configured network, or those selected from the loopback routes. */
  lemma RouteOnWire(ifi: Interface, raw: RawInterface, c: Context, forwarding: bool, envs: seq<Env>, k: nat, i: nat,
                    x: NdpOption, preference: Preference, lifetime: int)
    requires Advertises(ifi, raw, c, forwarding, envs) && k < |raw.routes| && i == |raw.prefixes| + k
    requires x.RouteInformation? && PreferenceChosen(raw.routes[k].preference, preference)
    requires Chosen(raw.routes[k].lifetime, 86_400_000_000_000, lifetime)
    ensures i < |envs| && Outputs(ifi.plugins[i], envs[i]).Ok?
    ensures x in Outputs(ifi.plugins[i], envs[i]).value <==>
            exists n: Prefix :: RouteWanted(raw.routes[k], envs[i], n) &&
              x == WireRoute(preference, lifetime, raw.routes[k].deprecated, c.epoch, envs[i].now, n)
    ensures x in Outputs(ifi.plugins[i], envs[i]).value ==> x in Sent(ifi, forwarding, envs).options
  {
    PluginAt(ifi.plugins, raw, c, i);
    AllSucceed(ifi, forwarding, envs);
    RouteContributes(raw.routes[k], ifi.plugins[i], c.epoch, envs[i], x, preference, lifetime);
    Contributed(ifi, forwarding, envs, i, x);
  }

  /** Prefix options come from the prefix stanzas and route options from the route stanzas. */
  lemma NothingElse(ifi: Interface, raw: RawInterface, c: Context, forwarding: bool, envs: seq<Env>, x: NdpOption)
    returns (i: nat)
    requires Advertises(ifi, raw, c, forwarding, envs) && x in Sent(ifi, forwarding, envs).options
    ensures i < |envs| && Outputs(ifi.plugins[i], envs[i]).Ok? && x in Outputs(ifi.plugins[i], envs[i]).value
    ensures x.PrefixInformation? <==> i < |raw.prefixes|
    ensures x.RouteInformation? <==> |raw.prefixes| <= i < |raw.prefixes| + |raw.routes|
  {
    BuiltMembers(ifi, forwarding, envs, x);
    i :| Contributes(ifi.plugins, envs, i, x);
    var opts := Outputs(ifi.plugins[i], envs[i]).value;
    var k :| 0 <= k < |opts| && opts[k] == x;
    OutputKinds(ifi.plugins[i], envs[i], k);
    PluginAt(ifi.plugins, raw, c, i);
  }

  // The other stanzas

  /** A plugin of the list contributes its options. */
  lemma PluginOnWire(ifi: Interface, forwarding: bool, envs: seq<Env>, p: Plugin) returns (env: Env)
    requires AllReady(ifi.plugins, envs) && BuildRA(ifi, forwarding, envs).Ok? && p in ifi.plugins
    ensures env in envs && Ready(p, env) && Outputs(p, env).Ok?
    ensures forall x :: x in Outputs(p, env).value ==> x in Sent(ifi, forwarding, envs).options
  {
    var i :| 0 <= i < |ifi.plugins| && ifi.plugins[i] == p;
    env := envs[i];
    AllSucceed(ifi, forwarding, envs);
    forall x | x in Outputs(p, env).value
      ensures x in Sent(ifi, forwarding, envs).options
    {
      Contributed(ifi, forwarding, envs, i, x);
    }
  }

  /** A server stanza is on the wire with its lifetime, three maximum intervals by default, and its servers
      in increasing order, after the best address of the interface if it lists :: or none. */
  lemma ServersOnWire(ifi: Interface, raw: RawInterface, c: Context, forwarding: bool, envs: seq<Env>, k: nat,
                      lifetime: int) returns (servers: seq<Addr>)
    requires Advertises(ifi, raw, c, forwarding, envs) && k < |raw.rdnss|
    requires Chosen(raw.rdnss[k].lifetime, 3 * ifi.maxInterval, lifetime)
    ensures forall i, j :: 0 <= i < j < |servers| ==> servers[i].n < servers[j].n
    ensures forall a: Addr :: a in servers <==> a.n != 0 && Address(a) in raw.rdnss[k].servers
    ensures if raw.rdnss[k].servers == [] || exists s :: s in raw.rdnss[k].servers && s.Address? && s.addr.n == 0
            then exists env, best :: env in envs && env.addrs.Fetched? && Rdnss.IsBest(env.addrs.value, best)
                   && RecursiveDNSServer(lifetime, [best] + servers) in Sent(ifi, forwarding, envs).options
            else RecursiveDNSServer(lifetime, servers) in Sent(ifi, forwarding, envs).options
  {
    var stanza := raw.rdnss[k];
    var p := RDNSSOf(stanza, ifi.maxInterval).value;
    var env := PluginOnWire(ifi, forwarding, envs, p);
    servers := p.servers;
    ServersSorted(stanza.servers, servers);
    DurationsChosen(stanza.lifetime, 3 * ifi.maxInterval, lifetime);
    if p.auto {
      var best := AutoServer(p, env);
    } else {
      assert RecursiveDNSServer(lifetime, servers) in Outputs(p, env).value;
    }
  }

  lemma AutoServer(p: Plugin, env: Env) returns (best: Addr)
    requires p.RDNSSPlugin? && p.auto && Ready(p, env) && Outputs(p, env).Ok?
    ensures env.addrs.Fetched? && Rdnss.IsBest(env.addrs.value, best)
    ensures RecursiveDNSServer(p.lifetime, [best] + p.servers) in Outputs(p, env).value
  {
    Rdnss.BestIsMinimum(env.addrs.value);
    best := Rdnss.Best(env.addrs.value).value.address.addr;
  }

  lemma ServersSorted(texts: seq<RawAddr>, servers: seq<Addr>)
    requires ServersOk(texts) && servers == SortBy(ExplicitList(texts), AddrKey())
    ensures forall i, j :: 0 <= i < j < |servers| ==> servers[i].n < servers[j].n
    ensures forall a: Addr :: a in servers <==> a.n != 0 && Address(a) in texts
  {
    SortedServers(texts);
    forall a: Addr
      ensures a in servers <==> a.n != 0 && Address(a) in texts
    {
      assert a in servers <==> a in Elements(servers);
    }
    forall i, j | 0 <= i < j < |servers|
      ensures servers[i].n < servers[j].n
    {
      assert AddrKey()(servers[i]) < AddrKey()(servers[j]);
      assert Address(servers[i]) in texts && Address(servers[j]) in texts;
    }
  }

  /** A search list stanza is on the wire with its lifetime and names. */
  lemma NamesOnWire(ifi: Interface, raw: RawInterface, c: Context, forwarding: bool, envs: seq<Env>, k: nat,
                    lifetime: int)
    requires Advertises(ifi, raw, c, forwarding, envs) && k < |raw.dnssl|
    requires Chosen(raw.dnssl[k].lifetime, 3 * ifi.maxInterval, lifetime)
    ensures DNSSearchList(lifetime, raw.dnssl[k].domainNames) in Sent(ifi, forwarding, envs).options
  {
    var p := DNSSLOf(raw.dnssl[k], ifi.maxInterval).value;
    var env := PluginOnWire(ifi, forwarding, envs, p);
    DurationsChosen(raw.dnssl[k].lifetime, 3 * ifi.maxInterval, lifetime);
    assert DNSSearchList(lifetime, raw.dnssl[k].domainNames) in Outputs(p, env).value;
  }

  /** The MTU, the hardware address and the captive portal are on the wire when they are configured. */
  lemma SinglesOnWire(ifi: Interface, raw: RawInterface, c: Context, forwarding: bool, envs: seq<Env>)
    requires Advertises(ifi, raw, c, forwarding, envs)
    ensures raw.mtu != 0 ==> exists ref :: MTU(ref, raw.mtu) in Sent(ifi, forwarding, envs).options
    ensures raw.captivePortal.Uri? ==>
              CaptivePortal(c.newRef, raw.captivePortal.uri) in Sent(ifi, forwarding, envs).options
    ensures raw.sourceLLA != Some(false) ==>
              exists env :: env in envs && (env.hardwareAddr.Some? ==>
                LinkLayerAddress(env.hardwareAddr.value) in Sent(ifi, forwarding, envs).options)
  {
    if raw.mtu != 0 {
      var p := MTUPlugin(raw.mtu);
      var env := PluginOnWire(ifi, forwarding, envs, p);
      assert MTU(env.newRef, raw.mtu) in Outputs(p, env).value;
    }
    if raw.captivePortal.Uri? {
      var p := CaptivePortalPlugin(c.newRef, raw.captivePortal.uri);
      var env := PluginOnWire(ifi, forwarding, envs, p);
      assert CaptivePortal(c.newRef, raw.captivePortal.uri) in Outputs(p, env).value;
    }
    if raw.sourceLLA != Some(false) {
      var env := PluginOnWire(ifi, forwarding, envs, LLAPlugin);
      if env.hardwareAddr.Some? {
        assert LinkLayerAddress(env.hardwareAddr.value) in Outputs(LLAPlugin, env).value;
      }
    }
  }

  lemma DefaultPREF64Is()
    ensures DefaultPREF64().addr == V6(0x64_ff9b_0000_0000_0000_0000_0000_0000) && DefaultPREF64().bits == 96
  {
    AddressLaws.Pow2Large();
  }

  /** A translation prefix is on the wire, 64:ff9b::/96 by default, with the lifetime of the interface. */
  lemma PREF64OnWire(ifi: Interface, raw: RawInterface, c: Context, forwarding: bool, envs: seq<Env>, k: nat)
    returns (prefix: Prefix)
    requires Advertises(ifi, raw, c, forwarding, envs) && k < |raw.pref64|
    ensures if raw.pref64[k].Net? then prefix == raw.pref64[k].prefix
            else prefix.addr == V6(0x64_ff9b_0000_0000_0000_0000_0000_0000) && prefix.bits == 96
    ensures PREF64(prefix, PREF64Lifetime(ifi.maxInterval)) in Sent(ifi, forwarding, envs).options
  {
    var p := PREF64Of(raw.pref64[k], ifi.maxInterval).value;
    var env := PluginOnWire(ifi, forwarding, envs, p);
    prefix := p.prefix;
    DefaultPREF64Is();
    assert PREF64(prefix, PREF64Lifetime(ifi.maxInterval)) in Outputs(p, env).value;
  }
}
