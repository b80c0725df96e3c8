/** From parsed configuration text to interfaces and plugins (package config). */
module Config {
  import opened Netip
  import opened Sorting
  import opened Wrappers
  import opened Addresser
  import opened Ndp
  import opened Plugins

  // Configuration values after the decoding of the file and of the texts in it

  datatype RawDuration = Unset | Empty | Auto | Infinite | Given(ns: int) | Malformed

  datatype RawNet = NoNet | BadNet | Net(prefix: Prefix)

  datatype RawAddr = BadAddr | Address(addr: Addr)

  datatype RawPreference = DefaultPreference | Known(preference: Preference) | BadPreference

  datatype RawPortal = NoPortal | BadPortal | Uri(uri: string)

  datatype RawPrefix = RawPrefix(prefix: RawNet, onLink: Option<bool>, autonomous: Option<bool>,
                                 validLifetime: RawDuration, preferredLifetime: RawDuration, deprecated: bool)

  datatype RawRoute = RawRoute(prefix: RawNet, preference: RawPreference, lifetime: RawDuration, deprecated: bool)

  datatype RawRDNSS = RawRDNSS(lifetime: RawDuration, servers: seq<RawAddr>)

  datatype RawDNSSL = RawDNSSL(lifetime: RawDuration, domainNames: seq<string>)

  datatype RawInterface = RawInterface(
    name: string, names: seq<string>, monitor: bool, advertise: bool, verbose: bool,
    maxInterval: RawDuration, minInterval: RawDuration, managed: bool, otherConfig: bool,
    reachableTime: RawDuration, retransmitTimer: RawDuration, hopLimit: Option<int>, defaultLifetime: RawDuration,
    unicastOnly: bool, preference: RawPreference,
    prefixes: seq<RawPrefix>, routes: seq<RawRoute>, rdnss: seq<RawRDNSS>, dnssl: seq<RawDNSSL>, pref64: seq<RawNet>,
    mtu: int, sourceLLA: Option<bool>, captivePortal: RawPortal)

  datatype Interface = Interface(
    name: string, monitor: bool, advertise: bool, verbose: bool, minInterval: int, maxInterval: int,
    managed: bool, otherConfig: bool, reachableTime: int, retransmitTimer: int, hopLimit: nat, defaultLifetime: int,
    unicastOnly: bool, preference: Preference, plugins: seq<Plugin>)

  datatype Error =
    | BadDuration | BadPrefix | NotNetwork | NotIPv6 | SingleAddress | BadWildcard | ZeroLifetime | PreferredExceedsValid
    | DeprecatedInfinite | PrefixesOverlap | RoutesOverlap | BadServer | RepeatedServer | NoDomainNames | RepeatedName
    | MTURange | BadCaptivePortal | IntervalRange | TimerRange | HopLimitRange | LifetimeRange | BadPreferenceText
    | MonitorAndAdvertise | NameAndNames | NoName | NoInterfaces | BadDebugAddress | RepeatedInterface

  const HOUR := 3600 * SECOND

  /** What parsing takes from outside the file: the epoch of deprecated lifetimes (None for the zero time),
      the identity of the next object, and how far below its exact value 0.33 * max comes out. */
  datatype Context = Context(epoch: Option<int>, newRef: nat, slack: nat)

  // Durations

  function ParseDuration(d: RawDuration, def: int): Result<int, Error> {
    match d
    case Unset => Ok(def)
    case Auto => Ok(def)
    case Infinite => Ok(INFINITY)
    case Empty => Ok(0)
    case Given(ns) => Ok(ns)
    case Malformed => Err(BadDuration)
  }

  /** A setting without special words, whose empty text means the default. */
  function PlainDuration(d: RawDuration, def: int): Result<int, Error> {
    match d
    case Unset => Ok(def)
    case Empty => Ok(def)
    case Given(ns) => Ok(ns)
    case _ => Err(BadDuration)
  }

  function TruncateSecond(ns: nat): nat {
    ns / SECOND * SECOND
  }

  /** About a third of the maximum, in whole seconds; the floating point product is `slack` below
      33 * max / 100 or less, so that truncation sees one of two values. */
  function AutoMinInterval(max: nat, slack: nat): int {
    var third := 33 * max / 100 - slack;
    if third < 0 then 0 else TruncateSecond(third)
  }

  function ParseMinInterval(d: RawDuration, max: nat, slack: nat): Result<int, Error> {
    match d
    case Malformed => Err(BadDuration)
    case Infinite => Err(BadDuration)
    case Given(min) =>
      if min < 3 * SECOND || min > TruncateSecond(3 * max / 4) then Err(IntervalRange) else Ok(min)
    case _ =>
      Ok(if max >= 9 * SECOND then AutoMinInterval(max, slack) else max)
  }

  function ParseDefaultLifetime(d: RawDuration, max: nat): Result<int, Error> {
    match ParseDuration(d, 3 * max)
    case Err(e) => Err(e)
    case Ok(lt) => if lt != 0 && (lt < max || lt > 9000 * SECOND) then Err(LifetimeRange) else Ok(lt)
  }

  function ParsePreference(p: RawPreference): Result<Preference, Error> {
    match p
    case DefaultPreference => Ok(Medium)
    case Known(preference) => Ok(preference)
    case BadPreference => Err(BadPreferenceText)
  }

  // Prefixes, routes and servers

  /** ::ffff:0:0/96 */
  predicate Is4In6(a: Addr) {
    a.V6? && Block(a, 96) == 0xffff
  }

  function ParseIPPrefix(n: RawNet): Result<Option<Prefix>, Error> {
    match n
    case NoNet => Ok(None)
    case BadNet => Err(BadPrefix)
    case Net(p) =>
      if Masked(p) != p then Err(NotNetwork)
      else if p.addr.V4? || Is4In6(p.addr) then Err(NotIPv6)
      else Ok(Some(p))
  }

  function AutoPrefix(): Prefix { Prefix(V6(0), 64) }

  function AutoRoute(): Prefix { Prefix(V6(0), 0) }

  function ParsePrefix(raw: RawPrefix, epoch: Option<int>): Result<Plugin, Error> {
    match ParseIPPrefix(raw.prefix)
    case Err(e) => Err(e)
    case Ok(given) =>
      var prefix := if given.None? then AutoPrefix() else given.value;
      if IsSingleIP(prefix) then Err(SingleAddress)
      else if IsUnspecified(prefix.addr) && prefix.bits != 64 then Err(BadWildcard)
      else match (ParseDuration(raw.validLifetime, 24 * HOUR), ParseDuration(raw.preferredLifetime, 4 * HOUR))
        case (Err(e), _) => Err(e)
        case (Ok(valid), preferred) =>
          if valid == 0 then Err(ZeroLifetime)
          else if preferred.Err? then Err(preferred.error)
          else if preferred.value == 0 then Err(ZeroLifetime)
          else if preferred.value > valid then Err(PreferredExceedsValid)
          else if raw.deprecated && (preferred.value == INFINITY || valid == INFINITY) then Err(DeprecatedInfinite)
          else Ok(PrefixPlugin(prefix == AutoPrefix(), prefix,
                               if raw.onLink.Some? then raw.onLink.value else true,
                               if raw.autonomous.Some? then raw.autonomous.value else true,
                               valid, preferred.value, epoch, raw.deprecated))
  }

  function ParseRoute(raw: RawRoute, epoch: Option<int>): Result<Plugin, Error> {
    match ParseIPPrefix(raw.prefix)
    case Err(e) => Err(e)
    case Ok(given) =>
      var prefix := if given.None? then AutoRoute() else given.value;
      if IsUnspecified(prefix.addr) && prefix.bits != 0 then Err(BadWildcard)
      else match (ParsePreference(raw.preference), ParseDuration(raw.lifetime, 24 * HOUR))
        case (Err(e), _) => Err(e)
        case (Ok(_), Err(e)) => Err(e)
        case (Ok(preference), Ok(lt)) =>
          if lt == 0 then Err(ZeroLifetime)
          else if raw.deprecated && lt == INFINITY then Err(DeprecatedInfinite)
          else Ok(RoutePlugin(prefix == AutoRoute(), prefix, preference, lt, epoch, raw.deprecated))
  }

  /** The servers of a list that names IPv6 addresses, each once. */
  predicate ServersOk(servers: seq<RawAddr>) {
    && (forall i :: 0 <= i < |servers| ==> servers[i].Address? && servers[i].addr.V6? && !Is4In6(servers[i].addr))
    && NoDup(servers)
  }

  /** The explicit servers, without the wildcard. */
  function Explicit(servers: seq<RawAddr>): set<Addr> {
    set s | s in servers && s.Address? && !IsUnspecified(s.addr) :: s.addr
  }

  predicate HasWildcard(servers: seq<RawAddr>) {
    exists s :: s in servers && s.Address? && IsUnspecified(s.addr)
  }

  function AddrKey(): Addr -> int {
    (a: Addr) => Rank(a)
  }

  /** The loop over the texts. */
  method ScanServers(servers: seq<RawAddr>) returns (r: Result<(bool, set<Addr>), Error>)
    ensures r.Ok? <==> ServersOk(servers)
    ensures r.Ok? ==> r.value == (HasWildcard(servers), Explicit(servers))
  {
    var auto := false;
    var seen: set<Addr> := {};
    for i := 0 to |servers|
      invariant ServersOk(servers[..i])
      invariant auto == HasWildcard(servers[..i])
      invariant seen == Explicit(servers[..i])
    {
      var s := servers[i];
      ServersStep(servers, i);
      if s.BadAddr? || s.addr.V4? || Is4In6(s.addr) {
        return Err(BadServer);
      }
      if IsUnspecified(s.addr) {
        if auto {
          return Err(RepeatedServer);
        }
        auto := true;
        continue;
      }
      if s.addr in seen {
        return Err(RepeatedServer);
      }
      seen := seen + {s.addr};
    }
    assert servers[..|servers|] == servers;
    return Ok((auto, seen));
  }

  predicate ServerOk(s: RawAddr) {
    s.Address? && s.addr.V6? && !Is4In6(s.addr)
  }

  lemma ServersStep(servers: seq<RawAddr>, i: nat)
    requires i < |servers| && ServersOk(servers[..i])
    ensures var s, before := servers[i], servers[..i];
            && (ServersOk(servers) ==> ServerOk(s))
            && (ServerOk(s) && IsUnspecified(s.addr) ==>
                  && ServersOk(servers[..i + 1]) == !HasWildcard(before)
                  && HasWildcard(servers[..i + 1]) && Explicit(servers[..i + 1]) == Explicit(before))
            && (ServerOk(s) && !IsUnspecified(s.addr) ==>
                  && ServersOk(servers[..i + 1]) == (s.addr !in Explicit(before))
                  && HasWildcard(servers[..i + 1]) == HasWildcard(before)
                  && Explicit(servers[..i + 1]) == Explicit(before) + {s.addr})
    ensures ServersOk(servers) ==> ServersOk(servers[..i + 1])
  {
    var s, before := servers[i], servers[..i];
    assert servers[..i + 1] == before + [s];
    if ServerOk(s) {
      assert IsUnspecified(s.addr) ==> (HasWildcard(before) <==> s in before);
      assert !IsUnspecified(s.addr) ==> (s.addr in Explicit(before) <==> s in before);
      assert ServersOk(before + [s]) <==> s !in before;
    }
  }

  lemma AppendNew(list: seq<Addr>, ip: Addr)
    requires NoDup(list) && ip !in Elements(list)
    ensures NoDup(list + [ip]) && Elements(list + [ip]) == Elements(list) + {ip}
  {
  }

  /** The elements of a set in the arbitrary order of a map's iteration, sorted. */
  method SortedAddrs(ips: set<Addr>) returns (sorted: seq<Addr>)
    ensures Elements(sorted) == ips && StrictBy(sorted, AddrKey())
  {
    var list: seq<Addr> := [];
    var todo := ips;
    while todo != {}
      invariant Elements(list) + todo == ips && Elements(list) !! todo
      invariant NoDup(list)
      decreases |todo|
    {
      var ip :| ip in todo;
      todo := todo - {ip};
      AppendNew(list, ip);
      list := list + [ip];
    }
    sorted := SortBy(list, AddrKey());
    SortedDistinct(list);
  }

  /** The explicit servers in order of appearance. */
  function ExplicitList(servers: seq<RawAddr>): seq<Addr> {
    if servers == [] then [] else
    var n := |servers| - 1;
    ExplicitList(servers[..n]) +
    if servers[n].Address? && !IsUnspecified(servers[n].addr) then [servers[n].addr] else []
  }

  lemma {:induction false} ExplicitListMembers(servers: seq<RawAddr>, a: Addr)
    ensures a in ExplicitList(servers) <==> a in Explicit(servers)
  {
    if servers != [] {
      var n := |servers| - 1;
      ExplicitListMembers(servers[..n], a);
      assert servers == servers[..n] + [servers[n]];
    }
  }

  lemma {:induction false} ExplicitListNoDup(servers: seq<RawAddr>)
    requires ServersOk(servers)
    ensures NoDup(ExplicitList(servers))
  {
    if servers != [] {
      var n := |servers| - 1;
      ExplicitListNoDup(servers[..n]);
      ExplicitListMembers(servers[..n], servers[n].addr);
      assert servers[n] !in servers[..n];
    }
  }

  lemma ExplicitListElements(servers: seq<RawAddr>)
    ensures Elements(ExplicitList(servers)) == Explicit(servers)
  {
    forall a: Addr {
      ExplicitListMembers(servers, a);
    }
  }

  lemma SortedServers(servers: seq<RawAddr>)
    requires ServersOk(servers)
    ensures var sorted := SortBy(ExplicitList(servers), AddrKey());
            Elements(sorted) == Explicit(servers) && StrictBy(sorted, AddrKey())
  {
    ExplicitListElements(servers);
    ExplicitListNoDup(servers);
    SortedDistinct(ExplicitList(servers));
  }

  lemma SortedDistinct(list: seq<Addr>)
    requires NoDup(list)
    ensures Elements(SortBy(list, AddrKey())) == Elements(list) && StrictBy(SortBy(list, AddrKey()), AddrKey())
  {
    Permuted(list, SortBy(list, AddrKey()));
    SortStrict(list, AddrKey());
  }

  /** A plugin, or None when the stanza is rejected. */
  function RDNSSOf(raw: RawRDNSS, maxInterval: nat): Option<Plugin> {
    var lifetime := ParseDuration(raw.lifetime, 3 * maxInterval);
    if lifetime.Err? || !ServersOk(raw.servers) then None else
    Some(RDNSSPlugin(raw.servers == [] || HasWildcard(raw.servers), lifetime.value,
        SortBy(ExplicitList(raw.servers), AddrKey())))
  }

  method ParseRDNSS(raw: RawRDNSS, maxInterval: nat) returns (r: Result<Plugin, Error>)
    ensures r.Ok? <==> RDNSSOf(raw, maxInterval).Some?
    ensures r.Ok? ==> Some(r.value) == RDNSSOf(raw, maxInterval)
    ensures r.Ok? ==> Elements(r.value.servers) == Explicit(raw.servers) && StrictBy(r.value.servers, AddrKey())
  {
    var lifetime := ParseDuration(raw.lifetime, 3 * maxInterval);
    if lifetime.Err? {
      return Err(lifetime.error);
    }
    if raw.servers == [] {
      return Ok(RDNSSPlugin(true, lifetime.value, []));
    }
    var scan := ScanServers(raw.servers);
    if scan.Err? {
      return Err(scan.error);
    }
    var servers := SortedAddrs(scan.value.1);
    SortedServers(raw.servers);
    StrictUnique(servers, SortBy(ExplicitList(raw.servers), AddrKey()), AddrKey());
    return Ok(RDNSSPlugin(scan.value.0, lifetime.value, servers));
  }

  function DNSSLOf(raw: RawDNSSL, maxInterval: nat): Option<Plugin> {
    var lifetime := ParseDuration(raw.lifetime, 3 * maxInterval);
    if lifetime.Err? || raw.domainNames == [] || !NoDup(raw.domainNames) then None else
    Some(DNSSLPlugin(lifetime.value, raw.domainNames))
  }

  method ParseDNSSL(raw: RawDNSSL, maxInterval: nat) returns (r: Result<Plugin, Error>)
    ensures r.Ok? <==> DNSSLOf(raw, maxInterval).Some?
    ensures r.Ok? ==> Some(r.value) == DNSSLOf(raw, maxInterval)
  {
    var lifetime := ParseDuration(raw.lifetime, 3 * maxInterval);
    if lifetime.Err? {
      return Err(lifetime.error);
    }
    if raw.domainNames == [] {
      return Err(NoDomainNames);
    }
    var seen: set<string> := {};
    for i := 0 to |raw.domainNames|
      invariant NoDup(raw.domainNames[..i])
      invariant seen == Elements(raw.domainNames[..i])
    {
      var name := raw.domainNames[i];
      assert raw.domainNames[..i + 1] == raw.domainNames[..i] + [name];
      if name in seen {
        return Err(RepeatedName);
      }
      seen := seen + {name};
    }
    assert raw.domainNames[..|raw.domainNames|] == raw.domainNames;
    return Ok(DNSSLPlugin(lifetime.value, raw.domainNames));
  }

  // Plugins of an interface

  /** 64:ff9b::/96 */
  function DefaultPREF64(): Prefix {
    DefaultPREF64Fits();
    Prefix(V6(0x64_ff9b * Pow2(96)), 96)
  }

  lemma DefaultPREF64Fits()
    ensures 0x64_ff9b * Pow2(96) < Pow2(128)
  {
    Pow2Words();
    Pow2Above(32, 96, 0x64_ff9b);
  }

  /** The lifetime of section 4.1 of RFC 8781: three maximum intervals in whole seconds, rounded up to a
      multiple of eight, as far as the option's 13 bits allow. */
  function PREF64Lifetime(maxInterval: nat): int {
    var seconds := maxInterval / SECOND * 3;
    if seconds < 8191 * 8 then (seconds + 7) / 8 * 8 * SECOND else 8191 * 8 * SECOND
  }

  function PREF64Of(raw: RawNet, maxInterval: nat): Option<Plugin> {
    match raw
    case NoNet => Some(PREF64Plugin(DefaultPREF64(), PREF64Lifetime(maxInterval)))
    case BadNet => None
    case Net(p) => Some(PREF64Plugin(p, PREF64Lifetime(maxInterval)))
  }

  /** Two prefixes at different places of the list, neither equal to `skip`, share an address. */
  predicate AnyOverlap(ps: seq<Prefix>, skip: Option<Prefix>) {
    exists i, j :: 0 <= i < |ps| && 0 <= j < |ps| && i != j && Some(ps[i]) != skip && Some(ps[j]) != skip &&
        Overlaps(ps[i], ps[j])
  }

  /** The nested loops of the overlap checks, which compare places, not values. */
  method CheckOverlaps(ps: seq<Prefix>, skip: Option<Prefix>) returns (overlap: bool)
    ensures overlap == AnyOverlap(ps, skip)
  {
    for i := 0 to |ps|
      invariant forall k, j :: 0 <= k < i && 0 <= j < |ps| && k != j && Some(ps[k]) != skip && Some(ps[j]) != skip ==>
                  !Overlaps(ps[k], ps[j])
    {
      for j := 0 to |ps|
        invariant forall k :: 0 <= k < j && i != k && Some(ps[i]) != skip && Some(ps[k]) != skip ==>
            !Overlaps(ps[i], ps[k])
      {
        if i == j || Some(ps[i]) == skip || Some(ps[j]) == skip {
          continue;
        }
        if Overlaps(ps[i], ps[j]) {
          return true;
        }
      }
    }
    return false;
  }

  // The stanzas of one kind, in order

  predicate AllParse<A(!new)>(parse: A -> Option<Plugin>, raws: seq<A>) {
    forall i :: 0 <= i < |raws| ==> parse(raws[i]).Some?
  }

  function Parsed<A(!new)>(parse: A -> Option<Plugin>, raws: seq<A>): seq<Plugin>
    requires AllParse(parse, raws)
  {
    seq(|raws|, i requires 0 <= i < |raws| => parse(raws[i]).value)
  }

  function AsOption<T>(r: Result<T, Error>): Option<T> {
    if r.Ok? then Some(r.value) else None
  }

  function PrefixParser(c: Context): RawPrefix -> Option<Plugin> {
    raw => AsOption(ParsePrefix(raw, c.epoch))
  }

  function RouteParser(c: Context): RawRoute -> Option<Plugin> {
    raw => AsOption(ParseRoute(raw, c.epoch))
  }

  function RDNSSParser(maxInterval: nat): RawRDNSS -> Option<Plugin> {
    raw => RDNSSOf(raw, maxInterval)
  }

  function DNSSLParser(maxInterval: nat): RawDNSSL -> Option<Plugin> {
    raw => DNSSLOf(raw, maxInterval)
  }

  function PREF64Parser(maxInterval: nat): RawNet -> Option<Plugin> {
    raw => PREF64Of(raw, maxInterval)
  }

  function Nets(ps: seq<Plugin>): seq<Prefix>
    requires forall p :: p in ps ==> p.PrefixPlugin? || p.RoutePlugin?
  {
    seq<Prefix>(|ps|, i requires 0 <= i < |ps| => assert ps[i] in ps; ps[i].prefix)
  }

  predicate PrefixesOk(raws: seq<RawPrefix>, c: Context) {
    AllParse(PrefixParser(c), raws) && !AnyOverlap(Nets(Parsed(PrefixParser(c), raws)), None)
  }

  predicate RoutesOk(raws: seq<RawRoute>, c: Context) {
    AllParse(RouteParser(c), raws) && !AnyOverlap(Nets(Parsed(RouteParser(c), raws)), Some(AutoRoute()))
  }

  /** The plugin stanzas of an interface that are accepted. */
  predicate PluginsOk(raw: RawInterface, maxInterval: nat, c: Context) {
    && PrefixesOk(raw.prefixes, c)
    && RoutesOk(raw.routes, c)
    && AllParse(RDNSSParser(maxInterval), raw.rdnss)
    && AllParse(DNSSLParser(maxInterval), raw.dnssl)
    && 0 <= raw.mtu <= 65536
    && !raw.captivePortal.BadPortal?
    && AllParse(PREF64Parser(maxInterval), raw.pref64)
  }

  function PluginsOf(raw: RawInterface, maxInterval: nat, c: Context): seq<Plugin>
    requires PluginsOk(raw, maxInterval, c)
  {
    Parsed(PrefixParser(c), raw.prefixes)
    + Parsed(RouteParser(c), raw.routes)
    + Parsed(RDNSSParser(maxInterval), raw.rdnss)
    + Parsed(DNSSLParser(maxInterval), raw.dnssl)
    + (if raw.mtu != 0 then [MTUPlugin(raw.mtu)] else [])
    + (if raw.sourceLLA != Some(false) then [LLAPlugin] else [])
    + (if raw.captivePortal.Uri? then [CaptivePortalPlugin(c.newRef, raw.captivePortal.uri)] else [])
    + Parsed(PREF64Parser(maxInterval), raw.pref64)
  }

  lemma ParseStep<A(!new)>(parse: A -> Option<Plugin>, raws: seq<A>, i: nat)
    requires i < |raws| && AllParse(parse, raws[..i])
    ensures AllParse(parse, raws[..i + 1]) <==> parse(raws[i]).Some?
    ensures AllParse(parse, raws) ==> parse(raws[i]).Some?
    ensures parse(raws[i]).Some? ==> Parsed(parse, raws[..i + 1]) == Parsed(parse, raws[..i]) + [parse(raws[i]).value]
  {
    assert raws[..i + 1] == raws[..i] + [raws[i]];
  }

  method ParseEach<A(!new)>(parse: A -> Result<Plugin, Error>, raws: seq<A>, ghost spec: A -> Option<Plugin>)
    returns (r: Result<seq<Plugin>, Error>)
    requires forall a :: spec(a) == AsOption(parse(a))
    ensures r.Ok? <==> AllParse(spec, raws)
    ensures r.Ok? ==> r.value == Parsed(spec, raws)
  {
    var plugins: seq<Plugin> := [];
    for i := 0 to |raws|
      invariant AllParse(spec, raws[..i]) && plugins == Parsed(spec, raws[..i])
    {
      var p := parse(raws[i]);
      ParseStep(spec, raws, i);
      if p.Err? {
        return Err(p.error);
      }
      plugins := plugins + [p.value];
    }
    assert raws[..|raws|] == raws;
    return Ok(plugins);
  }

  method ParseAllRDNSS(raws: seq<RawRDNSS>, maxInterval: nat) returns (r: Result<seq<Plugin>, Error>)
    ensures r.Ok? <==> AllParse(RDNSSParser(maxInterval), raws)
    ensures r.Ok? ==> r.value == Parsed(RDNSSParser(maxInterval), raws)
  {
    ghost var spec := RDNSSParser(maxInterval);
    var plugins: seq<Plugin> := [];
    for i := 0 to |raws|
      invariant AllParse(spec, raws[..i]) && plugins == Parsed(spec, raws[..i])
    {
      var p := ParseRDNSS(raws[i], maxInterval);
      ParseStep(spec, raws, i);
      if p.Err? {
        return Err(p.error);
      }
      plugins := plugins + [p.value];
    }
    assert raws[..|raws|] == raws;
    return Ok(plugins);
  }

  method ParseAllDNSSL(raws: seq<RawDNSSL>, maxInterval: nat) returns (r: Result<seq<Plugin>, Error>)
    ensures r.Ok? <==> AllParse(DNSSLParser(maxInterval), raws)
    ensures r.Ok? ==> r.value == Parsed(DNSSLParser(maxInterval), raws)
  {
    ghost var spec := DNSSLParser(maxInterval);
    var plugins: seq<Plugin> := [];
    for i := 0 to |raws|
      invariant AllParse(spec, raws[..i]) && plugins == Parsed(spec, raws[..i])
    {
      var p := ParseDNSSL(raws[i], maxInterval);
      ParseStep(spec, raws, i);
      if p.Err? {
        return Err(p.error);
      }
      plugins := plugins + [p.value];
    }
    assert raws[..|raws|] == raws;
    return Ok(plugins);
  }

  method ParsePrefixes(raws: seq<RawPrefix>, c: Context) returns (r: Result<seq<Plugin>, Error>)
    ensures r.Ok? <==> PrefixesOk(raws, c)
    ensures r.Ok? ==> r.value == Parsed(PrefixParser(c), raws)
  {
    r := ParseEach((p: RawPrefix) => ParsePrefix(p, c.epoch), raws, PrefixParser(c));
    if r.Ok? {
      var overlap := CheckOverlaps(Nets(r.value), None);
      if overlap {
        return Err(PrefixesOverlap);
      }
    }
  }

  method ParseRoutes(raws: seq<RawRoute>, c: Context) returns (r: Result<seq<Plugin>, Error>)
    ensures r.Ok? <==> RoutesOk(raws, c)
    ensures r.Ok? ==> r.value == Parsed(RouteParser(c), raws)
  {
    r := ParseEach((p: RawRoute) => ParseRoute(p, c.epoch), raws, RouteParser(c));
    if r.Ok? {
      var overlap := CheckOverlaps(Nets(r.value), Some(AutoRoute()));
      if overlap {
        return Err(RoutesOverlap);
      }
    }
  }

  method ParsePREF64s(raws: seq<RawNet>, maxInterval: nat) returns (r: Result<seq<Plugin>, Error>)
    ensures r.Ok? <==> AllParse(PREF64Parser(maxInterval), raws)
    ensures r.Ok? ==> r.value == Parsed(PREF64Parser(maxInterval), raws)
  {
    r := ParseEach((n: RawNet) => if n.BadNet? then Err(BadPrefix) else Ok(PREF64Of(n, maxInterval).value),
                   raws, PREF64Parser(maxInterval));
  }

  method ParsePlugins(raw: RawInterface, maxInterval: nat, c: Context) returns (r: Result<seq<Plugin>, Error>)
    ensures r.Ok? <==> PluginsOk(raw, maxInterval, c)
    ensures r.Ok? ==> r.value == PluginsOf(raw, maxInterval, c)
  {
    r := ParsePrefixes(raw.prefixes, c);
    if r.Err? {
      return;
    }
    var plugins := r.value;
    r := ParseRoutes(raw.routes, c);
    if r.Err? {
      return;
    }
    plugins := plugins + r.value;
    r := ParseAllRDNSS(raw.rdnss, maxInterval);
    if r.Err? {
      return;
    }
    plugins := plugins + r.value;
    r := ParseAllDNSSL(raw.dnssl, maxInterval);
    if r.Err? {
      return;
    }
    plugins := plugins + r.value;
    if raw.mtu < 0 || raw.mtu > 65536 {
      return Err(MTURange);
    }
    plugins := plugins + if raw.mtu != 0 then [MTUPlugin(raw.mtu)] else [];
    plugins := plugins + if raw.sourceLLA.None? || raw.sourceLLA.value then [LLAPlugin] else [];
    if raw.captivePortal.BadPortal? {
      return Err(BadCaptivePortal);
    }
    plugins := plugins + if raw.captivePortal.Uri? then [CaptivePortalPlugin(c.newRef, raw.captivePortal.uri)] else [];
    r := ParsePREF64s(raw.pref64, maxInterval);
    if r.Err? {
      return;
    }
    return Ok(plugins + r.value);
  }
}
