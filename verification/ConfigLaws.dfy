/** What an accepted configuration guarantees to the rest of the program. */
module ConfigLaws {
  import opened Netip
  import opened Sorting
  import opened Wrappers
  import opened Ndp
  import opened Plugins
  import opened Config
  import opened Interfaces
  import Scheduler
  import SchedulerLaws
  import Advertisement
  import opened Addresser
  import opened Selection
  import SelectionLaws
  import AddressLaws

  // Intervals and lifetimes

  /** What later code relies on for every accepted interface that does not monitor. */
  predicate Sound(ifi: Interface) {
    && 4 * SECOND <= ifi.maxInterval <= 1800 * SECOND
    && 2 * SECOND <= ifi.minInterval <= ifi.maxInterval
    && (ifi.defaultLifetime == 0 || ifi.maxInterval <= ifi.defaultLifetime <= 9000 * SECOND)
    && 0 <= ifi.reachableTime <= HOUR
    && 0 <= ifi.retransmitTimer <= HOUR
    && 0 <= ifi.hopLimit <= 255
  }

  lemma AcceptedSound(name: string, raw: RawInterface, c: Context)
    requires InterfaceOk(raw, c) && !raw.monitor && c.slack <= 1
    ensures Sound(InterfaceOf(name, raw, c))
  {
    MinIntervalRange(raw.minInterval, MaxInterval(raw).value, c.slack);
  }

  lemma MinIntervalRange(d: RawDuration, max: nat, slack: nat)
    requires 4 * SECOND <= max && slack <= 1 && ParseMinInterval(d, max, slack).Ok?
    ensures 2 * SECOND <= ParseMinInterval(d, max, slack).value <= max
    ensures d.Given? ==> 3 * SECOND <= d.ns && 4 * d.ns <= 3 * max && ParseMinInterval(d, max, slack).value == d.ns
  {
    if max >= 9 * SECOND {
      assert 33 * max / 100 >= 2_970_000_000;
      assert 33 * max / 100 <= max;
    }
  }

  /** The automatic minimum is below the 3 seconds that explicit values must have exactly for maximums
      from 9 seconds to just under 9.09 seconds. */
  lemma AutoMinimumShort(max: nat, slack: nat)
    requires 4 * SECOND <= max && slack <= 1
    ensures var min := ParseMinInterval(Auto, max, slack);
            min.Ok? && (min.value < 3 * SECOND <==> 9 * SECOND <= max && 33 * max < 100 * (3 * SECOND + slack))
    ensures ParseMinInterval(Auto, 9 * SECOND, slack) == Ok(2 * SECOND)
    ensures ParseMinInterval(Given(2 * SECOND), max, slack).Err?
  {
    if max >= 9 * SECOND {
      var third := 33 * max / 100 - slack;
      assert third >= 2 * SECOND;
      assert third < 3 * SECOND <==> 33 * max < 100 * (3 * SECOND + slack);
    }
    assert 33 * (9 * SECOND) / 100 == 2_970_000_000;
  }

  /** For an accepted interface the generator never draws from an empty range, and its delays are whole
      seconds within half a second of the interval, of at least 2 seconds, at most 16 for the first three. */
  lemma AcceptedDelays(name: string, raw: RawInterface, c: Context, i: nat, rnd: nat)
    requires InterfaceOk(raw, c) && !raw.monitor && c.slack <= 1
    ensures var ifi := InterfaceOf(name, raw, c);
            0 <= ifi.minInterval <= ifi.maxInterval &&
            (Scheduler.Random(ifi.minInterval, ifi.maxInterval, rnd) ==>
               var d := Scheduler.MulticastDelay(i, ifi.minInterval, ifi.maxInterval, rnd);
               && d % SECOND == 0 && 2 * SECOND <= d <= ifi.maxInterval + SECOND / 2
               && (i < 3 ==> d <= 16 * SECOND)
               && (i >= 3 ==> ifi.minInterval - SECOND / 2 < d))
  {
    AcceptedSound(name, raw, c);
    var ifi := InterfaceOf(name, raw, c);
    if Scheduler.Random(ifi.minInterval, ifi.maxInterval, rnd) {
      SchedulerLaws.MulticastDelayBounds(i, ifi.minInterval, ifi.maxInterval, rnd);
      SchedulerLaws.MulticastDelayAtLeast(i, ifi.minInterval, ifi.maxInterval, rnd, 2 * SECOND);
    }
  }

  /** Every advertisement of an accepted interface obeys the rules of the router lifetime. */
  lemma AcceptedLifetime(name: string, raw: RawInterface, c: Context, forwarding: bool, envs: seq<Env>)
    requires InterfaceOk(raw, c) && !raw.monitor && c.slack <= 1
    requires Advertisement.AllReady(InterfaceOf(name, raw, c).plugins, envs)
    requires Advertisement.BuildRA(InterfaceOf(name, raw, c), forwarding, envs).Ok?
    ensures var ifi := InterfaceOf(name, raw, c);
            var lifetime := Advertisement.BuildRA(ifi, forwarding, envs).value.ra.base.routerLifetime;
            (lifetime == 0 || ifi.maxInterval <= lifetime <= 9000 * SECOND) && (lifetime > 0 ==> forwarding)
  {
    AcceptedSound(name, raw, c);
    Advertisement.LifetimeAdvertised(InterfaceOf(name, raw, c), forwarding, envs);
  }

  // What a setting asks for

  /** v is what a lifetime setting asks for: its own value, the default when unset or automatic, the largest
      number of seconds when infinite, zero when empty. */
  predicate Chosen(d: RawDuration, def: int, v: int) {
    match d
    case Given(ns) => v == ns
    case Unset => v == def
    case Auto => v == def
    case Infinite => v == 4_294_967_295_000_000_000
    case Empty => v == 0
    case Malformed => false
  }

  /** v is what an interval or timer asks for: its own value, or the default when it is unset or empty. */
  predicate PlainChosen(d: RawDuration, def: int, v: int) {
    match d
    case Given(ns) => v == ns
    case Unset => v == def
    case Empty => v == def
    case _ => false
  }

  predicate PreferenceChosen(raw: RawPreference, p: Preference) {
    match raw
    case DefaultPreference => p == Medium
    case Known(preference) => p == preference
    case BadPreference => false
  }

  lemma DurationsChosen(d: RawDuration, def: int, v: int)
    ensures ParseDuration(d, def) == Ok(v) <==> Chosen(d, def, v)
    ensures PlainDuration(d, def) == Ok(v) <==> PlainChosen(d, def, v)
  {
  }

  /** Which intervals, timers, lifetimes and preferences are accepted, and as what. */
  lemma SettingsChosen(raw: RawInterface, max: nat, v: int, p: Preference)
    ensures MaxInterval(raw) == Ok(v) <==>
            PlainChosen(raw.maxInterval, 600_000_000_000, v) && 4_000_000_000 <= v <= 1_800_000_000_000
    ensures Timer(raw.reachableTime) == Ok(v) <==>
            PlainChosen(raw.reachableTime, 0, v) && 0 <= v <= 3_600_000_000_000
    ensures Timer(raw.retransmitTimer) == Ok(v) <==>
            PlainChosen(raw.retransmitTimer, 0, v) && 0 <= v <= 3_600_000_000_000
    ensures ParseDefaultLifetime(raw.defaultLifetime, max) == Ok(v) <==>
            Chosen(raw.defaultLifetime, 3 * max, v) && (v == 0 || max <= v <= 9_000_000_000_000)
    ensures ParsePreference(raw.preference) == Ok(p) <==> PreferenceChosen(raw.preference, p)
  {
  }

  /** An explicit minimum is accepted from 3 seconds to the last whole second within three quarters of the
      maximum. */
  lemma MinimumChosen(d: RawDuration, max: nat, slack: nat, v: int)
    requires 4_000_000_000 <= max && slack <= 1
    ensures d.Given? ==>
              (ParseMinInterval(d, max, slack) == Ok(v) <==>
               && v == d.ns && 3_000_000_000 <= v
               && exists k: nat :: v <= k * 1_000_000_000 && QuarterBound(k, max))
    ensures d.Unset? || d.Empty? || d.Auto? ==>
              ParseMinInterval(d, max, slack) == Ok(AutoMinimum(max, slack))
    ensures d.Infinite? || d.Malformed? ==> ParseMinInterval(d, max, slack).Err?
  {
    LastSecond(max);
    if d.Given? && d.ns <= TruncateSecond(3 * max / 4) {
      assert QuarterBound(3 * max / 4 / SECOND, max);
    }
  }

  /** Three quarters of the maximum, cut to whole seconds, is the largest such number within the bound. */
  lemma LastSecond(max: nat)
    ensures QuarterBound(3 * max / 4 / SECOND, max)
    ensures TruncateSecond(3 * max / 4) == 3 * max / 4 / SECOND * 1_000_000_000
    ensures forall k: nat :: QuarterBound(k, max) ==> k * 1_000_000_000 <= TruncateSecond(3 * max / 4)
  {
  }

  /** The automatic minimum is the last whole second within 33 hundredths of the maximum, from 9 seconds on,
      and the maximum below. */
  lemma AutoMinimumChosen(max: nat, slack: nat)
    requires 4_000_000_000 <= max && slack <= 1
    ensures max < 9_000_000_000 ==> AutoMinimum(max, slack) == max
    ensures max >= 9_000_000_000 ==>
              AutoMinimum(max, slack) % 1_000_000_000 == 0 &&
              100 * (AutoMinimum(max, slack) + slack) <= 33 * max &&
              33 * max < 100 * (AutoMinimum(max, slack) + 1_000_000_000 + slack)
  {
  }

  predicate QuarterBound(k: nat, max: nat) {
    4 * (k * 1_000_000_000) <= 3 * max
  }

  /** The minimum interval that is chosen when none is configured. */
  function AutoMinimum(max: nat, slack: nat): int {
    match ParseMinInterval(RawDuration.Unset, max, slack)
    case Ok(min) => min
    case Err(_) => -1
  }

  /** The fields of an accepted interface are the settings of its stanza. */
  lemma AcceptedFields(name: string, raw: RawInterface, c: Context)
    requires InterfaceOk(raw, c) && !raw.monitor
    ensures var ifi := InterfaceOf(name, raw, c);
            && ifi.name == name && !ifi.monitor && ifi.advertise == raw.advertise && ifi.verbose == raw.verbose
            && ifi.managed == raw.managed && ifi.otherConfig == raw.otherConfig && ifi.unicastOnly == raw.unicastOnly
            && ifi.hopLimit == (if raw.hopLimit.Some? then raw.hopLimit.value else 64)
            && PlainChosen(raw.maxInterval, 600_000_000_000, ifi.maxInterval)
            && Ok(ifi.minInterval) == ParseMinInterval(raw.minInterval, ifi.maxInterval, c.slack)
            && PlainChosen(raw.reachableTime, 0, ifi.reachableTime)
            && PlainChosen(raw.retransmitTimer, 0, ifi.retransmitTimer)
            && Chosen(raw.defaultLifetime, 3 * ifi.maxInterval, ifi.defaultLifetime)
            && PreferenceChosen(raw.preference, ifi.preference)
  {
  }

  /** A monitoring interface takes nothing from its stanza but how much it logs. */
  lemma MonitorFields(name: string, raw: RawInterface, c: Context)
    requires raw.monitor
    ensures InterfaceOk(raw, c) <==> !raw.advertise
    ensures !raw.advertise ==>
              var ifi := InterfaceOf(name, raw, c);
              && ifi.name == name && ifi.monitor && !ifi.advertise && ifi.verbose == raw.verbose && ifi.plugins == []
  {
  }

  // Prefixes and routes

  /** ::ffff:0:0/96 */
  function Mapped(): Prefix {
    AddressLaws.Pow2Large();
    Pow2Words();
    Pow2Add(96, 32);
    var n: nat := 0xffff_0000_0000;
    Prefix(V6(n), 96)
  }

  lemma MappedPrefix(a: Addr)
    ensures Is4In6(a) <==> Contains(Mapped(), a)
  {
    Pow2Words();
    assert Block(Mapped().addr, 96) == 0xffff_0000_0000 / 0x1_0000_0000;
  }

  lemma CanonicalNumber(p: Prefix)
    requires p.addr.V6?
    ensures Canonical(p) <==> p.addr.n % Pow2(128 - p.bits) == 0
  {
    var size := Pow2(128 - p.bits);
    AddressLaws.ContainsInterval(p, p.addr);
    DivMod(p.addr.n, size);
    assert Masked(p).addr.n == p.addr.n / size * size == size * (p.addr.n / size);
  }

  /** A configured network, if there is one, is IPv6, not an IPv4 one mapped into it, and has no host bits. */
  predicate NetAcceptable(n: RawNet) {
    match n
    case NoNet => true
    case BadNet => false
    case Net(p) => p.addr.V6? && !Contains(Mapped(), p.addr) && p.addr.n % Pow2(128 - p.bits) == 0
  }

  lemma NetAccepted(n: RawNet)
    ensures NetAcceptable(n) ==> ParseIPPrefix(n) == Ok(if n.Net? then Some(n.prefix) else None)
    ensures !NetAcceptable(n) ==> ParseIPPrefix(n).Err?
  {
    if n.Net? {
      MappedPrefix(n.prefix.addr);
      if n.prefix.addr.V6? {
        CanonicalNumber(n.prefix);
      }
    }
  }

  /** Two lifetimes a prefix may have. */
  predicate LifetimesAcceptable(valid: int, preferred: int, deprecated: bool) {
    && valid != 0 && preferred != 0 && preferred <= valid
    && (deprecated ==> valid != 4_294_967_295_000_000_000 && preferred != 4_294_967_295_000_000_000)
  }

  /** Which prefix stanzas are accepted. */
  lemma PrefixAcceptedIff(raw: RawPrefix, epoch: Option<int>)
    ensures ParsePrefix(raw, epoch).Ok? <==>
            && NetAcceptable(raw.prefix)
            && (raw.prefix.Net? ==> var p := raw.prefix.prefix; p.bits != 128 && (p.addr.n == 0 ==> p.bits == 64))
            && exists v, f :: Chosen(raw.validLifetime, 86_400_000_000_000, v)
                              && Chosen(raw.preferredLifetime, 14_400_000_000_000, f)
                              && LifetimesAcceptable(v, f, raw.deprecated)
  {
    NetAccepted(raw.prefix);
    var valid, preferred := ParseDuration(raw.validLifetime, 24 * HOUR), ParseDuration(raw.preferredLifetime, 4 * HOUR);
    if valid.Ok? && preferred.Ok? {
      assert Chosen(raw.validLifetime, 86_400_000_000_000, valid.value);
      assert Chosen(raw.preferredLifetime, 14_400_000_000_000, preferred.value);
    }
  }

  /** Which route stanzas are accepted. */
  lemma RouteAcceptedIff(raw: RawRoute, epoch: Option<int>)
    ensures ParseRoute(raw, epoch).Ok? <==>
            && NetAcceptable(raw.prefix)
            && (raw.prefix.Net? ==> var p := raw.prefix.prefix; p.addr.n == 0 ==> p.bits == 0)
            && !raw.preference.BadPreference?
            && exists v :: Chosen(raw.lifetime, 86_400_000_000_000, v)
                           && v != 0 && (raw.deprecated ==> v != 4_294_967_295_000_000_000)
  {
    NetAccepted(raw.prefix);
    var lifetime := ParseDuration(raw.lifetime, 24 * HOUR);
    if lifetime.Ok? {
      assert Chosen(raw.lifetime, 86_400_000_000_000, lifetime.value);
    }
  }

  /** The overlap checks fail exactly when two of the prefixes that are not skipped share an address. */
  lemma OverlapMeansCommonAddress(ps: seq<Prefix>, skip: Option<Prefix>)
    ensures AnyOverlap(ps, skip) <==>
            exists i, j :: 0 <= i < j < |ps| && Some(ps[i]) != skip && Some(ps[j]) != skip && !Disjoint(ps[i], ps[j])
  {
    forall i, j | 0 <= i < |ps| && 0 <= j < |ps|
      ensures Overlaps(ps[i], ps[j]) <==> !Disjoint(ps[i], ps[j])
    {
      OverlapsIsCommonAddress(ps[i], ps[j]);
    }
    if i, j :|
         0 <= i < |ps| && 0 <= j < |ps| && i != j && Some(ps[i]) != skip && Some(ps[j]) != skip && Overlaps(ps[i], ps[j])
    {
      if j < i {
        assert !Disjoint(ps[j], ps[i]);
      }
    }
  }

  /** Plugins whose automatic mode is that of their prefix. */
  predicate AutoIs(ps: seq<Plugin>, wildcard: Prefix) {
    forall p :: p in ps ==> (p.PrefixPlugin? || p.RoutePlugin?) && p.auto == (p.prefix == wildcard)
  }

  lemma DisjointNets(ps: seq<Plugin>, wildcard: Prefix, skip: Option<Prefix>)
    requires AutoIs(ps, wildcard) && (skip == None || skip == Some(wildcard))
    ensures !AnyOverlap(Nets(ps), skip) <==>
            forall i, j :: 0 <= i < j < |ps| && (skip == None || (!ps[i].auto && !ps[j].auto)) ==>
                Disjoint(ps[i].prefix, ps[j].prefix)
    ensures skip == None && !AnyOverlap(Nets(ps), skip) ==>
              forall i, j :: 0 <= i < j < |ps| ==> !(ps[i].auto && ps[j].auto)
  {
    var nets := Nets(ps);
    OverlapMeansCommonAddress(nets, skip);
    assert forall i :: 0 <= i < |ps| ==> nets[i] == ps[i].prefix && ps[i] in ps;
    assert Contains(wildcard, wildcard.addr);
  }

  lemma PrefixAuto(raws: seq<RawPrefix>, c: Context)
    requires AllParse(PrefixParser(c), raws)
    ensures AutoIs(Parsed(PrefixParser(c), raws), AutoPrefix())
  {
  }

  lemma RouteAuto(raws: seq<RawRoute>, c: Context)
    requires AllParse(RouteParser(c), raws)
    ensures AutoIs(Parsed(RouteParser(c), raws), AutoRoute())
  {
  }

  /** The prefix stanzas, if each parses, are accepted exactly when no address is in two of them; then at
      most one is automatic. */
  lemma AcceptedPrefixes(raws: seq<RawPrefix>, c: Context)
    requires AllParse(PrefixParser(c), raws)
    ensures var ps := Parsed(PrefixParser(c), raws);
            && AutoIs(ps, AutoPrefix())
            && (PrefixesOk(raws, c) <==> forall i, j :: 0 <= i < j < |ps| ==> Disjoint(ps[i].prefix, ps[j].prefix))
            && (PrefixesOk(raws, c) ==> forall i, j :: 0 <= i < j < |ps| ==> !(ps[i].auto && ps[j].auto))
  {
    PrefixAuto(raws, c);
    DisjointNets(Parsed(PrefixParser(c), raws), AutoPrefix(), None);
  }

  /** The route stanzas, if each parses, are accepted exactly when no address is in two of them that are
      not the wildcard, which may be repeated. */
  lemma AcceptedRoutes(raws: seq<RawRoute>, c: Context)
    requires AllParse(RouteParser(c), raws)
    ensures var ps := Parsed(RouteParser(c), raws);
            && AutoIs(ps, AutoRoute())
            && (RoutesOk(raws, c) <==>
                forall i, j :: 0 <= i < j < |ps| && !ps[i].auto && !ps[j].auto ==> Disjoint(ps[i].prefix, ps[j].prefix))
  {
    RouteAuto(raws, c);
    DisjointNets(Parsed(RouteParser(c), raws), AutoRoute(), Some(AutoRoute()));
  }

  /** An accepted prefix is a canonical native IPv6 network other than a single address; network, flags
      and lifetimes are the configured ones, ::/64, true, 24 hours and 4 hours by default. */
  lemma AcceptedPrefix(raw: RawPrefix, epoch: Option<int>)
    requires ParsePrefix(raw, epoch).Ok?
    ensures var p := ParsePrefix(raw, epoch).value;
            && p.PrefixPlugin? && Canonical(p.prefix) && p.prefix.addr.V6? && p.prefix.bits < 128
            && p.preferredLifetime <= p.validLifetime && p.validLifetime != 0 && p.preferredLifetime != 0
            && p.epoch == epoch && p.deprecated == raw.deprecated
            && (p.auto <==> p.prefix.addr.n == 0) && (p.auto ==> p.prefix.bits == 64)
            && (p.deprecated ==> p.validLifetime != INFINITY && p.preferredLifetime != INFINITY)
    ensures var p := ParsePrefix(raw, epoch).value;
            && (raw.prefix.Net? || raw.prefix.NoNet?)
            && p.prefix == (if raw.prefix.Net? then raw.prefix.prefix else Prefix(V6(0), 64))
            && p.onLink == (if raw.onLink.Some? then raw.onLink.value else true)
            && p.autonomous == (if raw.autonomous.Some? then raw.autonomous.value else true)
            && Chosen(raw.validLifetime, 86_400_000_000_000, p.validLifetime)
            && Chosen(raw.preferredLifetime, 14_400_000_000_000, p.preferredLifetime)
  {
    PrefixRanges(raw, epoch);
    PrefixValues(raw, epoch);
  }

  lemma PrefixRanges(raw: RawPrefix, epoch: Option<int>)
    requires ParsePrefix(raw, epoch).Ok?
    ensures var p := ParsePrefix(raw, epoch).value;
            && p.PrefixPlugin? && Canonical(p.prefix) && p.prefix.addr.V6? && p.prefix.bits < 128
            && p.preferredLifetime <= p.validLifetime && p.validLifetime != 0 && p.preferredLifetime != 0
            && p.epoch == epoch && p.deprecated == raw.deprecated
            && (p.auto <==> p.prefix.addr.n == 0) && (p.auto ==> p.prefix.bits == 64)
            && (p.deprecated ==> p.validLifetime != INFINITY && p.preferredLifetime != INFINITY)
  {
    AutoCanonical();
  }

  lemma AutoCanonical()
    ensures Canonical(AutoPrefix()) && Canonical(AutoRoute())
  {
  }

  lemma PrefixValues(raw: RawPrefix, epoch: Option<int>)
    requires ParsePrefix(raw, epoch).Ok?
    ensures var p := ParsePrefix(raw, epoch).value;
            && p.PrefixPlugin?
            && (raw.prefix.Net? || raw.prefix.NoNet?)
            && p.prefix == (if raw.prefix.Net? then raw.prefix.prefix else Prefix(V6(0), 64))
            && p.onLink == (if raw.onLink.Some? then raw.onLink.value else true)
            && p.autonomous == (if raw.autonomous.Some? then raw.autonomous.value else true)
            && Chosen(raw.validLifetime, 86_400_000_000_000, p.validLifetime)
            && Chosen(raw.preferredLifetime, 14_400_000_000_000, p.preferredLifetime)
  {
    DurationsChosen(raw.validLifetime, 24 * HOUR, ParsePrefix(raw, epoch).value.validLifetime);
    DurationsChosen(raw.preferredLifetime, 4 * HOUR, ParsePrefix(raw, epoch).value.preferredLifetime);
  }

  /** An accepted route is a canonical native IPv6 network; the unspecified address stands for the
      automatic routes alone. Network, preference and lifetime are the configured ones, ::/0, medium and
      24 hours by default. */
  lemma AcceptedRoute(raw: RawRoute, epoch: Option<int>)
    requires ParseRoute(raw, epoch).Ok?
    ensures var p := ParseRoute(raw, epoch).value;
            && p.RoutePlugin? && Canonical(p.prefix) && p.prefix.addr.V6? && p.lifetime != 0
            && (p.auto <==> p.prefix.addr.n == 0) && (p.auto ==> p.prefix.bits == 0)
            && p.epoch == epoch && p.deprecated == raw.deprecated && (p.deprecated ==> p.lifetime != INFINITY)
    ensures var p := ParseRoute(raw, epoch).value;
            && (raw.prefix.Net? || raw.prefix.NoNet?)
            && p.prefix == (if raw.prefix.Net? then raw.prefix.prefix else Prefix(V6(0), 0))
            && PreferenceChosen(raw.preference, p.preference)
            && Chosen(raw.lifetime, 86_400_000_000_000, p.lifetime)
  {
    AutoCanonical();
  }

  /** The prefixes a prefix plugin advertises. */
  function Expansion(p: Plugin, addrs: seq<IP>): seq<Prefix>
    requires p.PrefixPlugin?
  {
    if p.auto then AutoPrefixes(addrs, p.prefix.bits) else [p.prefix]
  }

  /** In one advertisement of accepted prefix stanzas, two prefix options can only share an address when
      one is automatic and the other explicit: those are not compared when the file is parsed. */
  lemma AdvertisedPrefixesDisjoint(raws: seq<RawPrefix>, c: Context, addrs: seq<IP>, i: nat, j: nat, x: Prefix, y: Prefix)
    requires PrefixesOk(raws, c) && i < |raws| && j < |raws|
    requires var ps := Parsed(PrefixParser(c), raws);
             x in Expansion(ps[i], addrs) && y in Expansion(ps[j], addrs) && ps[i].auto == ps[j].auto
    requires i != j || x != y
    ensures Disjoint(x, y)
  {
    AcceptedPrefixes(raws, c);
    var ps := Parsed(PrefixParser(c), raws);
    if i == j {
      SelectionLaws.AutoPrefixesPartition(addrs, ps[i].prefix.bits, x, y);
    } else {
      assert Disjoint(ps[i].prefix, ps[j].prefix);
    }
  }

  /** An automatic and an explicit prefix option share an address exactly when the explicit prefix
      overlaps the network of a usable interface address. */
  lemma AutoMeetsExplicit(addrs: seq<IP>, bits: nat, q: Prefix)
    ensures (exists x :: x in AutoPrefixes(addrs, bits) && !Disjoint(x, q)) <==>
            exists a :: a in addrs && Usable(a) && a.address.bits == bits && Overlaps(a.address, q)
  {
    SelectionLaws.AutoPrefixesElements(addrs, bits);
    forall a | a in addrs && Usable(a) && a.address.bits == bits
      ensures Masked(a.address) in AutoPrefixes(addrs, bits)
      ensures Overlaps(a.address, q) <==> !Disjoint(Masked(a.address), q)
    {
      SelectionLaws.PrefixFor(addrs, bits, a);
      MaskedSameAddresses(a.address);
      OverlapsIsCommonAddress(a.address, q);
    }
    forall x | x in AutoPrefixes(addrs, bits)
      ensures exists a :: a in addrs && Usable(a) && a.address.bits == bits && Masked(a.address) == x
    {
      assert x in Elements(AutoPrefixes(addrs, bits));
    }
  }

  /** The PREF64 lifetime is the least multiple of eight seconds that is at least three maximum intervals
      in whole seconds, or the largest one the option can carry. */
  lemma PREF64LifetimeLeast(maxInterval: nat)
    ensures var wanted, lifetime := maxInterval / SECOND * 3 * SECOND, PREF64Lifetime(maxInterval);
            && lifetime % (8 * SECOND) == 0 && lifetime <= 65528 * SECOND
            && (wanted <= 65528 * SECOND ==> wanted <= lifetime < wanted + 8 * SECOND)
            && (wanted > 65528 * SECOND ==> lifetime == 65528 * SECOND)
  {
    var seconds: nat := maxInterval / SECOND * 3;
    var steps := if seconds < 65528 then (seconds + 7) / 8 else 8191;
    assert PREF64Lifetime(maxInterval) == steps * (8 * SECOND);
    assert steps <= 8191 && (seconds <= 65528 ==> seconds <= 8 * steps < seconds + 8);
  }

  // Countdowns

  /** At every instant the advertised preferred lifetime is at most the valid one. */
  lemma LifetimesOrdered(raw: RawPrefix, epoch: Option<int>, now: int)
    requires ParsePrefix(raw, epoch).Ok? && (raw.deprecated ==> epoch.Some?)
    ensures var (valid, preferred) := PrefixLifetimes(ParsePrefix(raw, epoch).value, now);
            preferred <= valid
  {
    AcceptedPrefix(raw, epoch);
  }

  /** A deprecated lifetime counts down: it is the time left or zero, never rises, ends at a fixed
      instant until it is zero, and then stays zero. */
  lemma CountdownLaws(epoch: int, lifetime: int, now: int, later: int)
    requires now <= later
    ensures Countdown(epoch, lifetime, now) == var left := epoch + lifetime - now; if left > 0 then left else 0
    ensures Countdown(epoch, lifetime, later) <= Countdown(epoch, lifetime, now)
    ensures Countdown(epoch, lifetime, later) > 0 ==>
        later + Countdown(epoch, lifetime, later) == now + Countdown(epoch, lifetime, now)
    ensures Countdown(epoch, lifetime, now) == 0 ==> Countdown(epoch, lifetime, later) == 0
  {
  }

  // Servers

  /** The servers of an accepted stanza do not depend on the order in which they are configured. */
  lemma ServersOrderIndependent(raw: RawRDNSS, raw': RawRDNSS, maxInterval: nat)
    requires RDNSSOf(raw, maxInterval).Some? && RDNSSOf(raw', maxInterval).Some?
    requires Explicit(raw.servers) == Explicit(raw'.servers)
    ensures RDNSSOf(raw, maxInterval).value.servers == RDNSSOf(raw', maxInterval).value.servers
  {
    SortedServers(raw.servers);
    SortedServers(raw'.servers);
    StrictUnique(RDNSSOf(raw, maxInterval).value.servers, RDNSSOf(raw', maxInterval).value.servers, AddrKey());
  }
}
