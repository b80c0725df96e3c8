/** Consistency checks between two router advertisements (corerad/verify.go). */
module Verify {
  import opened Netip
  import opened Wrappers
  import opened Ndp

  datatype Field =
    | HopLimit | ManagedConfiguration | OtherConfiguration | ReachableTime | RetransmitTimer
    | Mtu | PreferredLifetime | ValidLifetime | RouteLifetime
    | RdnssCount | RdnssLifetime | RdnssServers | DnsslCount | DnsslLifetime | DnsslDomainNames
    | Portal

  datatype Value = Flag(on: bool) | Number(n: int) | Servers(ips: seq<Addr>) | Names(names: seq<string>) | Text(s: string)

  /** The details name a prefix or route by its address and length. */
  datatype Problem = Problem(field: Field, details: Option<(Addr, nat)>, want: Value, got: Value)

  function Swap(p: Problem): Problem {
    Problem(p.field, p.details, p.got, p.want)
  }

  // Selection of options

  function Pick(kind: NdpOption -> bool, options: seq<NdpOption>): (r: seq<NdpOption>)
    ensures forall o :: o in r <==> o in options && kind(o)
  {
    if options == [] then [] else
    var n := |options| - 1;
    assert options == options[..n] + [options[n]];
    Pick(kind, options[..n]) + if kind(options[n]) then [options[n]] else []
  }

  function PickFirst(kind: NdpOption -> bool, options: seq<NdpOption>): Option<NdpOption> {
    var picked := Pick(kind, options);
    if picked == [] then None else Some(picked[0])
  }

  method PickLoop(kind: NdpOption -> bool, options: seq<NdpOption>) returns (ts: seq<NdpOption>)
    ensures ts == Pick(kind, options)
    ensures forall i :: 0 <= i < |ts| ==> kind(ts[i])
  {
    ts := [];
    for i := 0 to |options|
      invariant ts == Pick(kind, options[..i])
      invariant forall k :: 0 <= k < |ts| ==> kind(ts[k])
    {
      assert options[..i + 1][..i] == options[..i];
      if kind(options[i]) {
        ts := ts + [options[i]];
      }
    }
    assert options[..|options|] == options;
  }

  method PickFirstLoop(kind: NdpOption -> bool, options: seq<NdpOption>) returns (t: Option<NdpOption>)
    ensures t == PickFirst(kind, options)
    ensures t.Some? ==> kind(t.value)
  {
    for i := 0 to |options|
      invariant Pick(kind, options[..i]) == []
    {
      assert options[..i + 1][..i] == options[..i];
      if kind(options[i]) {
        assert Pick(kind, options[..i + 1]) == [options[i]];
        PickPrefix(kind, options, i + 1);
        return Some(options[i]);
      }
    }
    assert options[..|options|] == options;
    return None;
  }

  lemma {:induction false} PickPrefix(kind: NdpOption -> bool, options: seq<NdpOption>, i: nat)
    requires i <= |options|
    ensures Pick(kind, options[..i]) <= Pick(kind, options)
    decreases |options|
  {
    if i < |options| {
      var n := |options| - 1;
      PickPrefix(kind, options[..n], i);
      assert options[..n][..i] == options[..i];
    } else {
      assert options[..i] == options;
    }
  }

  predicate IsMTU(o: NdpOption) { o.MTU? }
  predicate IsPrefix(o: NdpOption) { o.PrefixInformation? }
  predicate IsRoute(o: NdpOption) { o.RouteInformation? }
  predicate IsRDNSS(o: NdpOption) { o.RecursiveDNSServer? }
  predicate IsDNSSL(o: NdpOption) { o.DNSSearchList? }
  predicate IsPortal(o: NdpOption) { o.CaptivePortal? }

  // What each comparison reports

  function Unless(agree: bool, p: Problem): seq<Problem> {
    if agree then [] else [p]
  }

  predicate CheckDurations(want: int, got: int) {
    want == 0 || got == 0 || want == got
  }

  function BaseProblems(a: Base, b: Base): seq<Problem> {
    Unless(a.hopLimit == b.hopLimit, Problem(HopLimit, None, Number(a.hopLimit), Number(b.hopLimit)))
    + Unless(a.managed == b.managed, Problem(ManagedConfiguration, None, Flag(a.managed), Flag(b.managed)))
    + Unless(a.otherConfig == b.otherConfig, Problem(OtherConfiguration, None, Flag(a.otherConfig), Flag(b.otherConfig)))
    + Unless(CheckDurations(a.reachableTime, b.reachableTime),
             Problem(ReachableTime, None, Number(a.reachableTime), Number(b.reachableTime)))
    + Unless(CheckDurations(a.retransmitTimer, b.retransmitTimer),
             Problem(RetransmitTimer, None, Number(a.retransmitTimer), Number(b.retransmitTimer)))
  }

  /** Compares the identities of the two option objects, as the source does. */
  function MTUProblems(a: Option<NdpOption>, b: Option<NdpOption>): seq<Problem> {
    if a.Some? && b.Some? && a.value.MTU? && b.value.MTU? then
      Unless(a.value.ref == b.value.ref, Problem(Mtu, None, Number(a.value.mtu), Number(b.value.mtu)))
    else []
  }

  function PortalProblems(a: Option<NdpOption>, b: Option<NdpOption>): seq<Problem> {
    if a.Some? && b.Some? && a.value.CaptivePortal? && b.value.CaptivePortal? then
      Unless(a.value.ref == b.value.ref, Problem(Portal, None, Text(a.value.uri), Text(b.value.uri)))
    else []
  }

  predicate SamePrefix(a: NdpOption, b: NdpOption) {
    a.PrefixInformation? && b.PrefixInformation? && a.prefix == b.prefix && a.prefixLength == b.prefixLength
  }

  function PrefixPair(a: NdpOption, b: NdpOption): seq<Problem> {
    if !SamePrefix(a, b) then [] else
    Unless(a.preferredLifetime == b.preferredLifetime,
           Problem(PreferredLifetime, Some((a.prefix, a.prefixLength)), Number(a.preferredLifetime),
               Number(b.preferredLifetime)))
    + Unless(a.validLifetime == b.validLifetime,
             Problem(ValidLifetime, Some((a.prefix, a.prefixLength)), Number(a.validLifetime), Number(b.validLifetime)))
  }

  predicate SameRoute(a: NdpOption, b: NdpOption) {
    a.RouteInformation? && b.RouteInformation? && a.route == b.route && a.routeLength == b.routeLength
  }

  function RoutePair(a: NdpOption, b: NdpOption): seq<Problem> {
    if !SameRoute(a, b) then [] else
    Unless(a.preference != b.preference || a.routeLifetime == b.routeLifetime,
           Problem(RouteLifetime, Some((a.route, a.routeLength)), Number(a.routeLifetime), Number(b.routeLifetime)))
  }

  function RDNSSPair(a: NdpOption, b: NdpOption): seq<Problem> {
    if !a.RecursiveDNSServer? || !b.RecursiveDNSServer? then [] else
    Unless(a.lifetime == b.lifetime, Problem(RdnssLifetime, None, Number(a.lifetime), Number(b.lifetime)))
    + Unless(a.servers == b.servers, Problem(RdnssServers, None, Servers(a.servers), Servers(b.servers)))
  }

  function DNSSLPair(a: NdpOption, b: NdpOption): seq<Problem> {
    if !a.DNSSearchList? || !b.DNSSearchList? then [] else
    Unless(a.lifetime == b.lifetime, Problem(DnsslLifetime, None, Number(a.lifetime), Number(b.lifetime)))
    + Unless(a.domainNames == b.domainNames, Problem(DnsslDomainNames, None, Names(a.domainNames), Names(b.domainNames)))
  }

  type Pairing = (NdpOption, NdpOption) -> seq<Problem>

  /** One turn of the outer loop: a against every option of bs. */
  function Row(f: Pairing, a: NdpOption, bs: seq<NdpOption>): seq<Problem> {
    if bs == [] then [] else Row(f, a, bs[..|bs| - 1]) + f(a, bs[|bs| - 1])
  }

  /** The nested loops. */
  function Cross(f: Pairing, xs: seq<NdpOption>, ys: seq<NdpOption>): seq<Problem> {
    if xs == [] then [] else Cross(f, xs[..|xs| - 1], ys) + Row(f, xs[|xs| - 1], ys)
  }

  /** The loop over corresponding options. */
  function Each(f: Pairing, xs: seq<NdpOption>, ys: seq<NdpOption>): seq<Problem>
    requires |xs| == |ys|
  {
    if xs == [] then [] else Each(f, xs[..|xs| - 1], ys[..|ys| - 1]) + f(xs[|xs| - 1], ys[|ys| - 1])
  }

  /** Options that must correspond one to one when both sides have some. */
  function Lists(f: Pairing, count: Field, xs: seq<NdpOption>, ys: seq<NdpOption>): seq<Problem> {
    if xs == [] || ys == [] then []
    else if |xs| != |ys| then [Problem(count, None, Number(|xs|), Number(|ys|))]
    else Each(f, xs, ys)
  }

  function RAProblems(a: RA, b: RA): seq<Problem> {
    BaseProblems(a.base, b.base)
    + MTUProblems(PickFirst(IsMTU, a.options), PickFirst(IsMTU, b.options))
    + Cross(PrefixPair, Pick(IsPrefix, a.options), Pick(IsPrefix, b.options))
    + Cross(RoutePair, Pick(IsRoute, a.options), Pick(IsRoute, b.options))
    + Lists(RDNSSPair, RdnssCount, Pick(IsRDNSS, a.options), Pick(IsRDNSS, b.options))
    + Lists(DNSSLPair, DnsslCount, Pick(IsDNSSL, a.options), Pick(IsDNSSL, b.options))
    + PortalProblems(PickFirst(IsPortal, a.options), PickFirst(IsPortal, b.options))
  }

  // The checks of the source, with their loops

  method CheckRAs(a: Base, b: Base) returns (ps: seq<Problem>)
    ensures ps == BaseProblems(a, b)
  {
    ps := [];
    ps := Check(ps, a.hopLimit == b.hopLimit, HopLimit, Number(a.hopLimit), Number(b.hopLimit));
    ps := Check(ps, a.managed == b.managed, ManagedConfiguration, Flag(a.managed), Flag(b.managed));
    ps := Check(ps, a.otherConfig == b.otherConfig, OtherConfiguration, Flag(a.otherConfig), Flag(b.otherConfig));
    ps := Check(ps, CheckDurations(a.reachableTime, b.reachableTime), ReachableTime, Number(a.reachableTime),
        Number(b.reachableTime));
    ps := Check(ps, CheckDurations(a.retransmitTimer, b.retransmitTimer), RetransmitTimer,
                Number(a.retransmitTimer), Number(b.retransmitTimer));
  }

  /** Pushes a problem unless the two sides agree. */
  method Check(ps: seq<Problem>, agree: bool, field: Field, want: Value, got: Value) returns (ps': seq<Problem>)
    ensures ps' == ps + Unless(agree, Problem(field, None, want, got))
  {
    ps' := ps;
    if !agree {
      ps' := ps' + [Problem(field, None, want, got)];
    }
  }

  method CheckMTUs(want: seq<NdpOption>, got: seq<NdpOption>) returns (ps: seq<Problem>)
    ensures ps == MTUProblems(PickFirst(IsMTU, want), PickFirst(IsMTU, got))
  {
    var a := PickFirstLoop(IsMTU, want);
    var b := PickFirstLoop(IsMTU, got);
    if a.None? || b.None? || a.value.ref == b.value.ref {
      return [];
    }
    return [Problem(Mtu, None, Number(a.value.mtu), Number(b.value.mtu))];
  }

  method CheckCaptivePortal(want: seq<NdpOption>, got: seq<NdpOption>) returns (ps: seq<Problem>)
    ensures ps == PortalProblems(PickFirst(IsPortal, want), PickFirst(IsPortal, got))
  {
    var a := PickFirstLoop(IsPortal, want);
    var b := PickFirstLoop(IsPortal, got);
    if a.None? || b.None? || a.value.ref == b.value.ref {
      return [];
    }
    return [Problem(Portal, None, Text(a.value.uri), Text(b.value.uri))];
  }

  /** The body of the nested prefix loop. */
  method ComparePrefixes(ps: seq<Problem>, a: NdpOption, b: NdpOption) returns (ps': seq<Problem>)
    requires a.PrefixInformation? && b.PrefixInformation?
    ensures ps' == ps + PrefixPair(a, b)
  {
    ps' := ps;
    if a.prefix != b.prefix || a.prefixLength != b.prefixLength {
      return;
    }
    if a.preferredLifetime != b.preferredLifetime {
      ps' := ps' + [Problem(PreferredLifetime, Some((a.prefix, a.prefixLength)), Number(a.preferredLifetime),
          Number(b.preferredLifetime))];
    }
    if a.validLifetime != b.validLifetime {
      ps' := ps' + [Problem(ValidLifetime, Some((a.prefix, a.prefixLength)), Number(a.validLifetime),
          Number(b.validLifetime))];
    }
  }

  method CheckPrefixes(want: seq<NdpOption>, got: seq<NdpOption>) returns (ps: seq<Problem>)
    ensures ps == Cross(PrefixPair, Pick(IsPrefix, want), Pick(IsPrefix, got))
  {
    var xs := PickLoop(IsPrefix, want);
    var ys := PickLoop(IsPrefix, got);
    if xs == [] || ys == [] {
      CrossEmpty(PrefixPair, xs, ys);
      return [];
    }
    ps := [];
    for i := 0 to |xs|
      invariant ps == Cross(PrefixPair, xs[..i], ys)
    {
      ghost var rows := ps;
      for j := 0 to |ys|
        invariant ps == rows + Row(PrefixPair, xs[i], ys[..j])
      {
        ps := ComparePrefixes(ps, xs[i], ys[j]);
        RowStep(PrefixPair, rows, xs[i], ys, j);
      }
      CrossStep(PrefixPair, xs, i, ys);
      assert ys[..|ys|] == ys;
    }
    assert xs[..|xs|] == xs;
  }

  /** The body of the nested route loop. */
  method CompareRoutes(ps: seq<Problem>, a: NdpOption, b: NdpOption) returns (ps': seq<Problem>)
    requires a.RouteInformation? && b.RouteInformation?
    ensures ps' == ps + RoutePair(a, b)
  {
    ps' := ps;
    if a.route != b.route || a.routeLength != b.routeLength {
      return;
    }
    if a.preference == b.preference && a.routeLifetime != b.routeLifetime {
      ps' := ps' + [Problem(RouteLifetime, Some((a.route, a.routeLength)), Number(a.routeLifetime),
          Number(b.routeLifetime))];
    }
  }

  method CheckRoutes(want: seq<NdpOption>, got: seq<NdpOption>) returns (ps: seq<Problem>)
    ensures ps == Cross(RoutePair, Pick(IsRoute, want), Pick(IsRoute, got))
  {
    var xs := PickLoop(IsRoute, want);
    var ys := PickLoop(IsRoute, got);
    if xs == [] || ys == [] {
      CrossEmpty(RoutePair, xs, ys);
      return [];
    }
    ps := [];
    for i := 0 to |xs|
      invariant ps == Cross(RoutePair, xs[..i], ys)
    {
      ghost var rows := ps;
      for j := 0 to |ys|
        invariant ps == rows + Row(RoutePair, xs[i], ys[..j])
      {
        ps := CompareRoutes(ps, xs[i], ys[j]);
        RowStep(RoutePair, rows, xs[i], ys, j);
      }
      CrossStep(RoutePair, xs, i, ys);
      assert ys[..|ys|] == ys;
    }
    assert xs[..|xs|] == xs;
  }

  /** The flag loop over two lists of one length. */
  method EqualLists<T(==)>(xs: seq<T>, ys: seq<T>) returns (equal: bool)
    requires |xs| == |ys|
    ensures equal <==> xs == ys
  {
    equal := true;
    for j := 0 to |xs|
      invariant equal && xs[..j] == ys[..j]
    {
      if xs[j] != ys[j] {
        equal := false;
        break;
      }
    }
  }

  /** The body of the DNS server loop. */
  method CompareRDNSS(ps: seq<Problem>, a: NdpOption, b: NdpOption) returns (ps': seq<Problem>)
    requires a.RecursiveDNSServer? && b.RecursiveDNSServer?
    ensures ps' == ps + RDNSSPair(a, b)
  {
    ps' := ps;
    if a.lifetime != b.lifetime {
      ps' := ps' + [Problem(RdnssLifetime, None, Number(a.lifetime), Number(b.lifetime))];
    }
    if |a.servers| != |b.servers| {
      ps' := ps' + [Problem(RdnssServers, None, Servers(a.servers), Servers(b.servers))];
      return;
    }
    var equal := EqualLists(a.servers, b.servers);
    if !equal {
      ps' := ps' + [Problem(RdnssServers, None, Servers(a.servers), Servers(b.servers))];
    }
  }

  method CheckRDNSS(want: seq<NdpOption>, got: seq<NdpOption>) returns (ps: seq<Problem>)
    ensures ps == Lists(RDNSSPair, RdnssCount, Pick(IsRDNSS, want), Pick(IsRDNSS, got))
  {
    var xs := PickLoop(IsRDNSS, want);
    var ys := PickLoop(IsRDNSS, got);
    if xs == [] || ys == [] {
      return [];
    }
    if |xs| != |ys| {
      return [Problem(RdnssCount, None, Number(|xs|), Number(|ys|))];
    }
    ps := [];
    for i := 0 to |xs|
      invariant ps == Each(RDNSSPair, xs[..i], ys[..i])
    {
      ps := CompareRDNSS(ps, xs[i], ys[i]);
      EachStep(RDNSSPair, xs, ys, i);
    }
    assert xs[..|xs|] == xs && ys[..|ys|] == ys;
  }

  /** The body of the search list loop. */
  method CompareDNSSL(ps: seq<Problem>, a: NdpOption, b: NdpOption) returns (ps': seq<Problem>)
    requires a.DNSSearchList? && b.DNSSearchList?
    ensures ps' == ps + DNSSLPair(a, b)
  {
    ps' := ps;
    if a.lifetime != b.lifetime {
      ps' := ps' + [Problem(DnsslLifetime, None, Number(a.lifetime), Number(b.lifetime))];
    }
    if |a.domainNames| != |b.domainNames| {
      ps' := ps' + [Problem(DnsslDomainNames, None, Names(a.domainNames), Names(b.domainNames))];
      return;
    }
    var equal := EqualLists(a.domainNames, b.domainNames);
    if !equal {
      ps' := ps' + [Problem(DnsslDomainNames, None, Names(a.domainNames), Names(b.domainNames))];
    }
  }

  method CheckDNSSL(want: seq<NdpOption>, got: seq<NdpOption>) returns (ps: seq<Problem>)
    ensures ps == Lists(DNSSLPair, DnsslCount, Pick(IsDNSSL, want), Pick(IsDNSSL, got))
  {
    var xs := PickLoop(IsDNSSL, want);
    var ys := PickLoop(IsDNSSL, got);
    if xs == [] || ys == [] {
      return [];
    }
    if |xs| != |ys| {
      return [Problem(DnsslCount, None, Number(|xs|), Number(|ys|))];
    }
    ps := [];
    for i := 0 to |xs|
      invariant ps == Each(DNSSLPair, xs[..i], ys[..i])
    {
      ps := CompareDNSSL(ps, xs[i], ys[i]);
      EachStep(DNSSLPair, xs, ys, i);
    }
    assert xs[..|xs|] == xs && ys[..|ys|] == ys;
  }

  method VerifyRAs(a: RA, b: RA) returns (ps: seq<Problem>)
    ensures ps == RAProblems(a, b)
  {
    ps := CheckRAs(a.base, b.base);
    var more := CheckMTUs(a.options, b.options);
    ps := ps + more;
    more := CheckPrefixes(a.options, b.options);
    ps := ps + more;
    more := CheckRoutes(a.options, b.options);
    ps := ps + more;
    more := CheckRDNSS(a.options, b.options);
    ps := ps + more;
    more := CheckDNSSL(a.options, b.options);
    ps := ps + more;
    more := CheckCaptivePortal(a.options, b.options);
    ps := ps + more;
  }

  lemma {:induction false} CrossEmpty(f: Pairing, xs: seq<NdpOption>, ys: seq<NdpOption>)
    ensures xs == [] || ys == [] ==> Cross(f, xs, ys) == []
  {
    if xs != [] {
      CrossEmpty(f, xs[..|xs| - 1], ys);
    }
  }

  lemma RowStep(f: Pairing, rows: seq<Problem>, a: NdpOption, ys: seq<NdpOption>, j: nat)
    requires j < |ys|
    ensures rows + Row(f, a, ys[..j + 1]) == rows + Row(f, a, ys[..j]) + f(a, ys[j])
  {
    assert ys[..j + 1][..j] == ys[..j];
  }

  lemma CrossStep(f: Pairing, xs: seq<NdpOption>, i: nat, ys: seq<NdpOption>)
    requires i < |xs|
    ensures Cross(f, xs[..i + 1], ys) == Cross(f, xs[..i], ys) + Row(f, xs[i], ys)
  {
    assert xs[..i + 1][..i] == xs[..i];
  }

  lemma EachStep(f: Pairing, xs: seq<NdpOption>, ys: seq<NdpOption>, i: nat)
    requires i < |xs| == |ys|
    ensures Each(f, xs[..i + 1], ys[..i + 1]) == Each(f, xs[..i], ys[..i]) + f(xs[i], ys[i])
  {
    assert xs[..i + 1][..i] == xs[..i] && ys[..i + 1][..i] == ys[..i];
  }
}
