/** What VerifyRAs reports, field by field: the exact problems, with what was wanted and what was got. */
module Reports {
  import opened Netip
  import opened Wrappers
  import opened Ndp
  import opened Verify
  import opened VerifyLaws

  type Details = Option<(Addr, nat)>

  /** A number that differs. */
  predicate Differs(p: Problem, field: Field, details: Details, want: int, got: int) {
    want != got && p == Problem(field, details, Number(want), Number(got))
  }

  predicate FlagDiffers(p: Problem, field: Field, want: bool, got: bool) {
    want != got && p == Problem(field, None, Flag(want), Flag(got))
  }

  /** A time that both sides specify and that differs. */
  predicate TimeDiffers(p: Problem, field: Field, want: int, got: int) {
    want != 0 && got != 0 && Differs(p, field, None, want, got)
  }

  predicate BaseReport(p: Problem, a: Base, b: Base) {
    match p.field
    case HopLimit => Differs(p, HopLimit, None, a.hopLimit, b.hopLimit)
    case ManagedConfiguration => FlagDiffers(p, ManagedConfiguration, a.managed, b.managed)
    case OtherConfiguration => FlagDiffers(p, OtherConfiguration, a.otherConfig, b.otherConfig)
    case ReachableTime => TimeDiffers(p, ReachableTime, a.reachableTime, b.reachableTime)
    case RetransmitTimer => TimeDiffers(p, RetransmitTimer, a.retransmitTimer, b.retransmitTimer)
    case _ => false
  }

  /** Options of one prefix that differ in a lifetime. */
  predicate PrefixReport(p: Problem, x: NdpOption, y: NdpOption) {
    && x.PrefixInformation? && y.PrefixInformation? && x.prefix == y.prefix && x.prefixLength == y.prefixLength
    && var details := Some((x.prefix, x.prefixLength));
    (|| Differs(p, PreferredLifetime, details, x.preferredLifetime, y.preferredLifetime)
     || Differs(p, ValidLifetime, details, x.validLifetime, y.validLifetime))
  }

  /** Options of one route and preference that differ in the lifetime. */
  predicate RouteReport(p: Problem, x: NdpOption, y: NdpOption) {
    && x.RouteInformation? && y.RouteInformation? && x.route == y.route && x.routeLength == y.routeLength
    && x.preference == y.preference
    && Differs(p, RouteLifetime, Some((x.route, x.routeLength)), x.routeLifetime, y.routeLifetime)
  }

  predicate ServersReport(p: Problem, x: NdpOption, y: NdpOption) {
    && x.RecursiveDNSServer? && y.RecursiveDNSServer?
    && (|| Differs(p, RdnssLifetime, None, x.lifetime, y.lifetime)
        || (x.servers != y.servers && p == Problem(RdnssServers, None, Servers(x.servers), Servers(y.servers))))
  }

  predicate NamesReport(p: Problem, x: NdpOption, y: NdpOption) {
    && x.DNSSearchList? && y.DNSSearchList?
    && (|| Differs(p, DnsslLifetime, None, x.lifetime, y.lifetime)
        || (x.domainNames != y.domainNames
            && p == Problem(DnsslDomainNames, None, Names(x.domainNames), Names(y.domainNames))))
  }

  /** The i-th MTU, prefix, ... of a list of options is the i-th one picked; the first ones are compared. */
  predicate FirstReport(p: Problem, x: Option<NdpOption>, y: Option<NdpOption>) {
    && x.Some? && y.Some?
    && match (x.value, y.value)
       case (MTU(r, m), MTU(r', m')) => r != r' && p == Problem(Mtu, None, Number(m), Number(m'))
       case (CaptivePortal(r, u), CaptivePortal(r', u')) => r != r' && p == Problem(Portal, None, Text(u), Text(u'))
       case _ => false
  }

  /** Lists compared place by place, if they have the same length. */
  predicate ListReport(report: (Problem, NdpOption, NdpOption) -> bool, count: Field, p: Problem,
                       xs: seq<NdpOption>, ys: seq<NdpOption>) {
    && xs != [] && ys != []
    && if |xs| != |ys| then p == Problem(count, None, Number(|xs|), Number(|ys|))
       else exists i :: 0 <= i < |xs| && report(p, xs[i], ys[i])
  }

  lemma BaseReported(p: Problem, a: Base, b: Base)
    ensures p in BaseProblems(a, b) <==> BaseReport(p, a, b)
  {
    var p1 := Unless(a.hopLimit == b.hopLimit, Problem(HopLimit, None, Number(a.hopLimit), Number(b.hopLimit)));
    var p2 := Unless(a.managed == b.managed, Problem(ManagedConfiguration, None, Flag(a.managed), Flag(b.managed)));
    var p3 := Unless(a.otherConfig == b.otherConfig,
                     Problem(OtherConfiguration, None, Flag(a.otherConfig), Flag(b.otherConfig)));
    var p4 := Unless(CheckDurations(a.reachableTime, b.reachableTime),
                     Problem(ReachableTime, None, Number(a.reachableTime), Number(b.reachableTime)));
    var p5 := Unless(CheckDurations(a.retransmitTimer, b.retransmitTimer),
                     Problem(RetransmitTimer, None, Number(a.retransmitTimer), Number(b.retransmitTimer)));
    assert p in BaseProblems(a, b) <==> p in p1 || p in p2 || p in p3 || p in p4 || p in p5;
  }

  lemma PairsReported(p: Problem, x: NdpOption, y: NdpOption)
    ensures p in PrefixPair(x, y) <==> PrefixReport(p, x, y)
    ensures p in RoutePair(x, y) <==> RouteReport(p, x, y)
    ensures p in RDNSSPair(x, y) <==> ServersReport(p, x, y)
    ensures p in DNSSLPair(x, y) <==> NamesReport(p, x, y)
  {
  }

  lemma FirstReported(p: Problem, x: Option<NdpOption>, y: Option<NdpOption>)
    ensures p in MTUProblems(x, y) || p in PortalProblems(x, y) <==> FirstReport(p, x, y)
    ensures p in MTUProblems(x, y) ==> p.field.Mtu?
    ensures p in PortalProblems(x, y) ==> p.field.Portal?
  {
  }

  lemma {:induction false} EachReports(f: Pairing, xs: seq<NdpOption>, ys: seq<NdpOption>, p: Problem)
    requires |xs| == |ys|
    ensures p in Each(f, xs, ys) <==> exists i :: 0 <= i < |xs| && p in f(xs[i], ys[i])
  {
    if xs != [] {
      var n := |xs| - 1;
      EachReports(f, xs[..n], ys[..n], p);
      assert p in Each(f, xs, ys) <==> p in Each(f, xs[..n], ys[..n]) || p in f(xs[n], ys[n]);
      if i :| 0 <= i < |xs| && p in f(xs[i], ys[i]) {
        assert i < n ==> xs[..n][i] == xs[i] && ys[..n][i] == ys[i];
      }
    }
  }

  lemma ListsReport(f: Pairing, report: (Problem, NdpOption, NdpOption) -> bool, count: Field, p: Problem,
                    xs: seq<NdpOption>, ys: seq<NdpOption>)
    requires forall x, y :: p in f(x, y) <==> report(p, x, y)
    ensures p in Lists(f, count, xs, ys) <==> ListReport(report, count, p, xs, ys)
  {
    if |xs| == |ys| {
      EachReports(f, xs, ys, p);
    }
  }

  /** Everything that is reported, and nothing else. */
  ghost predicate Report(p: Problem, a: RA, b: RA) {
    || BaseReport(p, a.base, b.base)
    || FirstReport(p, PickFirst(IsMTU, a.options), PickFirst(IsMTU, b.options))
    || (exists x, y :: x in a.options && y in b.options && PrefixReport(p, x, y))
    || (exists x, y :: x in a.options && y in b.options && RouteReport(p, x, y))
    || ListReport(ServersReport, RdnssCount, p, Pick(IsRDNSS, a.options), Pick(IsRDNSS, b.options))
    || ListReport(NamesReport, DnsslCount, p, Pick(IsDNSSL, a.options), Pick(IsDNSSL, b.options))
    || FirstReport(p, PickFirst(IsPortal, a.options), PickFirst(IsPortal, b.options))
  }

  lemma CrossPrefixes(p: Problem, a: RA, b: RA)
    ensures p in Cross(PrefixPair, Pick(IsPrefix, a.options), Pick(IsPrefix, b.options)) <==>
            exists x, y :: x in a.options && y in b.options && PrefixReport(p, x, y)
  {
    CrossReports(PrefixPair, Pick(IsPrefix, a.options), Pick(IsPrefix, b.options), p);
    forall x, y
      ensures p in PrefixPair(x, y) <==> PrefixReport(p, x, y)
    {
      PairsReported(p, x, y);
    }
  }

  lemma CrossRoutes(p: Problem, a: RA, b: RA)
    ensures p in Cross(RoutePair, Pick(IsRoute, a.options), Pick(IsRoute, b.options)) <==>
            exists x, y :: x in a.options && y in b.options && RouteReport(p, x, y)
  {
    CrossReports(RoutePair, Pick(IsRoute, a.options), Pick(IsRoute, b.options), p);
    forall x, y
      ensures p in RoutePair(x, y) <==> RouteReport(p, x, y)
    {
      PairsReported(p, x, y);
    }
  }

  lemma ListsReported(p: Problem, a: RA, b: RA)
    ensures p in Lists(RDNSSPair, RdnssCount, Pick(IsRDNSS, a.options), Pick(IsRDNSS, b.options)) <==>
            ListReport(ServersReport, RdnssCount, p, Pick(IsRDNSS, a.options), Pick(IsRDNSS, b.options))
    ensures p in Lists(DNSSLPair, DnsslCount, Pick(IsDNSSL, a.options), Pick(IsDNSSL, b.options)) <==>
            ListReport(NamesReport, DnsslCount, p, Pick(IsDNSSL, a.options), Pick(IsDNSSL, b.options))
  {
    forall x, y
      ensures p in RDNSSPair(x, y) <==> ServersReport(p, x, y)
      ensures p in DNSSLPair(x, y) <==> NamesReport(p, x, y)
    {
      PairsReported(p, x, y);
    }
    ListsReport(RDNSSPair, ServersReport, RdnssCount, p, Pick(IsRDNSS, a.options), Pick(IsRDNSS, b.options));
    ListsReport(DNSSLPair, NamesReport, DnsslCount, p, Pick(IsDNSSL, a.options), Pick(IsDNSSL, b.options));
  }

  lemma FirstsReported(p: Problem, a: RA, b: RA)
    ensures p in MTUProblems(PickFirst(IsMTU, a.options), PickFirst(IsMTU, b.options)) <==>
            FirstReport(p, PickFirst(IsMTU, a.options), PickFirst(IsMTU, b.options))
    ensures p in PortalProblems(PickFirst(IsPortal, a.options), PickFirst(IsPortal, b.options)) <==>
            FirstReport(p, PickFirst(IsPortal, a.options), PickFirst(IsPortal, b.options))
  {
    PickFirstMember(IsMTU, a);
    PickFirstMember(IsMTU, b);
    PickFirstMember(IsPortal, a);
    PickFirstMember(IsPortal, b);
    FirstReported(p, PickFirst(IsMTU, a.options), PickFirst(IsMTU, b.options));
    FirstReported(p, PickFirst(IsPortal, a.options), PickFirst(IsPortal, b.options));
  }

  lemma InWhole(p: Problem, s: Seven)
    ensures p in Whole(s) <==> p in s.base || p in s.mtu || p in s.prefixes || p in s.routes || p in s.rdnss
                               || p in s.dnssl || p in s.portal
  {
  }

  /** A problem is reported exactly when its field differs as it says. */
  lemma Reported(p: Problem, a: RA, b: RA)
    ensures p in RAProblems(a, b) <==> Report(p, a, b)
  {
    assert RAProblems(a, b) == Whole(Parts(a, b));
    InWhole(p, Parts(a, b));
    BaseReported(p, a.base, b.base);
    FirstsReported(p, a, b);
    CrossPrefixes(p, a, b);
    CrossRoutes(p, a, b);
    ListsReported(p, a, b);
  }
}
