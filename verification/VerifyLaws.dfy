/** What VerifyRAs reports: symmetry, and soundness and completeness against a declarative predicate. */
module VerifyLaws {
  import opened Wrappers
  import opened Ndp
  import opened Verify

  // Symmetry

  function SwapAll(ps: seq<Problem>): (r: seq<Problem>)
    ensures |r| == |ps|
  {
    seq(|ps|, i requires 0 <= i < |ps| => Swap(ps[i]))
  }

  /** Exchanging the arguments of f exchanges want and got in what it reports. */
  ghost predicate Mirrored(f: Pairing) {
    forall a, b :: f(b, a) == SwapAll(f(a, b))
  }

  lemma SwapConcat(ps: seq<Problem>, qs: seq<Problem>)
    ensures SwapAll(ps + qs) == SwapAll(ps) + SwapAll(qs)
  {
  }

  /** The column of b: every option of xs against b. */
  function Column(f: Pairing, xs: seq<NdpOption>, b: NdpOption): seq<Problem> {
    if xs == [] then [] else Column(f, xs[..|xs| - 1], b) + f(xs[|xs| - 1], b)
  }

  /** Interchange of the nested loops: the last column can be taken out of the rows. */
  lemma {:induction false} CrossByColumns(f: Pairing, xs: seq<NdpOption>, ys: seq<NdpOption>)
    requires ys != []
    ensures multiset(Cross(f, xs, ys)) == multiset(Cross(f, xs, ys[..|ys| - 1])) + multiset(Column(f, xs, ys[|ys| - 1]))
  {
    if xs != [] {
      CrossByColumns(f, xs[..|xs| - 1], ys);
    }
  }

  lemma {:induction false} RowMirrorsColumn(f: Pairing, a: NdpOption, ys: seq<NdpOption>)
    requires Mirrored(f)
    ensures SwapAll(Row(f, a, ys)) == Column(f, ys, a)
  {
    if ys != [] {
      var n := |ys| - 1;
      RowMirrorsColumn(f, a, ys[..n]);
      SwapConcat(Row(f, a, ys[..n]), f(a, ys[n]));
    }
  }

  lemma {:induction false} CrossMirrored(f: Pairing, xs: seq<NdpOption>, ys: seq<NdpOption>)
    requires Mirrored(f)
    ensures multiset(Cross(f, ys, xs)) == multiset(SwapAll(Cross(f, xs, ys)))
  {
    if xs == [] {
      CrossEmpty(f, ys, xs);
    } else {
      var n := |xs| - 1;
      CrossByColumns(f, ys, xs);
      CrossMirrored(f, xs[..n], ys);
      RowMirrorsColumn(f, xs[n], ys);
      SwapConcat(Cross(f, xs[..n], ys), Row(f, xs[n], ys));
    }
  }

  lemma {:induction false} EachMirrored(f: Pairing, xs: seq<NdpOption>, ys: seq<NdpOption>)
    requires |xs| == |ys| && Mirrored(f)
    ensures Each(f, ys, xs) == SwapAll(Each(f, xs, ys))
  {
    if xs != [] {
      var n := |xs| - 1;
      EachMirrored(f, xs[..n], ys[..n]);
      SwapConcat(Each(f, xs[..n], ys[..n]), f(xs[n], ys[n]));
    }
  }

  lemma ListsMirrored(f: Pairing, count: Field, xs: seq<NdpOption>, ys: seq<NdpOption>)
    requires Mirrored(f)
    ensures Lists(f, count, ys, xs) == SwapAll(Lists(f, count, xs, ys))
  {
    if |xs| == |ys| {
      EachMirrored(f, xs, ys);
    }
  }

  lemma PairsMirrored()
    ensures Mirrored(PrefixPair) && Mirrored(RoutePair) && Mirrored(RDNSSPair) && Mirrored(DNSSLPair)
  {
  }

  lemma UnlessMirrored(agree: bool, agree': bool, p: Problem)
    requires agree == agree'
    ensures Unless(agree', Swap(p)) == SwapAll(Unless(agree, p))
  {
  }

  lemma BaseMirrored(a: Base, b: Base)
    ensures BaseProblems(b, a) == SwapAll(BaseProblems(a, b))
  {
    var p1 := Unless(a.hopLimit == b.hopLimit, Problem(HopLimit, None, Number(a.hopLimit), Number(b.hopLimit)));
    var p2 := Unless(a.managed == b.managed, Problem(ManagedConfiguration, None, Flag(a.managed), Flag(b.managed)));
    var p3 := Unless(a.otherConfig == b.otherConfig,
                     Problem(OtherConfiguration, None, Flag(a.otherConfig), Flag(b.otherConfig)));
    var p4 := Unless(CheckDurations(a.reachableTime, b.reachableTime),
                     Problem(ReachableTime, None, Number(a.reachableTime), Number(b.reachableTime)));
    var p5 := Unless(CheckDurations(a.retransmitTimer, b.retransmitTimer),
                     Problem(RetransmitTimer, None, Number(a.retransmitTimer), Number(b.retransmitTimer)));
    SwapConcat(p1, p2);
    SwapConcat(p1 + p2, p3);
    SwapConcat(p1 + p2 + p3, p4);
    SwapConcat(p1 + p2 + p3 + p4, p5);
    UnlessMirrored(a.hopLimit == b.hopLimit, b.hopLimit == a.hopLimit,
                   Problem(HopLimit, None, Number(a.hopLimit), Number(b.hopLimit)));
    UnlessMirrored(a.managed == b.managed, b.managed == a.managed,
                   Problem(ManagedConfiguration, None, Flag(a.managed), Flag(b.managed)));
    UnlessMirrored(a.otherConfig == b.otherConfig, b.otherConfig == a.otherConfig,
                   Problem(OtherConfiguration, None, Flag(a.otherConfig), Flag(b.otherConfig)));
    UnlessMirrored(CheckDurations(a.reachableTime, b.reachableTime), CheckDurations(b.reachableTime, a.reachableTime),
                   Problem(ReachableTime, None, Number(a.reachableTime), Number(b.reachableTime)));
    UnlessMirrored(CheckDurations(a.retransmitTimer, b.retransmitTimer),
                   CheckDurations(b.retransmitTimer, a.retransmitTimer),
                   Problem(RetransmitTimer, None, Number(a.retransmitTimer), Number(b.retransmitTimer)));
  }

  /** q is p with want and got exchanged, in any order. */
  ghost predicate Exchanged(p: seq<Problem>, q: seq<Problem>) {
    multiset(q) == multiset(SwapAll(p))
  }

  lemma ExchangedConcat(p: seq<Problem>, q: seq<Problem>, p': seq<Problem>, q': seq<Problem>)
    requires Exchanged(p, q) && Exchanged(p', q')
    ensures Exchanged(p + p', q + q')
  {
    SwapConcat(p, p');
    assert multiset(q + q') == multiset(q) + multiset(q');
    assert multiset(SwapAll(p) + SwapAll(p')) == multiset(SwapAll(p)) + multiset(SwapAll(p'));
  }

  lemma MTUMirrored(a: Option<NdpOption>, b: Option<NdpOption>)
    ensures MTUProblems(b, a) == SwapAll(MTUProblems(a, b))
  {
  }

  lemma PortalMirrored(a: Option<NdpOption>, b: Option<NdpOption>)
    ensures PortalProblems(b, a) == SwapAll(PortalProblems(a, b))
  {
  }

  /** Exchanging the advertisements permutes the problems, with want and got exchanged in each. */
  lemma RAProblemsMirrored(a: RA, b: RA)
    ensures multiset(RAProblems(b, a)) == multiset(SwapAll(RAProblems(a, b)))
  {
    var x, y := a.options, b.options;
    PairsMirrored();
    BaseMirrored(a.base, b.base);
    MTUMirrored(PickFirst(IsMTU, x), PickFirst(IsMTU, y));
    CrossMirrored(PrefixPair, Pick(IsPrefix, x), Pick(IsPrefix, y));
    CrossMirrored(RoutePair, Pick(IsRoute, x), Pick(IsRoute, y));
    ListsMirrored(RDNSSPair, RdnssCount, Pick(IsRDNSS, x), Pick(IsRDNSS, y));
    ListsMirrored(DNSSLPair, DnsslCount, Pick(IsDNSSL, x), Pick(IsDNSSL, y));
    PortalMirrored(PickFirst(IsPortal, x), PickFirst(IsPortal, y));
    SevenExchanged(Parts(a, b), Parts(b, a));
    assert RAProblems(a, b) == Whole(Parts(a, b)) && RAProblems(b, a) == Whole(Parts(b, a));
  }

  /** What each check reports. */
  datatype Seven = Seven(base: seq<Problem>, mtu: seq<Problem>, prefixes: seq<Problem>, routes: seq<Problem>,
                         rdnss: seq<Problem>, dnssl: seq<Problem>, portal: seq<Problem>)

  function Parts(a: RA, b: RA): Seven {
    Seven(BaseProblems(a.base, b.base),
          MTUProblems(PickFirst(IsMTU, a.options), PickFirst(IsMTU, b.options)),
          Cross(PrefixPair, Pick(IsPrefix, a.options), Pick(IsPrefix, b.options)),
          Cross(RoutePair, Pick(IsRoute, a.options), Pick(IsRoute, b.options)),
          Lists(RDNSSPair, RdnssCount, Pick(IsRDNSS, a.options), Pick(IsRDNSS, b.options)),
          Lists(DNSSLPair, DnsslCount, Pick(IsDNSSL, a.options), Pick(IsDNSSL, b.options)),
          PortalProblems(PickFirst(IsPortal, a.options), PickFirst(IsPortal, b.options)))
  }

  function Whole(s: Seven): seq<Problem> {
    s.base + s.mtu + s.prefixes + s.routes + s.rdnss + s.dnssl + s.portal
  }

  lemma SevenExchanged(p: Seven, q: Seven)
    requires Exchanged(p.base, q.base) && Exchanged(p.mtu, q.mtu) && Exchanged(p.prefixes, q.prefixes)
    requires Exchanged(p.routes, q.routes) && Exchanged(p.rdnss, q.rdnss) && Exchanged(p.dnssl, q.dnssl)
    requires Exchanged(p.portal, q.portal)
    ensures Exchanged(Whole(p), Whole(q))
  {
    var p2, q2 := p.base + p.mtu, q.base + q.mtu;
    ExchangedConcat(p.base, q.base, p.mtu, q.mtu);
    var p3, q3 := p2 + p.prefixes, q2 + q.prefixes;
    ExchangedConcat(p2, q2, p.prefixes, q.prefixes);
    var p4, q4 := p3 + p.routes, q3 + q.routes;
    ExchangedConcat(p3, q3, p.routes, q.routes);
    var p5, q5 := p4 + p.rdnss, q4 + q.rdnss;
    ExchangedConcat(p4, q4, p.rdnss, q.rdnss);
    var p6, q6 := p5 + p.dnssl, q5 + q.dnssl;
    ExchangedConcat(p5, q5, p.dnssl, q.dnssl);
    ExchangedConcat(p6, q6, p.portal, q.portal);
  }

  // Soundness and completeness

  /** The nested loops report exactly what some pair reports. */
  lemma {:induction false} CrossReports(f: Pairing, xs: seq<NdpOption>, ys: seq<NdpOption>, p: Problem)
    ensures p in Cross(f, xs, ys) <==> exists a, b :: a in xs && b in ys && p in f(a, b)
  {
    if xs != [] {
      var n := |xs| - 1;
      assert xs == xs[..n] + [xs[n]];
      CrossReports(f, xs[..n], ys, p);
      RowReports(f, xs[n], ys, p);
    }
  }

  lemma {:induction false} RowReports(f: Pairing, a: NdpOption, ys: seq<NdpOption>, p: Problem)
    ensures p in Row(f, a, ys) <==> exists b :: b in ys && p in f(a, b)
  {
    if ys != [] {
      var n := |ys| - 1;
      assert ys == ys[..n] + [ys[n]];
      RowReports(f, a, ys[..n], p);
    }
  }

  lemma CrossSilent(f: Pairing, xs: seq<NdpOption>, ys: seq<NdpOption>)
    ensures Cross(f, xs, ys) == [] <==> forall a, b :: a in xs && b in ys ==> f(a, b) == []
  {
    if Cross(f, xs, ys) != [] {
      CrossReports(f, xs, ys, Cross(f, xs, ys)[0]);
    } else {
      forall a, b | a in xs && b in ys
        ensures f(a, b) == []
      {
        if f(a, b) != [] {
          CrossReports(f, xs, ys, f(a, b)[0]);
        }
      }
    }
  }

  lemma {:induction false} EachSilent(f: Pairing, xs: seq<NdpOption>, ys: seq<NdpOption>)
    requires |xs| == |ys|
    ensures Each(f, xs, ys) == [] <==> forall i :: 0 <= i < |xs| ==> f(xs[i], ys[i]) == []
  {
    if xs != [] {
      EachSilent(f, xs[..|xs| - 1], ys[..|ys| - 1]);
    }
  }

  ghost predicate PrefixesAgree(a: RA, b: RA) {
    forall x, y :: x in a.options && y in b.options && SamePrefix(x, y) ==>
      x.preferredLifetime == y.preferredLifetime && x.validLifetime == y.validLifetime
  }

  ghost predicate RoutesAgree(a: RA, b: RA) {
    forall x, y :: x in a.options && y in b.options && SameRoute(x, y) && x.preference == y.preference ==>
      x.routeLifetime == y.routeLifetime
  }

  /** Lists of options match one to one when both are present. */
  ghost predicate ListsAgree(kind: NdpOption -> bool, a: RA, b: RA) {
    var xs, ys := Pick(kind, a.options), Pick(kind, b.options);
    xs != [] && ys != [] ==> xs == ys
  }

  /** The options of the two sides that must agree by value when both are present. */
  function MTUOf(a: RA): Option<nat> {
    var o := PickFirst(IsMTU, a.options);
    if o.Some? && o.value.MTU? then Some(o.value.mtu) else None
  }

  function PortalOf(a: RA): Option<string> {
    var o := PickFirst(IsPortal, a.options);
    if o.Some? && o.value.CaptivePortal? then Some(o.value.uri) else None
  }

  predicate Compatible<T(==)>(x: Option<T>, y: Option<T>) {
    x.None? || y.None? || x == y
  }

  /** Consistency as section 6.2.7 of RFC 4861 and the options' own meaning describe it. */
  ghost predicate Consistent(a: RA, b: RA) {
    && BaseAgrees(a.base, b.base)
    && Compatible(MTUOf(a), MTUOf(b))
    && PrefixesAgree(a, b)
    && RoutesAgree(a, b)
    && ListsAgree(IsRDNSS, a, b)
    && ListsAgree(IsDNSSL, a, b)
    && Compatible(PortalOf(a), PortalOf(b))
  }

  // The inputs on which the code reports a problem although the advertisements are consistent

  /** Exactly one side leaves the hop limit unspecified. */
  predicate HopLimitQuirk(a: RA, b: RA) {
    (a.base.hopLimit == 0) != (b.base.hopLimit == 0)
  }

  /** Both sides have an option of the kind, and the first ones are distinct objects. */
  predicate IdentityQuirk(kind: NdpOption -> bool, a: RA, b: RA)
    requires forall o :: kind(o) ==> HasRef(o)
  {
    var x, y := PickFirst(kind, a.options), PickFirst(kind, b.options);
    x.Some? && y.Some? && Ref(x.value) != Ref(y.value)
  }

  function Ref(o: NdpOption): nat {
    match o
    case MTU(ref, _) => ref
    case CaptivePortal(ref, _) => ref
    case _ => 0
  }

  predicate HasRef(o: NdpOption) {
    o.MTU? || o.CaptivePortal?
  }

  /** One object has one value. */
  ghost predicate Heap(a: RA, b: RA) {
    forall x, y | x in a.options && y in b.options && HasRef(x) && HasRef(y) && Ref(x) == Ref(y) :: x == y
  }

  /** The advertisements were built apart, as ours and one read from the wire. */
  ghost predicate Apart(a: RA, b: RA) {
    forall x, y | x in a.options && y in b.options && HasRef(x) && HasRef(y) :: Ref(x) != Ref(y)
  }

  lemma PickFirstMember(kind: NdpOption -> bool, a: RA)
    ensures PickFirst(kind, a.options).Some? ==>
        PickFirst(kind, a.options).value in a.options && kind(PickFirst(kind, a.options).value)
  {
    var picked := Pick(kind, a.options);
    if picked != [] {
      assert picked[0] in picked;
    }
  }

  lemma PrefixesSilent(a: RA, b: RA)
    ensures Cross(PrefixPair, Pick(IsPrefix, a.options), Pick(IsPrefix, b.options)) == [] <==> PrefixesAgree(a, b)
  {
    CrossSilent(PrefixPair, Pick(IsPrefix, a.options), Pick(IsPrefix, b.options));
    forall x, y
      ensures PrefixPair(x, y) == [] <==> (SamePrefix(x, y) ==>
          x.preferredLifetime == y.preferredLifetime && x.validLifetime == y.validLifetime)
      ensures SamePrefix(x, y) ==> IsPrefix(x) && IsPrefix(y)
    {
    }
  }

  lemma RoutesSilent(a: RA, b: RA)
    ensures Cross(RoutePair, Pick(IsRoute, a.options), Pick(IsRoute, b.options)) == [] <==> RoutesAgree(a, b)
  {
    CrossSilent(RoutePair, Pick(IsRoute, a.options), Pick(IsRoute, b.options));
    forall x, y
      ensures RoutePair(x, y) == [] <==> (SameRoute(x, y) && x.preference == y.preference ==>
          x.routeLifetime == y.routeLifetime)
      ensures SameRoute(x, y) ==> IsRoute(x) && IsRoute(y)
    {
    }
  }

  lemma RDNSSSilent(a: RA, b: RA)
    ensures Lists(RDNSSPair, RdnssCount, Pick(IsRDNSS, a.options), Pick(IsRDNSS, b.options)) == [] <==>
        ListsAgree(IsRDNSS, a, b)
  {
    ListsSilent(RDNSSPair, RdnssCount, Pick(IsRDNSS, a.options), Pick(IsRDNSS, b.options));
  }

  lemma DNSSLSilent(a: RA, b: RA)
    ensures Lists(DNSSLPair, DnsslCount, Pick(IsDNSSL, a.options), Pick(IsDNSSL, b.options)) == [] <==>
        ListsAgree(IsDNSSL, a, b)
  {
    ListsSilent(DNSSLPair, DnsslCount, Pick(IsDNSSL, a.options), Pick(IsDNSSL, b.options));
  }

  predicate BaseAgrees(a: Base, b: Base) {
    && (a.hopLimit == 0 || b.hopLimit == 0 || a.hopLimit == b.hopLimit)
    && a.managed == b.managed
    && a.otherConfig == b.otherConfig
    && CheckDurations(a.reachableTime, b.reachableTime)
    && CheckDurations(a.retransmitTimer, b.retransmitTimer)
  }

  lemma BaseSilent(a: RA, b: RA)
    ensures BaseProblems(a.base, b.base) == [] <==> BaseAgrees(a.base, b.base) && !HopLimitQuirk(a, b)
  {
  }

  lemma SevenEmpty(s: Seven)
    ensures Whole(s) == [] <==> s == Seven([], [], [], [], [], [], [])
  {
    assert |Whole(s)| == |s.base| + |s.mtu| + |s.prefixes| + |s.routes| + |s.rdnss| + |s.dnssl| + |s.portal|;
  }

  lemma ListsSilent(f: Pairing, count: Field, xs: seq<NdpOption>, ys: seq<NdpOption>)
    requires forall x, y :: x in xs && y in ys ==> (f(x, y) == [] <==> x == y)
    ensures Lists(f, count, xs, ys) == [] <==> (xs != [] && ys != [] ==> xs == ys)
  {
    if |xs| == |ys| {
      EachSilent(f, xs, ys);
    }
  }

  lemma MTUSilent(a: RA, b: RA)
    requires Heap(a, b)
    ensures MTUProblems(PickFirst(IsMTU, a.options), PickFirst(IsMTU, b.options)) == [] <==>
            Compatible(MTUOf(a), MTUOf(b)) && !IdentityQuirk(IsMTU, a, b)
  {
    PickFirstMember(IsMTU, a);
    PickFirstMember(IsMTU, b);
  }

  lemma PortalSilent(a: RA, b: RA)
    requires Heap(a, b)
    ensures PortalProblems(PickFirst(IsPortal, a.options), PickFirst(IsPortal, b.options)) == [] <==>
            Compatible(PortalOf(a), PortalOf(b)) && !IdentityQuirk(IsPortal, a, b)
  {
    PickFirstMember(IsPortal, a);
    PickFirstMember(IsPortal, b);
  }

  /** Nothing is reported exactly for consistent advertisements in which no MTU or portal is spread
      over two objects and no hop limit is left unspecified on one side only. */
  lemma SilentIffConsistent(a: RA, b: RA)
    requires Heap(a, b)
    ensures RAProblems(a, b) == [] <==>
            Consistent(a, b) && !HopLimitQuirk(a, b) && !IdentityQuirk(IsMTU, a, b) && !IdentityQuirk(IsPortal, a, b)
  {
    BaseSilent(a, b);
    MTUSilent(a, b);
    PrefixesSilent(a, b);
    RoutesSilent(a, b);
    RDNSSSilent(a, b);
    DNSSLSilent(a, b);
    PortalSilent(a, b);
    SevenEmpty(Parts(a, b));
  }

  /** Against an advertisement read from the wire, any MTU or portal present on both sides is reported,
      equal or not; with none, and no one-sided hop limit, the report is exact. */
  lemma ReceivedSilent(a: RA, b: RA)
    requires Apart(a, b)
    ensures RAProblems(a, b) == [] <==>
            Consistent(a, b) && !HopLimitQuirk(a, b) &&
            (MTUOf(a).None? || MTUOf(b).None?) && (PortalOf(a).None? || PortalOf(b).None?)
  {
    SilentIffConsistent(a, b);
    QuirkApart(IsMTU, a, b);
    QuirkApart(IsPortal, a, b);
    PresentOptions(a);
    PresentOptions(b);
  }

  lemma QuirkApart(kind: NdpOption -> bool, a: RA, b: RA)
    requires Apart(a, b) && forall o :: kind(o) ==> HasRef(o)
    ensures IdentityQuirk(kind, a, b) <==> PickFirst(kind, a.options).Some? && PickFirst(kind, b.options).Some?
  {
    PickFirstMember(kind, a);
    PickFirstMember(kind, b);
  }

  lemma PresentOptions(a: RA)
    ensures MTUOf(a).Some? <==> PickFirst(IsMTU, a.options).Some?
    ensures PortalOf(a).Some? <==> PickFirst(IsPortal, a.options).Some?
  {
    PickFirstMember(IsMTU, a);
    PickFirstMember(IsPortal, a);
  }

  /** An advertisement compared with itself is reported exactly when it disagrees with itself: by the same
      prefix, or the same route and preference, with two lifetimes. */
  lemma SelfSilent(a: RA)
    requires Heap(a, a)
    ensures RAProblems(a, a) == [] <==> PrefixesAgree(a, a) && RoutesAgree(a, a)
  {
    SilentIffConsistent(a, a);
  }

  // Inputs on which the quirks show

  lemma SingleOption(a: RA, o: NdpOption)
    requires a.options == [o] && HasRef(o)
    ensures Pick(IsRDNSS, a.options) == [] && Pick(IsDNSSL, a.options) == []
    ensures MTUOf(a) == if o.MTU? then Some(o.mtu) else None
    ensures PortalOf(a) == if o.CaptivePortal? then Some(o.uri) else None
  {
    PickSingle(IsRDNSS, o);
    PickSingle(IsDNSSL, o);
    PickSingle(IsMTU, o);
    PickSingle(IsPortal, o);
  }

  lemma PickSingle(kind: NdpOption -> bool, o: NdpOption)
    ensures Pick(kind, [o]) == if kind(o) then [o] else []
  {
    assert [o][..0] == [];
  }

  /** Options that differ in identity only are consistent and reported. */
  lemma EqualOptionReported(a: RA, b: RA, o: NdpOption, o': NdpOption)
    requires a.base == b.base && a.options == [o] && b.options == [o'] && HasRef(o) && HasRef(o') && Ref(o) != Ref(o')
    requires MTUOf(a) == MTUOf(b) && PortalOf(a) == PortalOf(b)
    ensures Consistent(a, b) && RAProblems(a, b) != []
  {
    SingleOption(a, o);
    SingleOption(b, o');
    assert PrefixesAgree(a, b) && RoutesAgree(a, b);
    assert Apart(a, b);
    ReceivedSilent(a, b);
  }

  /** Two equal MTU options in distinct objects are consistent and reported. */
  lemma EqualMTUReported(a: RA, b: RA, mtu: nat)
    requires a.base == b.base && a.options == [MTU(1, mtu)] && b.options == [MTU(2, mtu)]
    ensures Consistent(a, b) && RAProblems(a, b) != []
  {
    SingleOption(a, MTU(1, mtu));
    SingleOption(b, MTU(2, mtu));
    EqualOptionReported(a, b, MTU(1, mtu), MTU(2, mtu));
  }

  /** Two equal captive portals in distinct objects are consistent and reported. */
  lemma EqualPortalReported(a: RA, b: RA, uri: string)
    requires a.base == b.base && a.options == [CaptivePortal(1, uri)] && b.options == [CaptivePortal(2, uri)]
    ensures Consistent(a, b) && RAProblems(a, b) != []
  {
    SingleOption(a, CaptivePortal(1, uri));
    SingleOption(b, CaptivePortal(2, uri));
    EqualOptionReported(a, b, CaptivePortal(1, uri), CaptivePortal(2, uri));
  }

  /** A hop limit that one side leaves unspecified is consistent with any other and reported. */
  lemma UnspecifiedHopLimitReported(a: RA, b: RA)
    requires a.options == [] && b.options == [] && b.base == a.base.(hopLimit := 64) && a.base.hopLimit == 0
    ensures Consistent(a, b) && RAProblems(a, b) != []
  {
    assert Apart(a, b);
    ReceivedSilent(a, b);
  }
}
