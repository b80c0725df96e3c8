/** What the automatic route and prefix lists are, as laws about Selection. */
module SelectionLaws {
  import opened Netip
  import opened Sorting
  import opened Addresser
  import opened Selection
  import opened AddressLaws

  // Route tables as sets

  /** The eligible prefixes of a route table. */
  ghost function Table(routes: seq<Route>): set<Prefix> {
    set r | r in routes && Eligible(r.prefix) :: r.prefix
  }

  /** The prefixes of s that cover a usable address. */
  ghost function CoveringOf(s: set<Prefix>, addrs: seq<IP>): set<Prefix> {
    set p | p in s && CoversUsable(p, addrs)
  }

  /** The prefixes of s not inside a shorter prefix of s. */
  ghost function Maximal(s: set<Prefix>): set<Prefix> {
    set p | p in s && !exists q :: q in s && CoveredBy(p, q)
  }

  /** The addresses that matter for the automatic lists. */
  ghost function UsableAddrs(addrs: seq<IP>): set<Addr> {
    set a | a in addrs && Usable(a) :: a.address.addr
  }

  lemma {:induction false} CoveringMembers(routes: seq<Route>, addrs: seq<IP>, p: Prefix)
    ensures p in Covering(routes, addrs) <==> p in Table(routes) && CoversUsable(p, addrs)
  {
    if routes != [] {
      var n := |routes| - 1;
      CoveringMembers(routes[..n], addrs, p);
      assert routes == routes[..n] + [routes[n]];
    }
  }

  lemma {:induction false} CoveringNoDup(routes: seq<Route>, addrs: seq<IP>)
    ensures NoDup(Covering(routes, addrs))
  {
    if routes != [] {
      CoveringNoDup(routes[..|routes| - 1], addrs);
    }
  }

  lemma CoveringElements(routes: seq<Route>, addrs: seq<IP>)
    ensures Elements(Covering(routes, addrs)) == CoveringOf(Table(routes), addrs)
  {
    forall p: Prefix {
      CoveringMembers(routes, addrs, p);
    }
  }

  lemma {:induction false} KeepMembers(ps: seq<Prefix>, all: seq<Prefix>, p: Prefix)
    ensures p in Keep(ps, all) <==> p in ps && !IsCovered(p, all)
  {
    if ps != [] {
      var n := |ps| - 1;
      KeepMembers(ps[..n], all, p);
      assert ps == ps[..n] + [ps[n]];
    }
  }

  lemma {:induction false} KeepNoDup(ps: seq<Prefix>, all: seq<Prefix>)
    requires NoDup(ps)
    ensures NoDup(Keep(ps, all))
  {
    if ps != [] {
      var n := |ps| - 1;
      KeepNoDup(ps[..n], all);
      KeepMembers(ps[..n], all, ps[n]);
    }
  }

  lemma UncoveredElements(ps: seq<Prefix>)
    ensures Elements(Uncovered(ps)) == Maximal(Elements(ps))
  {
    forall p: Prefix {
      KeepMembers(ps, ps, p);
    }
  }

  /** Every prefix of s lies in a maximal one, which has all its addresses. */
  lemma {:induction false} MaximalAbove(s: set<Prefix>, p: Prefix) returns (m: Prefix)
    requires p in s
    ensures m in Maximal(s) && Covers(m, p)
    decreases p.bits
  {
    if q :| q in s && CoveredBy(p, q) {
      m := MaximalAbove(s, q);
      ContainsIsCovers(q, p);
    } else {
      m := p;
    }
  }

  /** Distinct maximal prefixes with a common address are two spellings of one network. */
  lemma MaximalOverlap(s: set<Prefix>, p: Prefix, q: Prefix, a: Addr)
    requires p in Maximal(s) && q in Maximal(s)
    requires Contains(p, a) && Contains(q, a)
    ensures p.bits == q.bits && Masked(p) == Masked(q)
  {
    if p.bits <= q.bits {
      CommonAddressNests(p, q, a);
    } else {
      CommonAddressNests(q, p, a);
    }
  }

  /** Covering commutes with taking maximal prefixes. */
  lemma MaximalCommutes(s: set<Prefix>, addrs: seq<IP>)
    ensures Maximal(CoveringOf(s, addrs)) == CoveringOf(Maximal(s), addrs)
  {
    forall p, q | p in s && q in s && CoversUsable(p, addrs) && CoveredBy(p, q)
      ensures CoversUsable(q, addrs)
    {
      ContainsIsCovers(q, p);
    }
  }

  lemma AutoRoutesElements(routes: seq<Route>, addrs: seq<IP>)
    ensures Elements(AutoRoutes(routes, addrs)) == Maximal(CoveringOf(Table(routes), addrs))
    ensures StrictBy(AutoRoutes(routes, addrs), ByAddr())
  {
    var cs := Covering(routes, addrs);
    CoveringElements(routes, addrs);
    UncoveredElements(cs);
    CoveringNoDup(routes, addrs);
    KeepNoDup(cs, cs);
    var ps := Uncovered(cs);
    forall p, q | p in ps && q in ps && ByAddr()(p) == ByAddr()(q)
      ensures p == q
    {
      assert p in Elements(ps) && q in Elements(ps);
      assert p.addr == q.addr;
      MaximalOverlap(Elements(cs), p, q, p.addr);
    }
    SortStrict(ps, ByAddr());
    Permuted(ps, AutoRoutes(routes, addrs));
  }

  // Laws of automatic routes

  /** Some prefix of ps contains a. */
  ghost predicate Reaches(ps: seq<Prefix>, a: Addr) {
    exists p :: p in ps && Contains(p, a)
  }

  /** The covered addresses survive the removal of covered prefixes, and removing twice changes nothing. */
  lemma UncoveredKeepsCoverage(ps: seq<Prefix>)
    ensures forall a: Addr :: Reaches(ps, a) <==> Reaches(Uncovered(ps), a)
    ensures Uncovered(Uncovered(ps)) == Uncovered(ps)
  {
    UncoveredElements(ps);
    forall a: Addr, p | p in ps && Contains(p, a)
      ensures Reaches(Uncovered(ps), a)
    {
      assert p in Elements(ps);
      var m := MaximalAbove(Elements(ps), p);
      assert m in Elements(Uncovered(ps)) && Contains(m, a);
    }
    forall m | m in Uncovered(ps)
      ensures m in ps && !IsCovered(m, Uncovered(ps))
    {
      KeepMembers(ps, ps, m);
      forall q | q in Uncovered(ps)
        ensures !CoveredBy(m, q)
      {
        KeepMembers(ps, ps, q);
      }
    }
    KeepAll(Uncovered(ps), Uncovered(ps));
  }

  lemma {:induction false} KeepAll(ps: seq<Prefix>, all: seq<Prefix>)
    requires forall p :: p in ps ==> !IsCovered(p, all)
    ensures Keep(ps, all) == ps
  {
    if ps != [] {
      KeepAll(ps[..|ps| - 1], all);
    }
  }

  /** Filtering by coverage and then removing covered prefixes gives the maximal prefixes of the
      whole table that cover a usable address. */
  lemma AutoRoutesAreMaximal(routes: seq<Route>, addrs: seq<IP>)
    ensures Elements(AutoRoutes(routes, addrs)) == CoveringOf(Maximal(Table(routes)), addrs)
  {
    AutoRoutesElements(routes, addrs);
    MaximalCommutes(Table(routes), addrs);
  }

  /** Every advertised route is an eligible route of the table that holds a usable address. */
  lemma AutoRoutesAdvertised(routes: seq<Route>, addrs: seq<IP>)
    ensures forall p :: p in AutoRoutes(routes, addrs) ==> p in Table(routes) && CoversUsable(p, addrs)
  {
    AutoRoutesElements(routes, addrs);
    assert forall p :: p in AutoRoutes(routes, addrs) ==> p in Elements(AutoRoutes(routes, addrs));
  }

  /** An eligible route p with a usable address is inside an advertised route. */
  lemma RouteFor(routes: seq<Route>, addrs: seq<IP>, p: Prefix, a: Addr) returns (m: Prefix)
    requires p in Table(routes) && a in UsableAddrs(addrs) && Contains(p, a)
    ensures m in AutoRoutes(routes, addrs) && Covers(m, p) && Contains(m, a)
  {
    AutoRoutesElements(routes, addrs);
    CoversUsableBySet(p, addrs);
    m := MaximalAbove(CoveringOf(Table(routes), addrs), p);
    assert m in Elements(AutoRoutes(routes, addrs));
  }

  /** Two distinct advertised routes share an address exactly when they spell the same network. */
  lemma AutoRoutesOverlap(routes: seq<Route>, addrs: seq<IP>, p: Prefix, q: Prefix)
    requires p in AutoRoutes(routes, addrs) && q in AutoRoutes(routes, addrs)
    ensures !Disjoint(p, q) <==> Masked(p) == Masked(q)
  {
    AutoRoutesElements(routes, addrs);
    var out := AutoRoutes(routes, addrs);
    assert p in Elements(out) && q in Elements(out);
    if a: Addr :| Contains(p, a) && Contains(q, a) {
      MaximalOverlap(CoveringOf(Table(routes), addrs), p, q, a);
    }
    if Masked(p) == Masked(q) {
      MaskedSameAddresses(p);
      MaskedSameAddresses(q);
      assert Contains(p, p.addr) && Contains(q, p.addr);
    }
  }

  /** The table spells each network in one way only, if that network holds a usable address and is not
      inside a shorter one of the table. */
  ghost predicate OneSpelling(table: set<Prefix>, addrs: seq<IP>) {
    forall p, q :: p in CoveringOf(Maximal(table), addrs) && q in table && Masked(p) == Masked(q) ==> p == q
  }

  lemma AdvertisedIffMaximal(routes: seq<Route>, addrs: seq<IP>, p: Prefix)
    ensures p in AutoRoutes(routes, addrs) <==> p in CoveringOf(Maximal(Table(routes)), addrs)
  {
    AutoRoutesAreMaximal(routes, addrs);
    assert p in AutoRoutes(routes, addrs) <==> p in Elements(AutoRoutes(routes, addrs));
  }

  lemma SpellingsCoveredAlike(p: Prefix, q: Prefix, r: Prefix)
    requires Masked(p) == Masked(q) && CoveredBy(q, r)
    ensures CoveredBy(p, r)
  {
    MaskedSameAddresses(p);
    MaskedSameAddresses(q);
    ContainsIsCovers(r, q);
    assert Contains(q, p.addr);
  }

  /** Another spelling of an advertised network is advertised as well. */
  lemma SpellingsTogether(routes: seq<Route>, addrs: seq<IP>, p: Prefix, q: Prefix)
    requires p in AutoRoutes(routes, addrs) && q in Table(routes) && Masked(p) == Masked(q)
    ensures q in AutoRoutes(routes, addrs)
  {
    AutoRoutesElements(routes, addrs);
    var out := AutoRoutes(routes, addrs);
    var s := CoveringOf(Table(routes), addrs);
    assert p in Elements(out);
    MaskedSameAddresses(p);
    MaskedSameAddresses(q);
    assert CoversUsable(q, addrs);
    forall r | r in s
      ensures !CoveredBy(q, r)
    {
      if CoveredBy(q, r) {
        SpellingsCoveredAlike(p, q, r);
      }
    }
    assert q in Elements(out);
  }

  ghost predicate PairwiseDisjoint(ps: seq<Prefix>) {
    forall p, q :: p in ps && q in ps && p != q ==> Disjoint(p, q)
  }

  /** The advertised routes are pairwise disjoint, so that each usable address is in at most one of
      them, if and only if the table spells each maximal network with a usable address one way. */
  lemma AutoRoutesDisjoint(routes: seq<Route>, addrs: seq<IP>)
    ensures PairwiseDisjoint(AutoRoutes(routes, addrs)) <==> OneSpelling(Table(routes), addrs)
  {
    if OneSpelling(Table(routes), addrs) {
      OneSpellingDisjoint(routes, addrs);
    }
    if PairwiseDisjoint(AutoRoutes(routes, addrs)) {
      DisjointOneSpelling(routes, addrs);
    }
  }

  lemma OneSpellingDisjoint(routes: seq<Route>, addrs: seq<IP>)
    requires OneSpelling(Table(routes), addrs)
    ensures PairwiseDisjoint(AutoRoutes(routes, addrs))
  {
    AutoRoutesAdvertised(routes, addrs);
    forall p, q | p in AutoRoutes(routes, addrs) && q in AutoRoutes(routes, addrs) && p != q
      ensures Disjoint(p, q)
    {
      AutoRoutesOverlap(routes, addrs, p, q);
      AdvertisedIffMaximal(routes, addrs, p);
    }
  }

  lemma DisjointOneSpelling(routes: seq<Route>, addrs: seq<IP>)
    requires PairwiseDisjoint(AutoRoutes(routes, addrs))
    ensures OneSpelling(Table(routes), addrs)
  {
    forall p, q | p in CoveringOf(Maximal(Table(routes)), addrs) && q in Table(routes) && Masked(p) == Masked(q)
      ensures p == q
    {
      AdvertisedIffMaximal(routes, addrs, p);
      SpellingsTogether(routes, addrs, p, q);
      AutoRoutesOverlap(routes, addrs, p, q);
    }
  }

  /** A table of canonical routes spells every network one way. */
  lemma CanonicalOneSpelling(routes: seq<Route>, addrs: seq<IP>)
    requires forall r :: r in routes ==> Canonical(r.prefix)
    ensures OneSpelling(Table(routes), addrs)
  {
  }

  /** A table with the spellings ::/127 and ::1/127 of one network gives two overlapping routes. */
  lemma TwoSpellingsOverlap(p: Prefix, q: Prefix, routes: seq<Route>, addrs: seq<IP>)
    requires p.addr == V6(0) && q.addr == V6(1) && p.bits == q.bits == 127
    requires routes == [Route(p, 1, Medium), Route(q, 1, Medium)]
    requires |addrs| == 1 && addrs[0].address == p && !addrs[0].temporary && !addrs[0].tentative
    ensures p in AutoRoutes(routes, addrs) && q in AutoRoutes(routes, addrs) && p != q && !Disjoint(p, q)
  {
    assert Pow2(1) == 2;
    assert Usable(addrs[0]) by {
      assert Block(V6(0), 10) == 0;
    }
    assert Contains(p, V6(0)) && Contains(q, V6(0));
    assert routes[0] in routes && routes[1] in routes && addrs[0] in addrs;
    assert CoversUsable(p, addrs) && CoversUsable(q, addrs);
    MaximalOfOneLength(CoveringOf(Table(routes), addrs), 127);
    AutoRoutesElements(routes, addrs);
    var out := AutoRoutes(routes, addrs);
    assert p in Elements(out) && q in Elements(out);
  }

  lemma MaximalOfOneLength(s: set<Prefix>, bits: nat)
    requires forall p :: p in s ==> p.bits == bits
    ensures Maximal(s) == s
  {
  }

  /** For canonical routes, a usable address covered by an eligible route is in exactly one advertised route. */
  lemma ExactlyOneRoute(routes: seq<Route>, addrs: seq<IP>, p: Prefix, a: Addr) returns (m: Prefix)
    requires forall r :: r in routes ==> Canonical(r.prefix)
    requires p in Table(routes) && a in UsableAddrs(addrs) && Contains(p, a)
    ensures m in AutoRoutes(routes, addrs) && Contains(m, a)
    ensures forall m' :: m' in AutoRoutes(routes, addrs) && Contains(m', a) ==> m' == m
  {
    m := RouteFor(routes, addrs, p, a);
    forall m' | m' in AutoRoutes(routes, addrs) && Contains(m', a)
      ensures m' == m
    {
      AutoRoutesOverlap(routes, addrs, m, m');
      assert Canonical(m) && Canonical(m') by {
        AutoRoutesElements(routes, addrs);
        assert m in Elements(AutoRoutes(routes, addrs)) && m' in Elements(AutoRoutes(routes, addrs));
      }
    }
  }

  /** Order and repetition in the kernel's answers do not change the list: it is strictly increasing
      and depends on the set of routes and the set of usable addresses. */
  lemma AutoRoutesInputOrder(routes: seq<Route>, addrs: seq<IP>, routes': seq<Route>, addrs': seq<IP>)
    requires Table(routes) == Table(routes') && UsableAddrs(addrs) == UsableAddrs(addrs')
    ensures AutoRoutes(routes, addrs) == AutoRoutes(routes', addrs')
  {
    AutoRoutesElements(routes, addrs);
    AutoRoutesElements(routes', addrs');
    forall p: Prefix
      ensures CoversUsable(p, addrs) <==> CoversUsable(p, addrs')
    {
      CoversUsableBySet(p, addrs);
      CoversUsableBySet(p, addrs');
    }
    StrictUnique(AutoRoutes(routes, addrs), AutoRoutes(routes', addrs'), ByAddr());
  }

  lemma CoversUsableBySet(p: Prefix, addrs: seq<IP>)
    ensures CoversUsable(p, addrs) <==> exists a :: a in UsableAddrs(addrs) && Contains(p, a)
  {
  }

  /** Any sorting of the selected routes by address, stable or not, gives the same list. */
  lemma AnySortAgrees(routes: seq<Route>, addrs: seq<IP>, sorted: seq<Prefix>)
    requires SortedBy(sorted, ByAddr()) && multiset(sorted) == multiset(Uncovered(Covering(routes, addrs)))
    ensures sorted == AutoRoutes(routes, addrs)
  {
    var ps := Uncovered(Covering(routes, addrs));
    var out := AutoRoutes(routes, addrs);
    AutoRoutesElements(routes, addrs);
    Permuted(out, sorted);
    assert NoDup(out);
    forall i, j | 0 <= i < j < |sorted|
      ensures ByAddr()(sorted[i]) < ByAddr()(sorted[j])
    {
      assert sorted[i] in Elements(sorted) && sorted[j] in Elements(sorted);
      assert sorted[i] in out && sorted[j] in out;
    }
    StrictUnique(sorted, out, ByAddr());
  }

  // Laws of automatic prefixes

  /** The networks of the usable addresses with the wanted mask length. */
  ghost function NetworkSet(addrs: seq<IP>, bits: nat): set<Prefix> {
    set a | a in addrs && Usable(a) && a.address.bits == bits :: Masked(a.address)
  }

  lemma {:induction false} NetworkMembers(addrs: seq<IP>, bits: nat, p: Prefix)
    ensures p in Networks(addrs, bits) <==> p in NetworkSet(addrs, bits)
  {
    if addrs != [] {
      var n := |addrs| - 1;
      NetworkMembers(addrs[..n], bits, p);
      assert addrs == addrs[..n] + [addrs[n]];
    }
  }

  lemma {:induction false} NetworksNoDup(addrs: seq<IP>, bits: nat)
    ensures NoDup(Networks(addrs, bits))
  {
    if addrs != [] {
      NetworksNoDup(addrs[..|addrs| - 1], bits);
    }
  }

  /** The automatic prefixes are exactly the canonical networks of the matching usable addresses, in
      strictly increasing order. */
  lemma AutoPrefixesElements(addrs: seq<IP>, bits: nat)
    ensures Elements(AutoPrefixes(addrs, bits)) == NetworkSet(addrs, bits)
    ensures StrictBy(AutoPrefixes(addrs, bits), ByAddr())
    ensures forall p :: p in AutoPrefixes(addrs, bits) ==> Canonical(p) && p.bits == bits
  {
    var ps := Networks(addrs, bits);
    NetworksNoDup(addrs, bits);
    forall p: Prefix {
      NetworkMembers(addrs, bits, p);
    }
    forall p | p in NetworkSet(addrs, bits)
      ensures Canonical(p) && p.bits == bits
    {
      var a :| a in addrs && Usable(a) && a.address.bits == bits && Masked(a.address) == p;
      MaskedSameAddresses(a.address);
    }
    forall p, q | p in ps && q in ps && ByAddr()(p) == ByAddr()(q)
      ensures p == q
    {
    }
    SortStrict(ps, ByAddr());
    Permuted(ps, AutoPrefixes(addrs, bits));
    assert forall p :: p in AutoPrefixes(addrs, bits) ==> p in Elements(AutoPrefixes(addrs, bits));
  }

  /** Each usable address with the wanted mask is in an automatic prefix, and these are pairwise disjoint. */
  lemma AutoPrefixesPartition(addrs: seq<IP>, bits: nat, p: Prefix, q: Prefix)
    requires p in AutoPrefixes(addrs, bits) && q in AutoPrefixes(addrs, bits) && p != q
    ensures Disjoint(p, q)
  {
    assert Canonical(p) && Canonical(q) && p.bits == q.bits by {
      AutoPrefixesElements(addrs, bits);
    }
    CanonicalDisjoint(p, q);
  }

  lemma PrefixFor(addrs: seq<IP>, bits: nat, a: IP)
    requires a in addrs && Usable(a) && a.address.bits == bits
    ensures Masked(a.address) in AutoPrefixes(addrs, bits) && Contains(Masked(a.address), a.address.addr)
  {
    AutoPrefixesElements(addrs, bits);
    assert Masked(a.address) in Elements(AutoPrefixes(addrs, bits));
    MaskedSameAddresses(a.address);
  }

  /** Order, repetition and host bits of the addresses do not change the list of prefixes. */
  lemma AutoPrefixesInputOrder(addrs: seq<IP>, addrs': seq<IP>, bits: nat)
    requires NetworkSet(addrs, bits) == NetworkSet(addrs', bits)
    ensures AutoPrefixes(addrs, bits) == AutoPrefixes(addrs', bits)
  {
    AutoPrefixesElements(addrs, bits);
    AutoPrefixesElements(addrs', bits);
    StrictUnique(AutoPrefixes(addrs, bits), AutoPrefixes(addrs', bits), ByAddr());
  }

  // The lists in terms of the kernel's answers alone

  /** fe80::/10 */
  function LinkLocal(): Prefix {
    WordPrefix(0xfe80, 10)
  }

  /** A lasting IPv6 address that is good beyond the link. */
  predicate Routable(a: IP) {
    a.address.addr.V6? && !a.temporary && !a.tentative && !Contains(LinkLocal(), a.address.addr)
  }

  lemma UsableIsRoutable(a: IP)
    ensures Usable(a) <==> Routable(a)
  {
    if a.address.addr.V6? {
      ClassPrefixes(a.address.addr);
    }
  }

  /** The automatic prefixes of a length: the networks of the routable addresses with that mask. */
  lemma AutoPrefixesExactly(addrs: seq<IP>, bits: nat, p: Prefix)
    ensures p in AutoPrefixes(addrs, bits) <==>
            exists a :: a in addrs && Routable(a) && a.address.bits == bits && Masked(a.address) == p
  {
    AutoPrefixesElements(addrs, bits);
    assert p in AutoPrefixes(addrs, bits) <==> p in Elements(AutoPrefixes(addrs, bits));
    forall a: IP
      ensures Usable(a) <==> Routable(a)
    {
      UsableIsRoutable(a);
    }
  }

  /** No automatic prefix of a length from 10 on has a link-local address. */
  lemma AutoPrefixesNotLinkLocal(addrs: seq<IP>, bits: nat, p: Prefix)
    requires bits >= 10 && p in AutoPrefixes(addrs, bits)
    ensures Disjoint(p, LinkLocal())
  {
    AutoPrefixesExactly(addrs, bits, p);
    var a :| a in addrs && Routable(a) && a.address.bits == bits && Masked(a.address) == p;
    MaskedSameAddresses(a.address);
    if x: Addr :| Contains(p, x) && Contains(LinkLocal(), x) {
      CommonAddressNests(LinkLocal(), a.address, x);
    }
  }

  /** The automatic routes: the prefixes of IPv6 routes other than to a single address that hold a routable
      address of the interface and are not inside a shorter one of the table. */
  lemma AutoRoutesExactly(routes: seq<Route>, addrs: seq<IP>, p: Prefix)
    ensures p in AutoRoutes(routes, addrs) <==>
            && (exists r :: r in routes && r.prefix == p)
            && p.addr.V6? && p.bits != 128
            && (exists a :: a in addrs && Routable(a) && Contains(p, a.address.addr))
            && (forall r :: r in routes && r.prefix.bits < p.bits ==> !Contains(r.prefix, p.addr))
  {
    AdvertisedIffMaximal(routes, addrs, p);
    CoversRoutable(addrs, p);
    if p in Table(routes) {
      MaximalInTable(routes, p);
    }
  }

  lemma CoversRoutable(addrs: seq<IP>, p: Prefix)
    ensures CoversUsable(p, addrs) <==> exists a :: a in addrs && Routable(a) && Contains(p, a.address.addr)
  {
    forall a: IP
      ensures Usable(a) <==> Routable(a)
    {
      UsableIsRoutable(a);
    }
  }

  lemma MaximalInTable(routes: seq<Route>, p: Prefix)
    requires p in Table(routes)
    ensures p in Maximal(Table(routes)) <==>
            forall r :: r in routes && r.prefix.bits < p.bits ==> !Contains(r.prefix, p.addr)
  {
    forall r | r in routes && r.prefix.bits < p.bits && Contains(r.prefix, p.addr)
      ensures r.prefix in Table(routes)
    {
    }
  }

  /** Both lists are in increasing order of their addresses. */
  lemma AutoListsIncrease(routes: seq<Route>, addrs: seq<IP>, bits: nat)
    ensures forall i, j :: 0 <= i < j < |AutoRoutes(routes, addrs)| ==>
              AutoRoutes(routes, addrs)[i].addr.n < AutoRoutes(routes, addrs)[j].addr.n
    ensures forall i, j :: 0 <= i < j < |AutoPrefixes(addrs, bits)| ==>
              AutoPrefixes(addrs, bits)[i].addr.n < AutoPrefixes(addrs, bits)[j].addr.n
  {
    var rs, ps := AutoRoutes(routes, addrs), AutoPrefixes(addrs, bits);
    AutoRoutesElements(routes, addrs);
    AutoPrefixesElements(addrs, bits);
    forall i | 0 <= i < |rs|
      ensures rs[i].addr.V6?
    {
      AutoRoutesExactly(routes, addrs, rs[i]);
    }
    forall i | 0 <= i < |ps|
      ensures ps[i].addr.V6?
    {
      AutoPrefixesExactly(addrs, bits, ps[i]);
    }
    IncreaseByNumber(rs);
    IncreaseByNumber(ps);
  }

  lemma IncreaseByNumber(ps: seq<Prefix>)
    requires StrictBy(ps, ByAddr()) && forall i :: 0 <= i < |ps| ==> ps[i].addr.V6?
    ensures forall i, j :: 0 <= i < j < |ps| ==> ps[i].addr.n < ps[j].addr.n
  {
    forall i, j | 0 <= i < j < |ps|
      ensures ps[i].addr.n < ps[j].addr.n
    {
      assert ByAddr()(ps[i]) < ByAddr()(ps[j]);
      RankOrder(ps[i].addr, ps[j].addr);
    }
  }
}
