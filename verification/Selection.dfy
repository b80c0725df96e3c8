/** Interface addresses and routes as reported by the operating system (package system). */
module Addresser {
  import opened Netip

  /** An interface address with its mask length and the kernel's flags. */
  datatype IP = IP(address: Prefix, deprecated: bool, manageTemporaryAddresses: bool, stablePrivacy: bool,
                   temporary: bool, tentative: bool, validForever: bool)

  datatype Preference = Low | Medium | High

  datatype Route = Route(prefix: Prefix, index: nat, preference: Preference)

  /** What a query of the operating system gave; Unset when the plugin was never prepared. */
  datatype Fetch<+T> = Unset | Failed | Fetched(value: T)
}

/** Automatic selection of routes and prefixes from the state of the system (package plugin). */
module Selection {
  import opened Netip
  import opened Sorting
  import opened Wrappers
  import opened Addresser

  datatype Error = NotPrepared | RoutesFailed | AddrsFailed | NoUsableAddress

  predicate Usable(a: IP) {
    var ip := a.address.addr;
    if ip.V4? || IsLinkLocalUnicast(ip) then false else !a.temporary && !a.tentative
  }

  predicate CoversUsable(p: Prefix, addrs: seq<IP>) {
    exists a :: a in addrs && Usable(a) && Contains(p, a.address.addr)
  }

  /** Routes considered at all: IPv6 and not a single address. */
  predicate Eligible(p: Prefix) {
    p.addr.V6? && !IsSingleIP(p)
  }

  predicate CoveredBy(p: Prefix, q: Prefix) {
    q.bits < p.bits && Contains(q, p.addr)
  }

  predicate IsCovered(p: Prefix, ps: seq<Prefix>) {
    exists q :: q in ps && CoveredBy(p, q)
  }

  function ByAddr(): Prefix -> int {
    (p: Prefix) => Rank(p.addr)
  }

  // The lists the plugin builds, as functions of the system's answers

  /** The distinct prefixes of the eligible covering routes, in order of first appearance. */
  function Covering(routes: seq<Route>, addrs: seq<IP>): (r: seq<Prefix>) {
    if routes == [] then [] else
    var init := Covering(routes[..|routes| - 1], addrs);
    var p := routes[|routes| - 1].prefix;
    if Eligible(p) && CoversUsable(p, addrs) && p !in init then init + [p] else init
  }

  function Keep(ps: seq<Prefix>, all: seq<Prefix>): seq<Prefix> {
    if ps == [] then [] else
    var init := Keep(ps[..|ps| - 1], all);
    var p := ps[|ps| - 1];
    if IsCovered(p, all) then init else init + [p]
  }

  function Uncovered(ps: seq<Prefix>): seq<Prefix> {
    Keep(ps, ps)
  }

  function AutoRoutes(routes: seq<Route>, addrs: seq<IP>): seq<Prefix> {
    SortBy(Uncovered(Covering(routes, addrs)), ByAddr())
  }

  /** The distinct masked prefixes of the usable addresses with a mask of `bits`, in order of first appearance. */
  function Networks(addrs: seq<IP>, bits: nat): seq<Prefix> {
    if addrs == [] then [] else
    var init := Networks(addrs[..|addrs| - 1], bits);
    var a := addrs[|addrs| - 1];
    if Usable(a) && a.address.bits == bits && Masked(a.address) !in init then init + [Masked(a.address)] else init
  }

  function AutoPrefixes(addrs: seq<IP>, bits: nat): seq<Prefix> {
    SortBy(Networks(addrs, bits), ByAddr())
  }

  // The loops of the source

  method CoveringRoutes(routes: seq<Route>, addrs: seq<IP>) returns (prefixes: seq<Prefix>)
    ensures prefixes == Covering(routes, addrs)
  {
    prefixes := [];
    var seen: set<Prefix> := {};
    for i := 0 to |routes|
      invariant prefixes == Covering(routes[..i], addrs)
      invariant forall p :: p in seen <==> p in prefixes
    {
      assert routes[..i + 1][..i] == routes[..i];
      var p := routes[i].prefix;
      if p.addr.V4? || IsSingleIP(p) {
        continue;
      }
      if p in seen {
        continue;
      }
      if !CoversUsable(p, addrs) {
        continue;
      }
      seen := seen + {p};
      prefixes := prefixes + [p];
    }
    assert routes[..|routes|] == routes;
  }

  method UncoveredPrefixes(prefixes: seq<Prefix>) returns (out: seq<Prefix>)
    ensures out == Uncovered(prefixes)
  {
    out := [];
    for i := 0 to |prefixes|
      invariant out == Keep(prefixes[..i], prefixes)
    {
      assert prefixes[..i + 1][..i] == prefixes[..i];
      if !IsCovered(prefixes[i], prefixes) {
        out := out + [prefixes[i]];
      }
    }
    assert prefixes[..|prefixes|] == prefixes;
  }

  method CurrentRoutes(routes: Fetch<seq<Route>>, addrs: Fetch<seq<IP>>) returns (r: Result<seq<Prefix>, Error>)
    ensures r.Ok? <==> routes.Fetched? && addrs.Fetched?
    ensures r.Ok? ==> r.value == AutoRoutes(routes.value, addrs.value)
    ensures r == Err(NotPrepared) <==> routes.Unset? || addrs.Unset?
    ensures r == Err(RoutesFailed) <==> routes.Failed? && !addrs.Unset?
    ensures r == Err(AddrsFailed) <==> routes.Fetched? && addrs.Failed?
  {
    if routes.Unset? || addrs.Unset? {
      return Err(NotPrepared);
    }
    if routes.Failed? {
      return Err(RoutesFailed);
    }
    if addrs.Failed? {
      return Err(AddrsFailed);
    }
    var covering := CoveringRoutes(routes.value, addrs.value);
    var prefixes := UncoveredPrefixes(covering);
    return Ok(SortBy(prefixes, ByAddr()));
  }

  method CurrentPrefixes(addrs: Fetch<seq<IP>>, bits: nat) returns (r: Result<seq<Prefix>, Error>)
    requires !addrs.Unset?
    ensures r == if addrs.Failed? then Err(AddrsFailed) else Ok(AutoPrefixes(addrs.value, bits))
  {
    if addrs.Failed? {
      return Err(AddrsFailed);
    }
    var prefixes: seq<Prefix> := [];
    var seen: set<Prefix> := {};
    for i := 0 to |addrs.value|
      invariant prefixes == Networks(addrs.value[..i], bits)
      invariant forall p :: p in seen <==> p in prefixes
    {
      assert addrs.value[..i + 1][..i] == addrs.value[..i];
      var a := addrs.value[i];
      if !Usable(a) || a.address.bits != bits {
        continue;
      }
      var p := Masked(a.address);
      if p in seen {
        continue;
      }
      seen := seen + {p};
      prefixes := prefixes + [p];
    }
    assert addrs.value[..|addrs.value|] == addrs.value;
    return Ok(SortBy(prefixes, ByAddr()));
  }
}
