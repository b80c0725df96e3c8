/** Automatic selection of a DNS server address (package plugin). */
module Rdnss {
  import opened Netip
  import opened Wrappers
  import opened Addresser
  import Selection

  /** IPv6 addresses that may serve DNS. */
  predicate Admissible(a: IP) {
    a.address.addr.V6? && !a.deprecated && !a.temporary && !a.tentative
  }

  /** An address in EUI-64 format has ff:fe in bytes 11 and 12. */
  predicate IsEUI64(a: Addr)
    requires a.V6?
  {
    Byte(a, 11) == 0xff && Byte(a, 12) == 0xfe
  }

  predicate IsStable(a: IP)
    requires a.address.addr.V6?
  {
    a.validForever || a.manageTemporaryAddresses || a.stablePrivacy || IsEUI64(a.address.addr)
  }

  /** The class tests, in the order in which they are tried. */
  predicate Test(i: nat, a: Addr)
    requires i < 3 && a.V6?
  {
    match i
    case 0 => IsPrivate(a)
    case 1 => IsGlobalUnicast(a)
    case 2 => IsLinkLocalUnicast(a)
  }

  function LesserAddr(best: IP, current: IP): IP {
    if Rank(current.address.addr) < Rank(best.address.addr) then current else best
  }

  /** The loop over the class tests, from test i on. */
  function CompareFrom(i: nat, best: IP, current: IP): IP
    requires i <= 3 && best.address.addr.V6? && current.address.addr.V6?
    decreases 3 - i
  {
    if i == 3 then LesserAddr(best, current) else
    var okC, okB := Test(i, current.address.addr), Test(i, best.address.addr);
    if okC && !okB then current
    else if !okC && okB then best
    else if okC && okB then LesserAddr(best, current)
    else CompareFrom(i + 1, best, current)
  }

  /** The zero value that stands for "no best address yet" is None. */
  function BetterRDNSS(best: Option<IP>, current: IP): IP
    requires current.address.addr.V6? && (best.Some? ==> best.value.address.addr.V6?)
  {
    if best.None? then current else
    var okC, okB := IsStable(current), IsStable(best.value);
    if okC && !okB then current
    else if !okC && okB then best.value
    else CompareFrom(0, best.value, current)
  }

  // The order the comparison should follow

  /** Private, global, link-local, other. */
  function Class(a: Addr): nat
    requires a.V6?
  {
    if IsPrivate(a) then 0 else if IsGlobalUnicast(a) then 1 else if IsLinkLocalUnicast(a) then 2 else 3
  }

  /** Lexicographic: stable first, then by class, then by address. */
  predicate Preferred(a: IP, b: IP)
    requires a.address.addr.V6? && b.address.addr.V6?
  {
    if IsStable(a) != IsStable(b) then IsStable(a) else
    var x, y := a.address.addr, b.address.addr;
    if Class(x) != Class(y) then Class(x) < Class(y) else x.n < y.n
  }

  /** ip is the address of an admissible element of addrs to which no other is preferred. */
  ghost predicate IsBest(addrs: seq<IP>, ip: Addr) {
    exists a :: a in addrs && Admissible(a) && a.address.addr == ip &&
      forall b :: b in addrs && Admissible(b) ==> !Preferred(b, a)
  }

  /** The chosen address as a function of the list. */
  function Best(addrs: seq<IP>): (best: Option<IP>)
    ensures best.Some? ==> Admissible(best.value)
  {
    if addrs == [] then None else
    var best := Best(addrs[..|addrs| - 1]);
    var a := addrs[|addrs| - 1];
    if Admissible(a) then Some(BetterRDNSS(best, a)) else best
  }

  method CurrentServer(addrs: Fetch<seq<IP>>) returns (r: Result<Addr, Selection.Error>)
    requires !addrs.Unset?
    ensures r == Server(addrs)
    ensures addrs.Failed? ==> r == Err(Selection.AddrsFailed)
    ensures addrs.Fetched? ==> (r.Ok? <==> exists a :: a in addrs.value && Admissible(a))
    ensures r.Ok? ==> IsBest(addrs.value, r.value)
  {
    if addrs.Failed? {
      return Err(Selection.AddrsFailed);
    }
    var best: Option<IP> := None;
    for i := 0 to |addrs.value|
      invariant best == Best(addrs.value[..i])
    {
      assert addrs.value[..i + 1][..i] == addrs.value[..i];
      var a := addrs.value[i];
      if a.address.addr.V4? || a.deprecated || a.temporary || a.tentative {
        continue;
      }
      best := Some(BetterRDNSS(best, a));
    }
    assert addrs.value[..|addrs.value|] == addrs.value;
    BestIsMinimum(addrs.value);
    if best.None? {
      return Err(Selection.NoUsableAddress);
    }
    return Ok(best.value.address.addr);
  }

  function Server(addrs: Fetch<seq<IP>>): Result<Addr, Selection.Error>
    requires !addrs.Unset?
  {
    if addrs.Failed? then Err(Selection.AddrsFailed) else
    match Best(addrs.value)
    case None => Err(Selection.NoUsableAddress)
    case Some(a) => Ok(a.address.addr)
  }

  // Laws

  lemma CompareFromIsOrder(i: nat, best: IP, current: IP)
    requires i <= 3 && best.address.addr.V6? && current.address.addr.V6?
    requires IsStable(best) == IsStable(current)
    requires Class(best.address.addr) >= i && Class(current.address.addr) >= i
    ensures CompareFrom(i, best, current) == if Preferred(current, best) then current else best
    decreases 3 - i
  {
    if i < 3 && !Test(i, best.address.addr) && !Test(i, current.address.addr) {
      CompareFromIsOrder(i + 1, best, current);
    }
  }

  /** The hand-written comparison is the lexicographic order; a tie keeps the earlier address. */
  lemma BetterIsOrder(best: IP, current: IP)
    requires best.address.addr.V6? && current.address.addr.V6?
    ensures BetterRDNSS(Some(best), current) == if Preferred(current, best) then current else best
  {
    if IsStable(best) == IsStable(current) {
      CompareFromIsOrder(0, best, current);
    }
  }

  /** The order is strict and its incomparability is sameness of address, so it has one minimum. */
  lemma PreferredIsOrder(a: IP, b: IP, c: IP)
    requires a.address.addr.V6? && b.address.addr.V6? && c.address.addr.V6?
    ensures !Preferred(a, a)
    ensures !Preferred(b, a) && !Preferred(c, b) ==> !Preferred(c, a)
    ensures !Preferred(a, b) && !Preferred(b, a) ==> a.address.addr == b.address.addr
  {
  }

  lemma {:induction false} BestIsMinimum(addrs: seq<IP>)
    ensures Best(addrs).Some? <==> exists a :: a in addrs && Admissible(a)
    ensures Best(addrs).Some? ==> Best(addrs).value in addrs
    ensures Best(addrs).Some? ==> forall b :: b in addrs && Admissible(b) ==> !Preferred(b, Best(addrs).value)
  {
    if addrs != [] {
      var n := |addrs| - 1;
      var init, a := addrs[..n], addrs[n];
      BestIsMinimum(init);
      assert addrs == init + [a];
      if Admissible(a) && Best(init).Some? {
        var best := Best(init).value;
        BetterIsOrder(best, a);
        forall b | b in init && Admissible(b)
          ensures !Preferred(b, Best(addrs).value)
        {
          PreferredIsOrder(a, best, b);
          PreferredIsOrder(best, a, b);
        }
        PreferredIsOrder(best, a, a);
        PreferredIsOrder(a, best, best);
      }
    }
  }

  /** Two lists with the same addresses give the same server: order and repetition do not matter. */
  lemma BestUnique(addrs: seq<IP>, addrs': seq<IP>, x: Addr, y: Addr)
    requires forall a :: a in addrs <==> a in addrs'
    requires IsBest(addrs, x) && IsBest(addrs', y)
    ensures x == y
  {
    var a :| a in addrs && Admissible(a) && a.address.addr == x &&
      forall b :: b in addrs && Admissible(b) ==> !Preferred(b, a);
    var b :| b in addrs' && Admissible(b) && b.address.addr == y &&
      forall c :: c in addrs' && Admissible(c) ==> !Preferred(c, b);
    PreferredIsOrder(a, b, a);
  }

  lemma ServerInputOrder(addrs: seq<IP>, addrs': seq<IP>)
    requires forall a :: a in addrs <==> a in addrs'
    ensures Server(Fetched(addrs)) == Server(Fetched(addrs'))
  {
    BestIsMinimum(addrs);
    BestIsMinimum(addrs');
    if Best(addrs).Some? {
      BestUnique(addrs, addrs', Best(addrs).value.address.addr, Best(addrs').value.address.addr);
    }
  }
}
