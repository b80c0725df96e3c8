/** The choice of a DNS server in terms of the kernel's flags and of numbers. */
module RdnssLaws {
  import opened Netip
  import opened Wrappers
  import opened Addresser
  import opened AddressLaws
  import opened Rdnss

  /** Meant for long-term use: never to expire, with temporary addresses beside it, the same whenever the host
      comes back to the network, or made from a hardware address (fffe above the last three bytes). */
  predicate LongTerm(a: IP) {
    a.validForever || a.manageTemporaryAddresses || a.stablePrivacy || a.address.addr.n / 0x100_0000 % 0x1_0000 == 0xfffe
  }

  /** fc00::/7, then other addresses outside fe80::/10, ff00::/8, :: and ::1, then fe80::/10, then the rest. */
  function Scope(a: Addr): nat
    requires a.V6?
  {
    if Contains(WordPrefix(0xfc00, 7), a) then 0
    else if a.n > 1 && !Contains(WordPrefix(0xfe80, 10), a) && !Contains(WordPrefix(0xff00, 8), a) then 1
    else if Contains(WordPrefix(0xfe80, 10), a) then 2
    else 3
  }

  /** May serve DNS: IPv6, and neither deprecated, nor temporary, nor tentative. */
  predicate Candidate(a: IP) {
    a.address.addr.V6? && !a.deprecated && !a.temporary && !a.tentative
  }

  /** Long-term addresses first, then by scope, then by number. */
  predicate Ahead(a: IP, b: IP)
    requires a.address.addr.V6? && b.address.addr.V6?
  {
    var x, y := a.address.addr, b.address.addr;
    || (LongTerm(a) && !LongTerm(b))
    || (LongTerm(a) == LongTerm(b) && Scope(x) < Scope(y))
    || (LongTerm(a) == LongTerm(b) && Scope(x) == Scope(y) && x.n < y.n)
  }

  lemma StableIsLongTerm(a: IP)
    requires a.address.addr.V6?
    ensures IsStable(a) <==> LongTerm(a)
  {
    EUI64Form(a.address.addr);
  }

  lemma ClassIsScope(a: Addr)
    requires a.V6?
    ensures Class(a) == Scope(a)
  {
    ClassPrefixes(a);
    GlobalAddresses(a);
  }

  lemma PreferredIsAhead(a: IP, b: IP)
    requires a.address.addr.V6? && b.address.addr.V6?
    ensures Preferred(a, b) <==> Ahead(a, b)
  {
    StableIsLongTerm(a);
    StableIsLongTerm(b);
    ClassIsScope(a.address.addr);
    ClassIsScope(b.address.addr);
  }

  /** The server chosen is the address of a candidate that none is ahead of; there is none without a candidate. */
  lemma ServerExactly(addrs: seq<IP>)
    ensures match Server(Fetched(addrs))
            case Err(_) => forall a :: a in addrs ==> !Candidate(a)
            case Ok(ip) => exists a :: a in addrs && Candidate(a) && a.address.addr == ip &&
                             forall b :: b in addrs && Candidate(b) ==> !Ahead(b, a)
  {
    BestIsMinimum(addrs);
    if Best(addrs).Some? {
      var a := Best(addrs).value;
      forall b | b in addrs && Candidate(b)
        ensures !Ahead(b, a)
      {
        assert Admissible(b);
        PreferredIsAhead(b, a);
      }
      assert Candidate(a);
    } else {
      assert forall a :: a in addrs && Candidate(a) ==> Admissible(a);
    }
  }

  /** A long-term candidate always wins over those that are not. */
  lemma LongTermWins(addrs: seq<IP>, a: IP) returns (best: IP)
    requires a in addrs && Candidate(a) && LongTerm(a)
    ensures best in addrs && Candidate(best) && LongTerm(best) && Server(Fetched(addrs)) == Ok(best.address.addr)
  {
    BestIsMinimum(addrs);
    assert Admissible(a);
    best := Best(addrs).value;
    PreferredIsAhead(a, best);
    assert !Ahead(a, best);
  }
}
