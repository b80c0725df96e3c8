/** IP addresses as numbers and prefixes as (address, length), with the operations
    that CoreRAD uses from Go's net/netip package. */
module Netip {

  function Pow2(k: nat): (r: nat)
    ensures r >= 1
  {
    if k == 0 then 1 else 2 * Pow2(k - 1)
  }

  datatype AddrValue = V4(n: nat) | V6(n: nat) {
    function BitLen(): nat {
      if V4? then 32 else 128
    }
  }

  type Addr = a: AddrValue | a.n < Pow2(a.BitLen()) witness V6(0)

  datatype PrefixValue = Prefix(addr: Addr, bits: nat)

  /** A valid prefix. The address may have host bits set, as in 2001:db8::1/64. */
  type Prefix = p: PrefixValue | p.bits <= p.addr.BitLen() witness Prefix(V6(0), 0)

  predicate SameFamily(a: Addr, b: Addr) {
    a.V4? == b.V4?
  }

  /** The first `bits` bits of an address. */
  function Block(a: Addr, bits: nat): nat
    requires bits <= a.BitLen()
  {
    var size := Pow2(a.BitLen() - bits);
    assert size >= 1;
    a.n / size
  }

  predicate Contains(p: Prefix, a: Addr) {
    SameFamily(p.addr, a) && Block(p.addr, p.bits) == Block(a, p.bits)
  }

  predicate Overlaps(p: Prefix, q: Prefix) {
    var bits := if p.bits < q.bits then p.bits else q.bits;
    SameFamily(p.addr, q.addr) && Block(p.addr, bits) == Block(q.addr, bits)
  }

  predicate IsSingleIP(p: Prefix) {
    p.bits == p.addr.BitLen()
  }

  /** The prefix with its host bits cleared. */
  function Masked(p: Prefix): Prefix {
    var n := MaskDown(p.addr.n, Pow2(p.addr.BitLen() - p.bits));
    Prefix(if p.addr.V4? then V4(n) else V6(n), p.bits)
  }

  /** The multiple of size at n or just below. */
  function MaskDown(n: nat, size: nat): (r: nat)
    requires size >= 1
    ensures r <= n
  {
    DivMod(n, size);
    n / size * size
  }

  predicate Canonical(p: Prefix) {
    Masked(p) == p
  }

  /** The position of an address in the order of netip.Addr.Compare: IPv4 first, then by value. */
  function Rank(a: Addr): nat {
    if a.V4? then a.n else Pow2(32) + a.n
  }

  /** p and q share no address. */
  ghost predicate Disjoint(p: Prefix, q: Prefix) {
    forall a: Addr :: !(Contains(p, a) && Contains(q, a))
  }

  /** Every address of q is an address of p. */
  ghost predicate Covers(p: Prefix, q: Prefix) {
    forall a: Addr :: Contains(q, a) ==> Contains(p, a)
  }

  // Arithmetic

  lemma MulMono(a: nat, b: nat, c: nat)
    requires b <= c
    ensures a * b <= a * c
  {
  }

  lemma DivUnique(x: nat, d: nat, q: nat, r: nat)
    requires r < d && x == d * q + r
    ensures x / d == q
  {
    var k := x / d;
    assert x == d * k + x % d;
    if q < k {
      MulMono(d, q + 1, k);
    } else {
      MulMono(d, k, q);
      if k < q {
        MulMono(d, k + 1, q);
      }
    }
  }

  /** Two nested divisions with remainder are one. */
  lemma NestedRemainder(a: nat, b: nat, q: nat, r1: nat, r2: nat)
    requires r1 < a && r2 < b
    ensures a * (b * q + r2) + r1 == (a * b) * q + (a * r2 + r1)
    ensures a * r2 + r1 < a * b
  {
    MulMono(a, r2 + 1, b);
  }

  lemma DivMod(x: nat, a: nat)
    requires a >= 1
    ensures x == a * (x / a) + x % a && 0 <= x % a < a && x / a >= 0
  {
  }

  lemma MultipleDiv(q: nat, d: nat)
    requires d >= 1
    ensures q * d / d == q
  {
    assert q * d == d * q + 0;
    DivUnique(q * d, d, q, 0);
  }

  lemma DivDiv(x: nat, a: nat, b: nat)
    requires a >= 1 && b >= 1
    ensures a * b >= 1 && x / (a * b) == x / a / b
  {
    DivMod(x, a);
    DivMod(x / a, b);
    var q: nat := x / a / b;
    var r1: nat := x % a;
    var r2: nat := x / a % b;
    NestedRemainder(a, b, q, r1, r2);
    DivUnique(x, a * b, q, a * r2 + r1);
  }

  lemma {:induction false} Pow2Add(i: nat, j: nat)
    ensures Pow2(i + j) == Pow2(i) * Pow2(j)
  {
    if i > 0 {
      Pow2Add(i - 1, j);
      assert Pow2(i + j) == 2 * Pow2(i - 1 + j);
    }
  }

  lemma Pow2Words()
    ensures Pow2(8) == 0x100 && Pow2(16) == 0x1_0000 && Pow2(32) == 0x1_0000_0000
  {
    assert Pow2(8) == 0x100;
    Pow2Add(8, 8);
    Pow2Add(16, 16);
  }

  lemma Pow2Above(k: nat, j: nat, n: nat)
    requires n < Pow2(k)
    ensures n * Pow2(j) + Pow2(j) <= Pow2(k + j)
  {
    Pow2Add(k, j);
    MulMono(Pow2(j), n + 1, Pow2(k));
  }

  // Containment

  /** A shorter block is determined by any longer one. */
  lemma BlockCoarsen(a: Addr, shorter: nat, longer: nat)
    requires shorter <= longer <= a.BitLen()
    ensures Block(a, shorter) == Block(a, longer) / Pow2(longer - shorter)
  {
    var w := a.BitLen();
    Pow2Add(w - longer, longer - shorter);
    DivDiv(a.n, Pow2(w - longer), Pow2(longer - shorter));
  }

  lemma BlockOfMasked(p: Prefix)
    ensures Block(Masked(p).addr, p.bits) == Block(p.addr, p.bits)
  {
    var size := Pow2(p.addr.BitLen() - p.bits);
    DivMod(p.addr.n, size);
    MultipleDiv(p.addr.n / size, size);
    assert Masked(p).addr.n == MaskDown(p.addr.n, size);
  }

  /** Masking changes the spelling of a prefix but not its addresses. */
  lemma MaskedSameAddresses(p: Prefix)
    ensures Canonical(Masked(p))
    ensures forall a: Addr :: Contains(Masked(p), a) <==> Contains(p, a)
  {
    BlockOfMasked(p);
  }

  /** Containment of the network address by a prefix no longer than the other is inclusion of address sets. */
  lemma ContainsIsCovers(p: Prefix, q: Prefix)
    requires p.bits <= q.bits && Contains(p, q.addr)
    ensures Covers(p, q)
  {
    forall a: Addr | Contains(q, a)
      ensures Contains(p, a)
    {
      BlockCoarsen(q.addr, p.bits, q.bits);
      BlockCoarsen(a, p.bits, q.bits);
    }
  }

  /** Two prefixes with a common address are nested. */
  lemma CommonAddressNests(p: Prefix, q: Prefix, a: Addr)
    requires Contains(p, a) && Contains(q, a) && p.bits <= q.bits
    ensures Contains(p, q.addr)
  {
    BlockCoarsen(q.addr, p.bits, q.bits);
    BlockCoarsen(a, p.bits, q.bits);
  }

  /** netip's Overlaps decides whether two prefixes share an address. */
  lemma OverlapsIsCommonAddress(p: Prefix, q: Prefix)
    ensures Overlaps(p, q) <==> !Disjoint(p, q)
  {
    if Overlaps(p, q) {
      if p.bits <= q.bits {
        assert Contains(p, q.addr) && Contains(q, q.addr);
      } else {
        assert Contains(p, p.addr) && Contains(q, p.addr);
      }
    } else if a: Addr :| Contains(p, a) && Contains(q, a) {
      if p.bits <= q.bits {
        CommonAddressNests(p, q, a);
      } else {
        CommonAddressNests(q, p, a);
      }
    }
  }

  /** Distinct canonical prefixes of one length share no address. */
  lemma CanonicalDisjoint(p: Prefix, q: Prefix)
    requires Canonical(p) && Canonical(q) && p.bits == q.bits && p != q
    ensures Disjoint(p, q)
  {
  }

  // Address classes of native IPv6 addresses

  predicate IsUnspecified(a: Addr) {
    a.n == 0
  }

  /** fe80::/10 */
  predicate IsLinkLocalUnicast(a: Addr)
    requires a.V6?
  {
    Block(a, 10) == 0x3fa
  }

  /** fc00::/7 */
  predicate IsPrivate(a: Addr)
    requires a.V6?
  {
    Block(a, 7) == 0x7e
  }

  /** ff00::/8 */
  predicate IsMulticast(a: Addr)
    requires a.V6?
  {
    Block(a, 8) == 0xff
  }

  predicate IsGlobalUnicast(a: Addr)
    requires a.V6?
  {
    a.n != 0 && a.n != 1 && !IsMulticast(a) && !IsLinkLocalUnicast(a)
  }

  /** Byte i of the 16-byte form, most significant first. */
  function Byte(a: Addr, i: nat): nat
    requires a.V6? && i < 16
  {
    Block(a, 8 * (i + 1)) % 256
  }
}
