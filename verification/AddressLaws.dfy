/** What containment and the classes of addresses mean in numbers. */
module AddressLaws {
  import opened Netip
  import Rdnss
  import Scheduler

  /** A prefix holds the addresses of its family from its network address on, a power of two of them. */
  lemma ContainsInterval(p: Prefix, a: Addr)
    ensures var size, base := Pow2(p.addr.BitLen() - p.bits), Masked(p).addr.n;
            && base % size == 0 && base <= p.addr.n < base + size
            && Masked(p).bits == p.bits && SameFamily(Masked(p).addr, p.addr)
            && (Contains(p, a) <==> SameFamily(p.addr, a) && base <= a.n < base + size)
  {
    var size := Pow2(p.addr.BitLen() - p.bits);
    DivMod(p.addr.n, size);
    var k: nat := p.addr.n / size;
    assert Masked(p).addr.n == k * size == size * k;
    MultipleMod(k, size);
    if SameFamily(p.addr, a) {
      BlockInterval(a.n, size, k);
    }
  }

  lemma MultipleMod(k: nat, d: nat)
    requires d >= 1
    ensures k * d % d == 0
  {
    MultipleDiv(k, d);
    DivMod(k * d, d);
    assert d * k == k * d;
  }

  lemma BlockInterval(n: nat, size: nat, k: nat)
    requires size >= 1
    ensures n / size == k <==> k * size <= n < k * size + size
  {
    DivMod(n, size);
    var q: nat := n / size;
    assert size * q == q * size;
    if k * size <= n < k * size + size {
      assert size * k == k * size;
      DivUnique(n, size, k, n - k * size);
    }
  }

  // Well-known prefixes

  lemma WordFits(w: nat)
    requires w < 0x1_0000
    ensures 0 <= w * Pow2(112) < Pow2(128)
  {
    Pow2Words();
    Pow2Above(16, 112, w);
    MulMono(w, 0, Pow2(112));
  }

  /** The prefix of some length whose address has w as its first 16 bits and zeros after them. */
  function WordPrefix(w: nat, bits: nat): Prefix
    requires w < 0x1_0000 && bits <= 128
  {
    WordFits(w);
    var n: nat := w * Pow2(112);
    Prefix(V6(n), bits)
  }

  /** The first bits of a well-known prefix. */
  lemma WordBlock(w: nat, k: nat, bits: nat)
    requires bits <= 16 && w == k * Pow2(16 - bits) && w < 0x1_0000
    ensures Block(WordPrefix(w, bits).addr, bits) == k
  {
    var d := Pow2(128 - bits);
    Pow2Add(16 - bits, 112);
    assert w * Pow2(112) == k * d by {
      Associate(k, Pow2(16 - bits), Pow2(112));
    }
    MultipleDiv(k, d);
  }

  lemma Associate(a: nat, b: nat, c: nat)
    ensures a * b * c == a * (b * c)
  {
  }

  /** The classes of IPv6 addresses are well-known prefixes: fe80::/10, fc00::/7 and ff00::/8. */
  lemma ClassPrefixes(a: Addr)
    requires a.V6?
    ensures IsLinkLocalUnicast(a) <==> Contains(WordPrefix(0xfe80, 10), a)
    ensures IsPrivate(a) <==> Contains(WordPrefix(0xfc00, 7), a)
    ensures IsMulticast(a) <==> Contains(WordPrefix(0xff00, 8), a)
  {
    assert Pow2(6) == 64 && Pow2(9) == 512 && Pow2(8) == 256;
    WordBlock(0xfe80, 0x3fa, 10);
    WordBlock(0xfc00, 0x7e, 7);
    WordBlock(0xff00, 0xff, 8);
  }

  /** Global addresses are all others, except :: and ::1, and private ones are among them. */
  lemma GlobalAddresses(a: Addr)
    requires a.V6?
    ensures IsGlobalUnicast(a) <==>
            a.n > 1 && !Contains(WordPrefix(0xfe80, 10), a) && !Contains(WordPrefix(0xff00, 8), a)
  {
    ClassPrefixes(a);
  }

  lemma Pow2Large()
    ensures Pow2(64) == 0x1_0000_0000_0000_0000
    ensures Pow2(96) == 0x1_0000_0000_0000_0000_0000_0000
    ensures Pow2(112) == 0x1_0000_0000_0000_0000_0000_0000_0000
  {
    Pow2Words();
    Pow2Add(32, 32);
    Pow2Add(32, 64);
    Pow2Add(16, 96);
  }

  /** The group ff02::1 of all nodes, and what is a group. */
  lemma Groups(a: Addr)
    ensures Scheduler.ToGroup(a) <==> a.V6? && Contains(WordPrefix(0xff00, 8), a)
    ensures Scheduler.AllNodes() == V6(0xff02_0000_0000_0000_0000_0000_0000_0001)
  {
    if a.V6? {
      ClassPrefixes(a);
    }
    Pow2Large();
  }

  /** The order of addresses: IPv4 first, then by number. */
  lemma RankOrder(a: Addr, b: Addr)
    ensures Rank(a) < Rank(b) <==> (a.V4? && b.V6?) || (a.V4? == b.V4? && a.n < b.n)
    ensures Rank(a) == Rank(b) <==> a == b
  {
  }

  /** An address in EUI-64 format has fffe above its last three bytes. */
  lemma EUI64Form(a: Addr)
    requires a.V6?
    ensures Rdnss.IsEUI64(a) <==> a.n / 0x100_0000 % 0x1_0000 == 0xfffe
  {
    MiddleBytes(a);
    TwoBytes(a.n / 0x100_0000);
  }

  lemma TwoBytes(n: nat)
    ensures n % 0x1_0000 == 0x100 * (n / 0x100 % 0x100) + n % 0x100
  {
    var h: nat := n / 0x100;
    var t, m, lo := h / 0x100, h % 0x100, n % 0x100;
    assert n == 0x1_0000 * t + (0x100 * m + lo);
  }

  lemma MiddleBytes(a: Addr)
    requires a.V6?
    ensures Byte(a, 11) == a.n / 0x100_0000 / 0x100 % 0x100
    ensures Byte(a, 12) == a.n / 0x100_0000 % 0x100
  {
    Pow2Words();
    Pow2Add(16, 8);
    assert Block(a, 104) == a.n / 0x100_0000;
    BlockCoarsen(a, 96, 104);
  }
}
