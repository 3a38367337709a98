/** IP addresses and prefixes as `net/netip` treats them, and the table of non-public networks. */
module Cidr {
  /** A zone-free address: its family and its bits as a number. */
  datatype Addr = V4(bits: nat) | V6(bits: nat)

  predicate ValidAddr(a: Addr) {
    match a
    case V4(n) => n < 0x1_0000_0000
    case V6(n) => n < 0x1_0000_0000_0000_0000_0000_0000_0000_0000
  }

  /** The IPv6 addresses that stand for IPv4 ones, `::ffff:0:0/96`. */
  predicate Mapped(a: Addr) {
    a.V6? && a.bits / 0x1_0000_0000 == 0xFFFF
  }

  /** `Unmap`: an IPv4-mapped IPv6 address becomes the IPv4 address. */
  function Unmap(a: Addr): Addr {
    if Mapped(a) then V4(a.bits % 0x1_0000_0000) else a
  }

  function Width(a: Addr): nat {
    if a.V4? then 32 else 128
  }

  datatype Prefix = Prefix(addr: Addr, length: nat)

  predicate ValidPrefix(p: Prefix) {
    ValidAddr(p.addr) && p.length <= Width(p.addr)
  }

  function Pow2(k: nat): (r: nat)
    ensures r > 0
  {
    if k == 0 then 1 else 2 * Pow2(k - 1)
  }

  /** How many addresses a prefix covers. */
  function Size(p: Prefix): (n: nat)
    requires ValidPrefix(p)
    ensures n > 0
  {
    Pow2(Width(p.addr) - p.length)
  }

  predicate SameFamily(a: Addr, b: Addr) {
    a.V4? <==> b.V4?
  }

  /** `Prefix.Contains`: same family, and equal bits above the host part. */
  predicate Contains(p: Prefix, a: Addr)
    requires ValidPrefix(p)
  {
    SameFamily(p.addr, a) && a.bits / Size(p) == p.addr.bits / Size(p)
  }

  /** `Prefix.Masked`: the host part cleared. */
  function Masked(p: Prefix): (q: Prefix)
    requires ValidPrefix(p)
    ensures ValidPrefix(q) && q.length == p.length && SameFamily(q.addr, p.addr)
  {
    var bits := Floor(p.addr.bits, Size(p));
    Prefix(if p.addr.V4? then V4(bits) else V6(bits), p.length)
  }

  function Floor(n: nat, d: nat): (r: nat)
    requires d > 0
    ensures r <= n && r == n / d * d
  {
    Euclid(n, d);
    n - n % d
  }

  lemma Euclid(n: nat, d: nat)
    requires d > 0
    ensures n == n / d * d + n % d && n % d < d && n / d * d <= n
  {
  }

  /** A quotient is the number of the block of `d` a number falls in. */
  lemma Block(n: nat, d: nat, q: nat)
    requires d > 0
    ensures n / d == q <==> q * d <= n < q * d + d
  {
    Euclid(n, d);
    if n / d < q {
      assert (n / d + 1) * d <= q * d;
    } else if n / d > q {
      assert (q + 1) * d <= n / d * d;
    }
  }

  /** A prefix accepts exactly an interval of its family, the one its masked address begins. */
  lemma ContainsIsInterval(p: Prefix, a: Addr)
    requires ValidPrefix(p)
    ensures Contains(p, a)
            <==> SameFamily(p.addr, a) && Masked(p).addr.bits <= a.bits < Masked(p).addr.bits + Size(p)
  {
    hide Size, Pow2;
    Block(a.bits, Size(p), p.addr.bits / Size(p));
  }

  /** Storing a rule with its host bits cleared never changes the addresses it accepts. */
  lemma MaskingKeepsMeaning(p: Prefix, a: Addr)
    requires ValidPrefix(p)
    ensures Contains(Masked(p), a) <==> Contains(p, a)
  {
    var d := Size(p);
    assert Size(Masked(p)) == d;
    hide Size, Pow2;
    Block(Masked(p).addr.bits, d, p.addr.bits / d);
  }

  lemma RemainderFits(s: nat, r: nat, d: nat, e: nat)
    requires s < e && r < d
    ensures s * d + r < d * e
  {
    assert (s + 1) * d <= e * d;
  }

  lemma Distribute(q: nat, e: nat, s: nat, d: nat)
    ensures (q * e + s) * d == q * (d * e) + s * d
  {
    assert q * e * d == q * (d * e);
  }

  lemma PositiveProduct(d: nat, e: nat)
    requires d > 0 && e > 0
    ensures d * e > 0
  {
  }

  /** A number by its three digits in the mixed base `d`, `e`. */
  lemma Quotients(n: nat, d: nat, e: nat, q: nat, s: nat, r: nat)
    requires d > 0 && e > 0 && s < e && r < d
    requires n / d == q * e + s && n == n / d * d + r
    ensures d * e > 0 && n / (d * e) == q
  {
    PositiveProduct(d, e);
    var block, low := d * e, s * d + r;
    RemainderFits(s, r, d, e);
    Distribute(q, e, s, d);
    assert n == q * block + low;
    Block(n, block, q);
  }

  /** Dividing by a product is dividing twice. */
  lemma DivideTwice(n: nat, d: nat, e: nat)
    requires d > 0 && e > 0
    ensures d * e > 0 && n / (d * e) == n / d / e
  {
    Euclid(n, d);
    Euclid(n / d, e);
    Quotients(n, d, e, n / d / e, n / d % e, n % d);
  }

  /** A network whose mask reaches into the IPv4 part lies inside the mapped block or outside it. */
  lemma LongMaskKeepsBlock(p: Prefix, a: Addr)
    requires ValidPrefix(p) && p.addr.V6? && p.length >= 96 && Contains(p, a)
    ensures a.bits / 0x1_0000_0000 == p.addr.bits / 0x1_0000_0000
  {
    var d, e := Size(p), Pow2(p.length - 96);
    PowAdd(128 - p.length, p.length - 96);
    Pow2Values();
    hide Size, Pow2;
    DivideTwice(a.bits, d, e);
    DivideTwice(p.addr.bits, d, e);
  }

  /** A network with a shorter mask has addresses that are not mapped: one block lower. */
  lemma ShortMaskReachesOut(p: Prefix)
    requires ValidPrefix(p) && p.length < 96 && Mapped(p.addr)
    ensures var a := V6(p.addr.bits - 0x1_0000_0000); ValidAddr(a) && Contains(p, a) && Unmap(a) == a
  {
    var n, m := p.addr.bits, p.addr.bits - 0x1_0000_0000;
    var e := Pow2(95 - p.length);
    PowAdd(33, 95 - p.length);
    Pow2Values();
    hide Pow2;
    DivideTwice(n, 0x2_0000_0000, e);
    DivideTwice(m, 0x2_0000_0000, e);
    assert n / 0x2_0000_0000 == 0x7FFF == m / 0x2_0000_0000;
  }

  /** Addresses are unmapped before they are compared, so a network accepts none of them exactly if it lies in the
      IPv4-mapped block. */
  lemma AcceptsNothingExactly(p: Prefix)
    requires ValidPrefix(p)
    ensures (forall a :: ValidAddr(a) ==> !Contains(p, Unmap(a))) <==> Mapped(p.addr) && p.length >= 96
  {
    if Mapped(p.addr) && p.length >= 96 {
      forall a | ValidAddr(a) && Contains(p, Unmap(a))
        ensures false
      {
        LongMaskKeepsBlock(p, Unmap(a));
      }
    } else if Mapped(p.addr) {
      ShortMaskReachesOut(p);
    } else {
      assert Contains(p, Unmap(p.addr));
    }
  }

  // ----- non-public networks ----------------------------------------------------------------

  const NON_PUBLIC: seq<Prefix> := [
    Prefix(V4(0x0000_0000), 8), Prefix(V4(0x0A00_0000), 8), Prefix(V4(0x6440_0000), 10), Prefix(V4(0x7F00_0000), 8),
    Prefix(V4(0xA9FE_0000), 16), Prefix(V4(0xAC10_0000), 12), Prefix(V4(0xC000_0000), 24), Prefix(V4(0xC000_0200), 24),
    Prefix(V4(0xC0A8_0000), 16), Prefix(V4(0xC612_0000), 15), Prefix(V4(0xC633_6400), 24), Prefix(V4(0xCB00_7100), 24),
    Prefix(V4(0xE000_0000), 4), Prefix(V4(0xF000_0000), 4), Prefix(V6(0), 128), Prefix(V6(1), 128),
    Prefix(V6(0xFC00_0000_0000_0000_0000_0000_0000_0000), 7), Prefix(V6(0xFE80_0000_0000_0000_0000_0000_0000_0000), 10),
    Prefix(V6(0xFF00_0000_0000_0000_0000_0000_0000_0000), 8), Prefix(V6(0x2001_0DB8_0000_0000_0000_0000_0000_0000), 32)]

  /** `IsGlobalUnicast`: not unspecified, limited broadcast, loopback, multicast or link-local. */
  predicate IsGlobalUnicast(a: Addr) {
    match a
    case V4(n) =>
      n != 0 && n != 0xFFFF_FFFF && n / 0x100_0000 != 127 && n / 0x1000_0000 != 14 && n / 0x1_0000 != 0xA9FE
    case V6(n) =>
      n != 0 && n != 1 && n / 0x1_00_0000_0000_0000_0000_0000_0000_0000 != 0xFF
      && n / 0x40_0000_0000_0000_0000_0000_0000_0000 != 0x3FA
  }

  ghost predicate InTable(a: Addr) {
    exists k :: 0 <= k < |NON_PUBLIC| && ValidPrefix(NON_PUBLIC[k]) && Contains(NON_PUBLIC[k], a)
  }

  /** `IsNonPublic`, said without its loop. */
  ghost predicate NonPublic(a: Addr) {
    InTable(Unmap(a)) || !IsGlobalUnicast(Unmap(a))
  }

  method IsNonPublic(address: Addr) returns (r: bool)
    requires ValidAddr(address)
    ensures r <==> NonPublic(address)
  {
    TableIsValid();
    hide Size, Contains;
    var a := Unmap(address);
    for k := 0 to |NON_PUBLIC|
      invariant forall j :: 0 <= j < k ==> !Contains(NON_PUBLIC[j], a)
    {
      if Contains(NON_PUBLIC[k], a) {
        return true;
      }
    }
    return !IsGlobalUnicast(a);
  }

  lemma TableIsValid()
    ensures forall k :: 0 <= k < |NON_PUBLIC| ==> ValidPrefix(NON_PUBLIC[k])
  {
  }

  datatype Interval = Interval(v4: bool, from: nat, to: nat)

  /** The same networks as ranges of addresses, first to last. */
  const RANGES: seq<Interval> := [
    Interval(true, 0x0000_0000, 0x00FF_FFFF), Interval(true, 0x0A00_0000, 0x0AFF_FFFF),
    Interval(true, 0x6440_0000, 0x647F_FFFF), Interval(true, 0x7F00_0000, 0x7FFF_FFFF),
    Interval(true, 0xA9FE_0000, 0xA9FE_FFFF), Interval(true, 0xAC10_0000, 0xAC1F_FFFF),
    Interval(true, 0xC000_0000, 0xC000_00FF), Interval(true, 0xC000_0200, 0xC000_02FF),
    Interval(true, 0xC0A8_0000, 0xC0A8_FFFF), Interval(true, 0xC612_0000, 0xC613_FFFF),
    Interval(true, 0xC633_6400, 0xC633_64FF), Interval(true, 0xCB00_7100, 0xCB00_71FF),
    Interval(true, 0xE000_0000, 0xEFFF_FFFF), Interval(true, 0xF000_0000, 0xFFFF_FFFF),
    Interval(false, 0, 0), Interval(false, 1, 1),
    Interval(false, 0xFC00_0000_0000_0000_0000_0000_0000_0000, 0xFDFF_FFFF_FFFF_FFFF_FFFF_FFFF_FFFF_FFFF),
    Interval(false, 0xFE80_0000_0000_0000_0000_0000_0000_0000, 0xFEBF_FFFF_FFFF_FFFF_FFFF_FFFF_FFFF_FFFF),
    Interval(false, 0xFF00_0000_0000_0000_0000_0000_0000_0000, 0xFFFF_FFFF_FFFF_FFFF_FFFF_FFFF_FFFF_FFFF),
    Interval(false, 0x2001_0DB8_0000_0000_0000_0000_0000_0000, 0x2001_0DB8_FFFF_FFFF_FFFF_FFFF_FFFF_FFFF)]

  predicate In(r: Interval, a: Addr) {
    r.v4 == a.V4? && r.from <= a.bits <= r.to
  }

  lemma Pow2Small()
    ensures Pow2(0) == 1 && Pow2(1) == 2 && Pow2(2) == 4 && Pow2(4) == 16
  {
  }

  lemma Pow2Values()
    ensures Pow2(0) == 1 && Pow2(8) == 0x100 && Pow2(16) == 0x1_0000 && Pow2(17) == 0x2_0000 && Pow2(20) == 0x10_0000
    ensures Pow2(22) == 0x40_0000 && Pow2(24) == 0x100_0000 && Pow2(28) == 0x1000_0000
    ensures Pow2(32) == 0x1_0000_0000 && Pow2(33) == 0x2_0000_0000
    ensures Pow2(96) == 0x1_0000_0000_0000_0000_0000_0000 && Pow2(118) == 0x40_0000_0000_0000_0000_0000_0000_0000
    ensures Pow2(120) == 0x1_00_0000_0000_0000_0000_0000_0000_0000 && Pow2(121) == 0x2_00_0000_0000_0000_0000_0000_0000_0000
  {
    hide Pow2;
    Pow2Small();
    PowAdd(4, 4);
    PowAdd(8, 8);
    PowAdd(16, 1);
    PowAdd(16, 4);
    PowAdd(20, 2);
    PowAdd(16, 8);
    PowAdd(24, 4);
    PowAdd(28, 4);
    PowAdd(32, 1);
    PowAdd(24, 24);
    PowAdd(48, 48);
    PowAdd(96, 22);
    PowAdd(96, 24);
    PowAdd(120, 1);
  }

  lemma {:induction false} PowAdd(j: nat, k: nat)
    ensures Pow2(j + k) == Pow2(j) * Pow2(k)
  {
    if k > 0 {
      PowAdd(j, k - 1);
    }
  }

  /** A prefix without host bits accepts the range that starts at its address. */
  lemma PrefixIsRange(p: Prefix, size: nat, a: Addr)
    requires ValidPrefix(p) && Size(p) == size && p.addr.bits % size == 0
    ensures Contains(p, a) <==> In(Interval(p.addr.V4?, p.addr.bits, p.addr.bits + size - 1), a)
  {
    hide Size, Pow2, Contains;
    ContainsIsInterval(p, a);
  }

  lemma RowIsRangeV4(k: nat, a: Addr)
    requires k < 14
    ensures Contains(NON_PUBLIC[k], a) <==> In(RANGES[k], a)
  {
    Pow2Values();
    hide Pow2;
    var p := NON_PUBLIC[k];
    var size := Size(p);
    assert p.addr.V4? && RANGES[k] == Interval(true, p.addr.bits, p.addr.bits + size - 1);
    hide Contains;
    PrefixIsRange(p, size, a);
  }

  lemma RowIsRangeV6(k: nat, a: Addr)
    requires 14 <= k < 20
    ensures Contains(NON_PUBLIC[k], a) <==> In(RANGES[k], a)
  {
    Pow2Values();
    hide Pow2;
    var p := NON_PUBLIC[k];
    var size := Size(p);
    assert p.addr.V6? && RANGES[k] == Interval(false, p.addr.bits, p.addr.bits + size - 1);
    hide Contains;
    PrefixIsRange(p, size, a);
  }

  /** What the global-unicast clause turns away, the table already does. */
  lemma NotGlobalUnicastIsInRanges(a: Addr)
    requires ValidAddr(a) && !IsGlobalUnicast(a)
    ensures exists k :: 0 <= k < |RANGES| && In(RANGES[k], a)
  {
    if a.V4? {
      assert In(RANGES[0], a) || In(RANGES[3], a) || In(RANGES[4], a) || In(RANGES[12], a) || In(RANGES[13], a);
    } else {
      assert In(RANGES[14], a) || In(RANGES[15], a) || In(RANGES[17], a) || In(RANGES[18], a);
    }
  }

  /** An address is non-public exactly when, unmapped, it lies in one of the ranges: the last clause adds nothing. */
  lemma NonPublicIsUnionOfRanges(a: Addr)
    requires ValidAddr(a)
    ensures NonPublic(a) <==> exists k :: 0 <= k < |RANGES| && In(RANGES[k], Unmap(a))
    ensures NonPublic(a) <==> InTable(Unmap(a))
  {
    var u := Unmap(a);
    assert ValidAddr(u);
    TableIsValid();
    hide Contains, In, IsGlobalUnicast;
    forall k | 0 <= k < |RANGES|
      ensures Contains(NON_PUBLIC[k], u) <==> In(RANGES[k], u)
    {
      if k < 14 {
        RowIsRangeV4(k, u);
      } else {
        RowIsRangeV6(k, u);
      }
    }
    if !IsGlobalUnicast(u) {
      NotGlobalUnicastIsInRanges(u);
    }
  }
}
