/** Membership of an address in a CIDR block, as net.IPNet.Contains decides it. */
module Cidr {

  /** An address with its family; `bits` is the address read as an unsigned number. */
  datatype Ip = Ip(v6: bool, bits: nat)

  /** A parsed CIDR block: any address inside it and the prefix length. */
  datatype RawPrefix = RawPrefix(v6: bool, base: nat, len: nat)

  type Prefix = p: RawPrefix | ValidPrefix(p) witness RawPrefix(false, 0, 0)

  function Pow2(n: nat): (p: nat)
    ensures p > 0
  {
    if n == 0 then 1 else 2 * Pow2(n - 1)
  }

  function Width(v6: bool): nat {
    if v6 then 128 else 32
  }

  predicate ValidPrefix(p: RawPrefix) {
    p.len <= Width(p.v6) && p.base < Pow2(Width(p.v6))
  }

  /** How many addresses share the first `p.len` bits. */
  function BlockSize(p: Prefix): (n: nat)
    ensures n > 0
  {
    Pow2(Width(p.v6) - p.len)
  }

  /** Masking off the host bits of both sides and comparing is comparing quotients. */
  predicate Contains(p: Prefix, ip: Ip)
  {
    ip.v6 == p.v6 && ip.bits / BlockSize(p) == p.base / BlockSize(p)
  }

  function First(p: Prefix): int
  {
    p.base / BlockSize(p) * BlockSize(p)
  }

  lemma QuotientIsInterval(x: nat, q: nat, n: nat)
    requires n > 0
    ensures x / n == q <==> q * n <= x < q * n + n
  {
    assert x == x / n * n + x % n;
    if x / n < q {
      assert (x / n + 1) * n <= q * n;
    } else if x / n > q {
      assert (q + 1) * n <= x / n * n;
    }
  }

  /** A prefix is the interval of the addresses from its first one. */
  lemma ContainsIsInterval(p: Prefix, ip: Ip)
    ensures Contains(p, ip) <==> ip.v6 == p.v6 && First(p) <= ip.bits < First(p) + BlockSize(p)
  {
    QuotientIsInterval(ip.bits, p.base / BlockSize(p), BlockSize(p));
  }

  lemma {:induction false} Pow2Splits(a: nat, b: nat)
    ensures Pow2(a + b) == Pow2(a) * Pow2(b)
  {
    if a != 0 { Pow2Splits(a - 1, b); }
  }

  lemma MulMonotone(x: int, y: int, n: nat)
    requires x <= y
    ensures x * n <= y * n
  {
  }

  lemma IntervalOfInterval(x: nat, y: nat, q: nat, a: nat, b: nat)
    requires q * b <= y < q * b + b && y * a <= x < y * a + a
    ensures q * (b * a) <= x < q * (b * a) + b * a
  {
    MulMonotone(q * b, y, a);
    MulMonotone(y + 1, q * b + b, a);
    assert (y + 1) * a == y * a + a;
    assert (q * b + b) * a == q * b * a + b * a;
    assert q * b * a == q * (b * a);
  }

  lemma QuotientOfQuotient(x: nat, a: nat, b: nat)
    requires a > 0 && b > 0
    ensures b * a > 0 && x / (b * a) == x / a / b
  {
    assert b * a > 0 by { MulMonotone(1, b, a); }
    QuotientIsInterval(x / a, x / a / b, b);
    QuotientIsInterval(x, x / a, a);
    IntervalOfInterval(x, x / a, x / a / b, a, b);
    QuotientIsInterval(x, x / a / b, b * a);
  }

  /** Two prefixes are nested or disjoint (section 3.1 of RFC 4632): if they share one address,
      the one with the longer prefix lies inside the other. */
  lemma NestedOrDisjoint(p: Prefix, q: Prefix, shared: Ip, ip: Ip)
    requires p.len <= q.len
    requires Contains(p, shared) && Contains(q, shared)
    ensures Contains(q, ip) ==> Contains(p, ip)
  {
    var a, b := BlockSize(q), Pow2(q.len - p.len);
    Pow2Splits(q.len - p.len, Width(q.v6) - q.len);
    assert BlockSize(p) == b * a;
    QuotientOfQuotient(shared.bits, a, b);
    QuotientOfQuotient(ip.bits, a, b);
  }

  predicate Disjoint(p: Prefix, q: Prefix)
  {
    p.v6 != q.v6 || First(p) + BlockSize(p) <= First(q) || First(q) + BlockSize(q) <= First(p)
  }

  lemma DisjointShareNothing(p: Prefix, q: Prefix, ip: Ip)
    requires Disjoint(p, q)
    ensures !(Contains(p, ip) && Contains(q, ip))
  {
    ContainsIsInterval(p, ip);
    ContainsIsInterval(q, ip);
  }

  // ---------- bit by bit ----------

  /** The number without its last `n` bits. */
  function Halved(x: nat, n: nat): nat
    decreases n
  {
    if n == 0 then x else Halved(x / 2, n - 1)
  }

  /** The bit with `i` bits after it. */
  function Bit(x: nat, i: nat): nat {
    Halved(x, i) % 2
  }

  lemma {:induction false} HalvedIsQuotient(x: nat, n: nat)
    ensures Halved(x, n) == x / Pow2(n)
    decreases n
  {
    if n > 0 {
      HalvedIsQuotient(x / 2, n - 1);
      QuotientOfQuotient(x, 2, Pow2(n - 1));
    }
  }

  lemma {:induction false} HalvedTwice(x: nat, m: nat, n: nat)
    ensures Halved(Halved(x, m), n) == Halved(x, m + n)
    decreases m
  {
    if m > 0 { HalvedTwice(x / 2, m - 1, n); }
  }

  /** A number is its bits. */
  lemma {:induction false} SameBits(x: nat, y: nat)
    requires forall i: nat :: Bit(x, i) == Bit(y, i)
    ensures x == y
    decreases x + y
  {
    assert Bit(x, 0) == x % 2 && Bit(y, 0) == y % 2;
    if x + y > 0 {
      forall i: nat ensures Bit(x / 2, i) == Bit(y / 2, i) {
        assert Bit(x, i + 1) == Bit(y, i + 1);
      }
      SameBits(x / 2, y / 2);
    }
  }

  /** The bits down to the one with `n` bits after it. */
  lemma SameLeadingBits(x: nat, y: nat, n: nat)
    ensures Halved(x, n) == Halved(y, n) <==> forall i: nat :: n <= i ==> Bit(x, i) == Bit(y, i)
  {
    if Halved(x, n) == Halved(y, n) {
      forall i: nat | n <= i ensures Bit(x, i) == Bit(y, i) {
        HalvedTwice(x, n, i - n);
        HalvedTwice(y, n, i - n);
      }
    } else if forall i: nat :: n <= i ==> Bit(x, i) == Bit(y, i) {
      forall i: nat ensures Bit(Halved(x, n), i) == Bit(Halved(y, n), i) {
        HalvedTwice(x, n, i);
        HalvedTwice(y, n, i);
        assert Bit(x, n + i) == Bit(y, n + i);
      }
      SameBits(Halved(x, n), Halved(y, n));
    }
  }

  /** The base fits the width of its family: no bit stands further left. */
  lemma BaseFits(p: Prefix, i: nat)
    requires Width(p.v6) <= i
    ensures Bit(p.base, i) == 0
  {
    HalvedIsQuotient(p.base, Width(p.v6));
    QuotientIsInterval(p.base, 0, Pow2(Width(p.v6)));
    HalvedTwice(p.base, Width(p.v6), i - Width(p.v6));
    HalvedIsQuotient(0, i - Width(p.v6));
  }

  /** The address fits the width of its family, as every parsed one does. */
  predicate Fits(ip: Ip) {
    Halved(ip.bits, Width(ip.v6)) == 0
  }

  /** Membership is agreement of the family and of the first `p.len` of 32 or 128 bits. */
  lemma ContainsIsLeadingBits(p: Prefix, ip: Ip)
    requires Fits(ip)
    ensures Contains(p, ip) <==>
            && ip.v6 == p.v6
            && forall i: nat :: Width(p.v6) - p.len <= i < Width(p.v6) ==> Bit(ip.bits, i) == Bit(p.base, i)
  {
    if ip.v6 == p.v6 {
      var w, host := Width(p.v6), Width(p.v6) - p.len;
      HalvedIsQuotient(ip.bits, host);
      HalvedIsQuotient(p.base, host);
      SameLeadingBits(ip.bits, p.base, host);
      forall i: nat | w <= i ensures Bit(ip.bits, i) == Bit(p.base, i) {
        BaseFits(p, i);
        HalvedTwice(ip.bits, w, i - w);
        HalvedIsQuotient(0, i - w);
      }
    }
  }

  /** What a block can be: up to 32 or 128 prefix bits, and a base of 32 or 128 bits. */
  lemma ValidIff(p: RawPrefix)
    ensures ValidPrefix(p) <==> p.len <= (if p.v6 then 128 else 32) && Halved(p.base, if p.v6 then 128 else 32) == 0
  {
    HalvedIsQuotient(p.base, Width(p.v6));
    QuotientIsInterval(p.base, 0, Pow2(Width(p.v6)));
  }

  /** A prefix of full width holds its base only. */
  lemma FullWidthIsOne(p: Prefix, ip: Ip)
    requires p.len == Width(p.v6)
    ensures Contains(p, ip) <==> ip == Ip(p.v6, p.base)
  {
  }

  /** A prefix that leaves one byte open, as 10.0.0.0/24 does, holds what differs in the last byte. */
  lemma ByteBlock(p: Prefix, ip: Ip)
    requires p.len == if p.v6 then 120 else 24
    ensures Contains(p, ip) <==> ip.v6 == p.v6 && ip.bits / 256 == p.base / 256
  {
    assert Pow2(8) == 256;
  }
}
