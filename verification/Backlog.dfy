/** The loop that notifies a new peer of a product's segments. It has no check that could stop it
    once its 32-bit offset has wrapped around. */
module Backlog {
  import opened Common
  import opened Segmentation

  function Pow2(n: nat): nat {
    if n == 0 then 1 else 2 * Pow2(n - 1)
  }

  /** The largest power of two that divides `n`. */
  function Low(n: nat): nat
    requires n > 0
  {
    if n % 2 == 1 then 1 else 2 * Low(n / 2)
  }

  lemma {:induction false} Pow2Positive(n: nat)
    ensures Pow2(n) > 0
  {
    if n > 0 {
      Pow2Positive(n - 1);
    }
  }

  lemma Associate(a: int, b: int, c: int)
    ensures a * b * c == a * (b * c)
    ensures a * b == b * a
  {
  }

  lemma Halve(r: nat, h: nat)
    requires r % 2 == 0
    ensures r / 2 * (2 * h) == r * h
  {
    Associate(r / 2, 2, h);
  }

  lemma InverseStep(a: nat, y: nat, r: nat, h: nat) returns (x: nat, q: nat)
    requires a % 2 == 1 && a * y == 1 + r * h
    ensures a * x == 1 + q * (2 * h)
  {
    if r % 2 == 0 {
      x, q := y, r / 2;
      Halve(r, h);
    } else {
      x, q := y + h, (r + a) / 2;
      Distribute(a, y, h);
      Distribute(h, r, a);
      Halve(r + a, h);
    }
  }

  /** An odd number has an inverse modulo every power of two. */
  lemma {:induction false} Inverse(a: nat, j: nat) returns (x: nat, q: nat)
    requires a % 2 == 1
    ensures a * x == 1 + q * Pow2(j)
  {
    if j == 0 {
      x, q := 1, a - 1;
    } else {
      var y, r := Inverse(a, j - 1);
      x, q := InverseStep(a, y, r, Pow2(j - 1));
    }
  }

  lemma {:induction false} LowSplits(n: nat, bits: nat) returns (odd: nat, high: nat)
    requires 0 < n < Pow2(bits)
    ensures odd % 2 == 1 && n == Low(n) * odd
    ensures high <= bits && Low(n) * Pow2(high) == Pow2(bits)
  {
    if n % 2 == 1 {
      odd, high := n, bits;
    } else {
      odd, high := LowSplits(n / 2, bits - 1);
      Associate(2, Low(n / 2), odd);
      Associate(2, Low(n / 2), Pow2(high));
    }
  }

  lemma WrapIsPower() returns (bits: nat)
    ensures Pow2(bits) == WRAP
  {
    bits := 32;
    assert Pow2(8) == 0x100;
    assert Pow2(16) == 0x1_0000;
    assert Pow2(24) == 0x100_0000;
  }

  /** `m` is an odd multiple of `low`, a power of two by which 2^32 can be divided too. */
  lemma LowSplitsWrap(m: SegSize) returns (odd: nat, high: nat)
    ensures odd % 2 == 1 && m == Low(m) * odd
    ensures 0 < Low(m) < WRAP && Pow2(high) > 0 && Low(m) * Pow2(high) == WRAP
  {
    var bits := WrapIsPower();
    odd, high := LowSplits(m, bits);
    Pow2Positive(high);
    LowAtMost(m);
  }

  lemma {:induction false} LowAtMost(n: nat)
    requires n > 0
    ensures 0 < Low(n) <= n
  {
    if n % 2 == 0 {
      LowAtMost(n / 2);
    }
  }

  /** What is left of a multiple of `l` is one too, and thus at least `l` less than the modulus. */
  lemma ModOfMultiple(l: nat, y: nat, n: nat, d: nat)
    requires l > 0 && n > 0 && l * n == d
    ensures d > 0 && l * y % d <= d - l
  {
    var q, r := y / n, y % n;
    Distribute(l, q * n, r);
    Associate(l, q, n);
    Associate(q, l, n);
    MulMonotone(r + 1, n, l);
    Distribute(l, r, 1);
    QuotientUnique(l * y, d, q, l * r);
  }

  /** Every offset is a multiple of the power of two. */
  lemma OffsetAtMost(m: SegSize, k: nat)
    ensures Offset(m, k) <= WRAP - Low(m)
  {
    var odd, high := LowSplitsWrap(m);
    Associate(Low(m), odd, k);
    Associate(k, m, 1);
    ModOfMultiple(Low(m), odd * k, Pow2(high), WRAP);
  }

  lemma Reaching(m: nat, l: nat, odd: nat, c: nat, x: nat, q: nat, d: nat) returns (k: nat, t: nat)
    requires m == l * odd && l * (c + 1) == d && odd * x == 1 + q * (c + 1)
    ensures k * m == t * d + (d - l)
  {
    k, t := x * c, q * c;
    calc {
      x * c * m;
      { Associate(x * c, m, 1); Associate(m, x, c); Associate(x, c, m); Associate(l, odd, x); }
      l * (odd * x) * c;
      { Distribute(l, 1, q * (c + 1)); Distribute(c, l, l * (q * (c + 1))); }
      l * c + l * (q * (c + 1)) * c;
      { Associate(l, q, c + 1); Associate(q, l, c + 1); Associate(q, d, c); Associate(q, c, d); Associate(c, d, 1); }
      l * c + q * c * d;
    }
    Distribute(l, c, 1);
  }

  /** And the largest such multiple is reached. */
  lemma OffsetReaches(m: SegSize) returns (k: nat)
    ensures Offset(m, k) == WRAP - Low(m)
  {
    var odd, high := LowSplitsWrap(m);
    var x, q := Inverse(odd, high);
    var t;
    k, t := Reaching(m, Low(m), odd, Pow2(high) - 1, x, q, WRAP);
    QuotientUnique(k * m, WRAP, t, WRAP - Low(m));
  }

  /** The loop ends if and only if the product's size is at most 2^32 less the largest power of two
      that divides the segment size. */
  lemma BacklogEndsIff(m: SegSize, p: u32)
    ensures (exists k: nat :: Offset(m, k) >= p) <==> p <= WRAP - Low(m)
  {
    if k: nat :| Offset(m, k) >= p {
      OffsetAtMost(m, k);
    }
    if p <= WRAP - Low(m) {
      var k := OffsetReaches(m);
    }
  }

  /** Notices of the segments of a product, but no more than `budget` of them. They are notices of
      its pieces, each once, as long as the pieces number no more than 2^32 divided by their size. */
  method NotifySegments(m: SegSize, p: u32, budget: nat) returns (offsets: seq<u32>, ended: bool)
    ensures forall k :: 0 <= k < |offsets| ==> offsets[k] == Offset(m, k) < p
    ensures ended ==> Offset(m, |offsets|) >= p
    ensures !ended ==> |offsets| == budget
    ensures p > WRAP - Low(m) ==> !ended
    ensures ended && Pieces(m, p) * m < WRAP ==> |offsets| == Pieces(m, p)
  {
    var offset: u32 := 0;
    offsets := [];
    while offset < p && |offsets| < budget
      invariant offset == Offset(m, |offsets|)
      invariant forall k :: 0 <= k < |offsets| ==> offsets[k] == Offset(m, k) < p
      invariant |offsets| <= budget
      invariant Pieces(m, p) * m < WRAP ==> |offsets| <= Pieces(m, p)
      decreases budget - |offsets|
    {
      if |offsets| == Pieces(m, p) && Pieces(m, p) * m < WRAP {
        AfterStep(m, p, |offsets|);
        assert false;
      }
      OffsetStep(m, |offsets|);
      offsets := offsets + [offset];
      offset := (offset + m) % WRAP;
    }
    OffsetAtMost(m, |offsets|);
    ended := offset >= p;
    if ended && |offsets| < Pieces(m, p) {
      AfterStep(m, p, |offsets|);
      assert false;
    }
  }
}
