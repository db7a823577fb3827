/** Cutting products into segments with 32-bit arithmetic, sending them, and putting them together
    again. `m` is the size of a canonical segment, `p` the size of the product. */
module Segmentation {
  import opened Common

  const WRAP := 0x1_0000_0000

  type SegSize = x: int | 0 < x < 0x1_0000 witness 1

  datatype Segment = Segment(offset: u32, prodSize: u32, data: Bytes)

  /** The expected size of the segment at an offset. */
  function Size(m: u16, p: u32, offset: u32): u16 {
    var nbytes := (p - offset) % WRAP;
    if nbytes <= m then nbytes else m
  }

  function NumSegs(m: SegSize, p: u32): u32 {
    (p + (m - 1)) % WRAP / m
  }

  function SegIndex(m: SegSize, offset: u32): u32 {
    offset / m
  }

  /** The offset of the sending loop after `k` steps. */
  function Offset(m: SegSize, k: nat): u32 {
    k * m % WRAP
  }

  /** Whether a product file has a segment at an offset; if not, it throws. */
  predicate Vetted(m: SegSize, p: u32, offset: u32) {
    !(offset >= p || offset % m != 0)
  }

  /** The number of segments that make up a product. */
  function Pieces(m: SegSize, p: u32): nat {
    (p + m - 1) / m
  }

  // Arithmetic

  lemma PiecesBounds(m: SegSize, p: u32)
    ensures p <= Pieces(m, p) * m < p + m
  {
  }

  lemma DivBetween(m: SegSize, k: nat, i: nat)
    ensures i / m == k <==> k * m <= i < k * m + m
  {
    if k * m <= i < k * m + m {
      if i / m < k {
        MulMonotone(i / m + 1, k, m);
      } else if i / m > k {
        MulMonotone(k + 1, i / m, m);
      }
    }
  }

  lemma DivMul(m: SegSize, k: nat)
    ensures k * m / m == k && k * m % m == 0
  {
    DivBetween(m, k, k * m);
  }

  /** The pieces are those whose offsets are in the product. */
  lemma PieceIff(m: SegSize, p: u32, k: nat)
    ensures k < Pieces(m, p) <==> k * m < p
  {
    PiecesBounds(m, p);
    if k < Pieces(m, p) {
      MulMonotone(k + 1, Pieces(m, p), m);
    } else {
      MulMonotone(Pieces(m, p), k, m);
    }
  }

  /** A byte belongs to the piece with its quotient. */
  lemma InPiece(m: SegSize, p: u32, k: nat, i: nat)
    requires i < p && k < Pieces(m, p)
    ensures k * m < p
    ensures i / m == k <==> k * m <= i < k * m + Size(m, p, k * m)
  {
    PieceIff(m, p, k);
    DivBetween(m, k, i);
  }

  lemma ByteInSomePiece(m: SegSize, p: u32, i: nat)
    requires i < p
    ensures i / m < Pieces(m, p)
  {
    PieceIff(m, p, i / m);
  }

  // How many segments there are

  /** The computed number of segments is right if and only if its sum does not wrap around. */
  lemma NumSegsIff(m: SegSize, p: u32)
    ensures NumSegs(m, p) == Pieces(m, p) <==> p + m - 1 < WRAP
    ensures p + m - 1 >= WRAP ==> NumSegs(m, p) == 0 && Pieces(m, p) > 0
  {
    if p + m - 1 >= WRAP {
      assert (p + (m - 1)) % WRAP == p + m - 1 - WRAP;
      DivBetween(m, 0, p + m - 1 - WRAP);
      PieceIff(m, p, 0);
    }
  }

  /** The promise that a product may have up to 2^32 - 1 bytes is broken for every segment size but
      one. */
  lemma LargestProduct(m: SegSize)
    ensures NumSegs(m, WRAP - 1) == Pieces(m, WRAP - 1) <==> m == 1
  {
    NumSegsIff(m, WRAP - 1);
  }

  /** Offsets of pieces and indexes are one-to-one. */
  lemma SegIndexBijection(m: SegSize, p: u32, k: nat)
    requires k < Pieces(m, p)
    ensures Offset(m, k) == k * m && Vetted(m, p, Offset(m, k)) && SegIndex(m, Offset(m, k)) == k
  {
    PieceIff(m, p, k);
    DivMul(m, k);
  }

  lemma VettedIsPiece(m: SegSize, p: u32, offset: u32)
    requires Vetted(m, p, offset)
    ensures SegIndex(m, offset) < Pieces(m, p) && Offset(m, SegIndex(m, offset)) == offset
  {
    var k := offset / m;
    assert offset == k * m;
    PieceIff(m, p, k);
  }

  function SumSizes(m: SegSize, p: u32, n: nat): nat {
    if n == 0 then 0 else SumSizes(m, p, n - 1) + Size(m, p, Offset(m, n - 1))
  }

  lemma NextSize(m: SegSize, p: u32, n: nat)
    requires n < Pieces(m, p)
    ensures Size(m, p, Offset(m, n)) == (if (n + 1) * m <= p then m else p - n * m)
    ensures n * m < p
  {
    SegIndexBijection(m, p, n);
    PieceIff(m, p, n);
    assert (n + 1) * m == n * m + m;
  }

  /** The sizes of the pieces add up to the product's. */
  lemma {:induction false} SizesSum(m: SegSize, p: u32, n: nat)
    requires n <= Pieces(m, p)
    ensures SumSizes(m, p, n) == if n * m <= p then n * m else p
    ensures n == Pieces(m, p) ==> SumSizes(m, p, n) == p
  {
    PiecesBounds(m, p);
    if n > 0 {
      SizesSum(m, p, n - 1);
      NextSize(m, p, n - 1);
    }
  }

  // The sending loop

  datatype End = Finished | Threw | Running

  function Piece(m: SegSize, product: Bytes, offset: u32): Segment
    requires |product| < WRAP && offset < |product|
  {
    Segment(offset, |product|, product[offset..offset + Size(m, |product|, offset)])
  }

  /** What becomes of the offset after the last piece. */
  lemma AfterLastPiece(m: SegSize, p: u32)
    requires p > 0
    ensures var last := Pieces(m, p) * m; 
      && (last < WRAP ==> Offset(m, Pieces(m, p)) == last >= p)
      && (last >= WRAP ==> Offset(m, Pieces(m, p)) == last - WRAP < m <= p
                           && (Vetted(m, p, last - WRAP) <==> last == WRAP))
  {
    PiecesBounds(m, p);
    var last := Pieces(m, p) * m;
    if last >= WRAP {
      assert last % WRAP == last - WRAP;
      DivBetween(m, 0, last - WRAP);
    }
  }

  /** When the pieces add up to exactly 2^32 bytes, the offset starts over for ever. */
  lemma StartsOver(m: SegSize, p: u32, k: nat)
    requires Pieces(m, p) * m == WRAP
    ensures Vetted(m, p, Offset(m, k))
  {
    var n := Pieces(m, p);
    var q, r := k / n, k % n;
    assert k * m == (q * n + r) * m == q * (n * m) + r * m;
    PieceIff(m, p, r);
    assert (q * WRAP + r * m) % WRAP == r * m;
    DivMul(m, r);
  }

  lemma OffsetStep(m: SegSize, k: nat)
    ensures (Offset(m, k) + m) % WRAP == Offset(m, k + 1)
  {
    var x := k * m;
    assert (k + 1) * m == x + m;
    assert (x % WRAP + m) % WRAP == (x + m) % WRAP;
  }

  /** Sends the pieces of a product, but no more than `budget` of them. The loop ends by itself if
      and only if the pieces, filled up to canonical size, add up to less than 2^32 bytes. If they
      add up to more, then it sends all pieces and throws; if to exactly that, it repeats them for
      ever. */
  method SendProduct(m: SegSize, product: Bytes, budget: nat) returns (segs: seq<Segment>, end: End)
    requires |product| < WRAP
    ensures forall k :: 0 <= k < |segs| ==>
              Offset(m, k) < |product| && segs[k] == Piece(m, product, Offset(m, k))
    ensures end == Finished ==> |segs| == Pieces(m, |product|) && Pieces(m, |product|) * m < WRAP
    ensures end == Threw ==> |segs| == Pieces(m, |product|) && Pieces(m, |product|) * m > WRAP
    ensures end == Running ==> |segs| == budget
    ensures end == Running ==> budget <= Pieces(m, |product|) || Pieces(m, |product|) * m == WRAP
    ensures end == Running ==> budget < Pieces(m, |product|) || Pieces(m, |product|) * m >= WRAP
  {
    var offset: u32 := 0;
    segs := [];
    while offset < |product| && |segs| < budget
      invariant offset == Offset(m, |segs|)
      invariant |segs| <= Pieces(m, |product|) || Pieces(m, |product|) * m == WRAP
      invariant |segs| <= budget
      invariant forall k :: 0 <= k < |segs| ==>
                  Offset(m, k) < |product| && segs[k] == Piece(m, product, Offset(m, k))
      decreases budget - |segs|
    {
      AfterStep(m, |product|, |segs|);
      if !Vetted(m, |product|, offset) {
        return segs, Threw;
      }
      OffsetStep(m, |segs|);
      segs := segs + [Piece(m, product, offset)];
      offset := (offset + m) % WRAP;
    }
    AfterStep(m, |product|, |segs|);
    end := if offset < |product| then Running else Finished;
  }

  /** Where the sending loop is after `n` steps. */
  lemma AfterStep(m: SegSize, p: u32, n: nat)
    requires n <= Pieces(m, p) || Pieces(m, p) * m == WRAP
    ensures n < Pieces(m, p) ==> Vetted(m, p, Offset(m, n))
    ensures Pieces(m, p) * m == WRAP ==> Vetted(m, p, Offset(m, n))
    ensures n == Pieces(m, p) && Pieces(m, p) * m < WRAP ==> Offset(m, n) >= p
    ensures n == Pieces(m, p) && Pieces(m, p) * m > WRAP ==> Offset(m, n) < p && !Vetted(m, p, Offset(m, n))
  {
    if n < Pieces(m, p) {
      SegIndexBijection(m, p, n);
    } else if p > 0 {
      AfterLastPiece(m, p);
    } else {
      DivBetween(m, 0, m - 1);
    }
    if Pieces(m, p) * m == WRAP {
      StartsOver(m, p, n);
    }
  }
}
