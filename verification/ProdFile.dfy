/** A subscriber's product file: the segments of a product in whatever order they arrive. */
module ProdFile {
  import opened Common
  import opened Segmentation

  datatype File = File(prodSize: u32, data: Bytes, have: seq<bool>, segCount: nat)

  /** The result of a call that saves a segment; the last one is an access past the end of the table
      of received segments. */
  datatype SaveResult = Saved | Duplicate | InvalidArgument | OutOfRange

  function CountTrue(s: seq<bool>): nat {
    if s == [] then 0 else CountTrue(s[1..]) + if s[0] then 1 else 0
  }

  ghost predicate Valid(m: SegSize, f: File) {
    |f.data| == f.prodSize && |f.have| == NumSegs(m, f.prodSize) && f.segCount == CountTrue(f.have)
  }

  function NewFile(m: SegSize, p: u32): File {
    File(p, seq(p, _ => 0), seq(NumSegs(m, p), _ => false), 0)
  }

  function Result(m: SegSize, f: File, seg: Segment): SaveResult {
    if !Vetted(m, f.prodSize, seg.offset) || |seg.data| != Size(m, f.prodSize, seg.offset) then InvalidArgument
    else if SegIndex(m, seg.offset) >= |f.have| then OutOfRange
    else if f.have[SegIndex(m, seg.offset)] then Duplicate
    else Saved
  }

  function Overwritten(data: Bytes, offset: nat, bytes: Bytes): Bytes
    requires offset + |bytes| <= |data|
  {
    data[..offset] + bytes + data[offset + |bytes|..]
  }

  function AfterSave(m: SegSize, f: File, seg: Segment): File
    requires |f.data| == f.prodSize
  {
    if Result(m, f, seg) == Saved then
      File(f.prodSize,
           Overwritten(f.data, seg.offset, seg.data),
           f.have[SegIndex(m, seg.offset) := true],
           f.segCount + 1)
    else f
  }

  /** Exactly when each outcome is that of saving a segment. */
  lemma ResultMeans(m: SegSize, f: File, seg: Segment)
    ensures Result(m, f, seg) == InvalidArgument <==>
              || seg.offset >= f.prodSize || seg.offset % m != 0
              || |seg.data| != if f.prodSize - seg.offset < m then f.prodSize - seg.offset else m
    ensures Result(m, f, seg) == OutOfRange <==>
              Result(m, f, seg) != InvalidArgument && seg.offset / m >= |f.have|
    ensures Result(m, f, seg) == Duplicate || Result(m, f, seg) == Saved ==>
              seg.offset / m < |f.have| && (Result(m, f, seg) == Duplicate <==> f.have[seg.offset / m])
  {
  }

  /** What saving a segment changes, byte by byte and segment by segment. */
  lemma SavedMeans(m: SegSize, f: File, seg: Segment)
    requires Valid(m, f) && Result(m, f, seg) == Saved
    ensures var r := AfterSave(m, f, seg);
      && seg.offset + |seg.data| <= |f.data| && |r.data| == |f.data| && |r.have| == |f.have|
      && (forall i :: 0 <= i < |f.data| ==>
            r.data[i] == if seg.offset <= i < seg.offset + |seg.data| then seg.data[i - seg.offset] else f.data[i])
      && (forall k :: 0 <= k < |f.have| ==> r.have[k] == (f.have[k] || k == seg.offset / m))
      && r.prodSize == f.prodSize && r.segCount == f.segCount + 1
  {
    ResultMeans(m, f, seg);
  }

  predicate IsComplete(f: File) {
    f.segCount == |f.have|
  }

  lemma {:induction false} CountSet(s: seq<bool>, k: nat)
    requires k < |s| && !s[k]
    ensures CountTrue(s[k := true]) == CountTrue(s) + 1
  {
    if k > 0 {
      CountSet(s[1..], k - 1);
      assert s[k := true][1..] == s[1..][k - 1 := true];
    }
  }

  lemma {:induction false} CountAll(s: seq<bool>)
    ensures CountTrue(s) <= |s|
    ensures CountTrue(s) == |s| <==> forall k :: 0 <= k < |s| ==> s[k]
  {
    if s != [] {
      CountAll(s[1..]);
      assert forall k :: 0 < k < |s| ==> s[k] == s[1..][k - 1];
    }
  }

  lemma {:induction false} CountNone(n: nat)
    ensures CountTrue(seq(n, _ => false)) == 0
  {
    if n > 0 {
      CountNone(n - 1);
      assert seq(n, _ => false)[1..] == seq(n - 1, _ => false);
    }
  }

  lemma NewFileValid(m: SegSize, p: u32)
    ensures Valid(m, NewFile(m, p))
  {
    CountNone(NumSegs(m, p));
  }

  lemma SaveValid(m: SegSize, f: File, seg: Segment)
    requires Valid(m, f)
    ensures Valid(m, AfterSave(m, f, seg)) && AfterSave(m, f, seg).prodSize == f.prodSize
  {
    if Result(m, f, seg) == Saved {
      CountSet(f.have, SegIndex(m, seg.offset));
    }
  }

  /** Every byte of a segment that the file has is the product's. */
  ghost predicate Agrees(m: SegSize, f: File, product: Bytes)
    requires |f.data| == |product|
  {
    forall i :: 0 <= i < |product| && i / m < |f.have| && f.have[i / m] ==> f.data[i] == product[i]
  }

  /** The piece with an index, of a product of that many segments. */
  function Nth(m: SegSize, product: Bytes, k: nat): (r: Segment)
    requires |product| < WRAP && k < Pieces(m, |product|)
    ensures Vetted(m, |product|, r.offset) && |r.data| == Size(m, |product|, r.offset) && SegIndex(m, r.offset) == k
    ensures r.offset == k * m && r.offset + |r.data| <= |product|
    ensures r.data == product[r.offset..r.offset + |r.data|]
  {
    SegIndexBijection(m, |product|, k);
    Piece(m, product, Offset(m, k))
  }

  /** Saving a piece of the product keeps what is there, and adds the piece. */
  lemma SaveAgrees(m: SegSize, f: File, product: Bytes, k: nat)
    requires Valid(m, f) && |product| == f.prodSize && k < |f.have| && k < Pieces(m, |product|)
    requires Agrees(m, f, product)
    ensures var f' := AfterSave(m, f, Nth(m, product, k));
      Valid(m, f') && f'.prodSize == f.prodSize && Agrees(m, f', product) && f'.have == f.have[k := true]
  {
    var seg := Nth(m, product, k);
    SaveValid(m, f, seg);
    if !f.have[k] {
      var f' := AfterSave(m, f, seg);
      forall i | 0 <= i < |product| && i / m < |f'.have| && f'.have[i / m]
        ensures f'.data[i] == product[i]
      {
        InPiece(m, |product|, k, i);
      }
    }
  }

  /** The file after the pieces with the given indexes have been saved, one after the other. */
  function AfterSaves(m: SegSize, f: File, product: Bytes, ks: seq<nat>): (r: File)
    requires Valid(m, f) && |product| == f.prodSize
    requires forall i :: 0 <= i < |ks| ==> ks[i] < Pieces(m, |product|)
    ensures Valid(m, r) && r.prodSize == f.prodSize
    decreases |ks|
  {
    if ks == [] then f
    else
      var seg := Nth(m, product, ks[0]);
      SaveValid(m, f, seg);
      AfterSaves(m, AfterSave(m, f, seg), product, ks[1..])
  }

  lemma {:induction false} SavesAgree(m: SegSize, f: File, product: Bytes, ks: seq<nat>)
    requires Valid(m, f) && |product| == f.prodSize && Agrees(m, f, product) && |f.have| == Pieces(m, |product|)
    requires forall i :: 0 <= i < |ks| ==> ks[i] < Pieces(m, |product|)
    ensures var r := AfterSaves(m, f, product, ks);
      && Agrees(m, r, product) && |r.have| == |f.have|
      && forall k :: 0 <= k < |r.have| ==> (r.have[k] <==> f.have[k] || k in ks)
    decreases |ks|
  {
    if ks != [] {
      assert ks == [ks[0]] + ks[1..];
      SaveAgrees(m, f, product, ks[0]);
      SavesAgree(m, AfterSave(m, f, Nth(m, product, ks[0])), product, ks[1..]);
    }
  }

  lemma CompleteMeans(f: File, m: SegSize)
    requires Valid(m, f)
    ensures IsComplete(f) <==> forall k :: 0 <= k < |f.have| ==> f.have[k]
  {
    CountAll(f.have);
  }

  lemma AllHaveMeansProduct(m: SegSize, f: File, product: Bytes)
    requires |f.data| == |product| < WRAP && Agrees(m, f, product) && |f.have| == Pieces(m, |product|)
    requires forall k :: 0 <= k < |f.have| ==> f.have[k]
    ensures f.data == product
  {
    forall i | 0 <= i < |product|
      ensures f.data[i] == product[i]
    {
      ByteInSomePiece(m, |product|, i);
    }
  }

  lemma NothingAgrees(m: SegSize, f: File, product: Bytes)
    requires Valid(m, f) && |product| == f.prodSize
    requires forall k :: 0 <= k < |f.have| ==> !f.have[k]
    ensures Agrees(m, f, product)
  {
  }

  /** A file that agrees with the product and has just the given pieces. */
  lemma FilledWith(m: SegSize, r: File, product: Bytes, ks: seq<nat>)
    requires Valid(m, r) && |product| == r.prodSize && Agrees(m, r, product) && |r.have| == Pieces(m, |product|)
    requires forall k :: 0 <= k < |r.have| ==> (r.have[k] <==> k in ks)
    ensures IsComplete(r) <==> forall k :: 0 <= k < Pieces(m, |product|) ==> k in ks
    ensures IsComplete(r) ==> r.data == product
  {
    CompleteMeans(r, m);
    if IsComplete(r) {
      AllHaveMeansProduct(m, r, product);
    }
  }

  lemma SavesFill(m: SegSize, f: File, product: Bytes, ks: seq<nat>)
    requires Valid(m, f) && |product| == f.prodSize && |f.have| == Pieces(m, |product|)
    requires forall k :: 0 <= k < |f.have| ==> !f.have[k]
    requires forall i :: 0 <= i < |ks| ==> ks[i] < Pieces(m, |product|)
    ensures var r := AfterSaves(m, f, product, ks);
      && (IsComplete(r) <==> forall k :: 0 <= k < Pieces(m, |product|) ==> k in ks)
      && (IsComplete(r) ==> r.data == product)
  {
    NothingAgrees(m, f, product);
    SavesAgree(m, f, product, ks);
    FilledWith(m, AfterSaves(m, f, product, ks), product, ks);
  }

  /** Once every piece of a product has been saved, in any order and however often, and not before,
      the file is complete; and then it is the product. */
  lemma SavesRebuild(m: SegSize, product: Bytes, ks: seq<nat>)
    requires |product| + m - 1 < WRAP
    requires forall i :: 0 <= i < |ks| ==> ks[i] < Pieces(m, |product|)
    ensures (NewFileValid(m, |product|); var r := AfterSaves(m, NewFile(m, |product|), product, ks);
             && (IsComplete(r) <==> forall k :: 0 <= k < Pieces(m, |product|) ==> k in ks)
             && (IsComplete(r) ==> r.data == product))
  {
    NumSegsIff(m, |product|);
    NewFileValid(m, |product|);
    SavesFill(m, NewFile(m, |product|), product, ks);
  }

  /** A new file is complete without any segment if and only if the product is empty or so large that
      the number of its segments wraps around to zero. Then every segment is out of range. */
  lemma CompleteWhenNewIff(m: SegSize, p: u32, seg: Segment)
    ensures IsComplete(NewFile(m, p)) <==> p == 0 || p + m - 1 >= WRAP
    ensures p + m - 1 >= WRAP && seg.offset < p && seg.offset % m == 0 && |seg.data| == Size(m, p, seg.offset) ==>
              Result(m, NewFile(m, p), seg) == OutOfRange
  {
    NumSegsIff(m, p);
    PiecesBounds(m, p);
    if p == 0 {
      DivBetween(m, 0, m - 1);
    } else {
      PieceIff(m, p, 0);
    }
  }

  method Copy(data: array<u8>, offset: nat, bytes: Bytes)
    requires offset + |bytes| <= data.Length
    modifies data
    ensures data[..] == Overwritten(old(data[..]), offset, bytes)
  {
    for i := 0 to |bytes|
      invariant forall j :: 0 <= j < data.Length ==>
                  data[j] == if offset <= j < offset + i then bytes[j - offset] else old(data[j])
    {
      data[offset + i] := bytes[i];
    }
  }

  class SubProdFile {
    const m: SegSize
    const prodSize: u32
    const data: array<u8>
    const haveSegs: array<bool>
    var segCount: nat

    ghost function Value(): File
      reads this, data, haveSegs
    {
      File(prodSize, data[..], haveSegs[..], segCount)
    }

    ghost predicate Ok()
      reads this, data, haveSegs
    {
      Valid(m, Value())
    }

    constructor (m: SegSize, prodSize: u32)
      ensures Ok() && Value() == NewFile(m, prodSize) && this.m == m
      ensures data.Length == prodSize && forall i :: 0 <= i < data.Length ==> data[i] == 0
      ensures haveSegs.Length == NumSegs(m, prodSize) && forall k :: 0 <= k < haveSegs.Length ==> !haveSegs[k]
      ensures fresh(data) && fresh(haveSegs)
    {
      this.m, this.prodSize, segCount := m, prodSize, 0;
      data := new u8[prodSize](_ => 0);
      haveSegs := new bool[NumSegs(m, prodSize)](_ => false);
      new;
      assert data[..] == seq(prodSize, _ => 0) && haveSegs[..] == seq(NumSegs(m, prodSize), _ => false);
      NewFileValid(m, prodSize);
    }

    method Save(seg: Segment) returns (r: SaveResult)
      requires Ok()
      modifies this, data, haveSegs
      ensures Ok() && r == Result(m, old(Value()), seg) && Value() == AfterSave(m, old(Value()), seg)
      ensures r != Saved ==> Value() == old(Value())
    {
      ghost var before := Value();
      SaveValid(m, before, seg);
      if !Vetted(m, prodSize, seg.offset) || |seg.data| != Size(m, prodSize, seg.offset) {
        return InvalidArgument;
      }
      var iSeg := SegIndex(m, seg.offset);
      if iSeg >= haveSegs.Length {
        return OutOfRange;
      }
      if haveSegs[iSeg] {
        return Duplicate;
      }
      Copy(data, seg.offset, seg.data);
      haveSegs[iSeg] := true;
      segCount := segCount + 1;
      r := Saved;
    }

    function Complete(): (r: bool)
      requires Ok()
      reads this, data, haveSegs
      ensures r <==> forall k :: 0 <= k < haveSegs.Length ==> haveSegs[k]
    {
      CountAll(haveSegs[..]);
      segCount == haveSegs.Length
    }
  }
}
