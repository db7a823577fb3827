/** What the bytes of each protocol data unit are, field by field and place by place. */
module WireLayout {
  import opened Common
  import opened Address
  import opened ByteOrder
  import opened Codec
  import opened SrvrInfo
  import opened RequestQueue
  import opened Messages
  import Wire

  /** The unsigned integer of `n` bytes at place `i`, the most significant byte first. */
  function Field(s: Bytes, i: nat, n: nat): nat
    requires i + n <= |s|
  {
    Value(s[i..i + n])
  }

  /** The first byte counts most. */
  lemma {:induction false} ValueHead(b: Bytes)
    requires b != []
    ensures Value(b) == b[0] * Pow256(|b| - 1) + Value(b[1..])
    decreases |b|
  {
    var n := |b| - 1;
    if n > 0 {
      ValueHead(b[..n]);
      assert b[..n][1..] == b[1..][..n - 1];
      assert b[1..][n - 1] == b[n] && |b[1..]| == n;
      assert Value(b[1..]) == Value(b[1..][..n - 1]) * 0x100 + b[n];
      Shift(b[0], Pow256(n - 1), Value(b[1..][..n - 1]), b[n]);
    } else {
      assert b == [b[0]] && b[..0] == [] && b[1..] == [];
      assert Value(b) == b[0];
      assert Pow256(0) == 1;
    }
  }

  lemma Shift(x: int, p: int, v: int, y: int)
    ensures (x * p + v) * 0x100 + y == x * (0x100 * p) + (v * 0x100 + y)
  {
  }

  lemma Place(pre: Bytes, f: Bytes, post: Bytes)
    ensures (pre + f + post)[|pre|..|pre| + |f|] == f
  {
  }

  /** Big-endian integers of the widths in use are read back as fields. */
  lemma IntAt(s: Bytes, pre: Bytes, n: nat, x: nat, post: Bytes)
    requires s == pre + Big(n, x) + post
    requires (n == 1 && x < 0x100) || (n == 2 && x < 0x1_0000) || (n == 4 && x < 0x1_0000_0000)
             || (n == 8 && x < 0x1_0000_0000_0000_0000)
    ensures |pre| + n <= |s| && Field(s, |pre|, n) == x
  {
    Place(pre, Big(n, x), post);
    Pow256Values();
    ValueBig(n, x);
  }

  lemma Behind(pre: Bytes, post: Bytes)
    ensures (pre + post)[..|pre|] == pre && (pre + post)[|pre|..] == post
  {
  }

  // Parts of units

  /** Signed 16-bit integers are sent in two's complement. */
  lemma TwosComplement(x: i16)
    ensures ToU16(x) == if x >= 0 then x else x + 0x1_0000
  {
  }

  /** The parts of a time are signed seconds and fewer than a million microseconds to add to them, which
      makes up the time as it arrives. */
  lemma TimePartsMeaning(time: i64) returns (secs: i64)
    ensures TimeParts(time).0 == ToU64(secs) && TimeParts(time).1 < 1_000_000
    ensures secs * 1_000_000_000 + TimeParts(time).1 * 1_000 == Arriving(time)
  {
    var (whole, usecs) := Split(time);
    secs := if usecs < 0 then whole - 1 else whole;
  }

  /** Seconds, then microseconds. */
  lemma TimeLayout(time: i64)
    ensures |EncTime(time)| == 12
    ensures Field(EncTime(time), 0, 8) == TimeParts(time).0 && Field(EncTime(time), 8, 4) == TimeParts(time).1
  {
    var (secs, usecs) := TimeParts(time);
    var e := EncTime(time);
    assert e == [] + Big(8, secs) + Big(4, usecs) && e == Big(8, secs) + Big(4, usecs) + [];
    IntAt(e, [], 8, secs, Big(4, usecs));
    IntAt(e, Big(8, secs), 4, usecs, []);
  }

  /** A tag for the kind, then the address: the machine's word, sixteen bytes, or length and name. */
  lemma InetLayout(a: InetAddr)
    requires a != NoInet && (a.Name? ==> |a.name| <= 255)
    ensures a.Inet4? ==> |EncInet(a)| == 5 && EncInet(a)[0] == 0 && Field(EncInet(a), 1, 4) == a.sAddr
    ensures a.Inet6? ==> |EncInet(a)| == 17 && EncInet(a)[0] == 1 && EncInet(a)[1..] == a.addr
    ensures a.Name? ==> EncInet(a)[0] == 2 && EncInet(a)[1] == |a.name| && EncInet(a)[2..] == a.name
  {
    Big1(0);
    Big1(1);
    Big1(2);
    var e := EncInet(a);
    match a
    case Inet4(w) =>
      assert e == Big(1, 0) + Big(4, w) + [];
      IntAt(e, Big(1, 0), 4, w, []);
    case Inet6(addr) => assert e == [1] + addr;
    case Name(name) =>
      Big1(|name|);
      assert e == [2] + ([|name|] + name);
  }

  lemma Big1(x: u8)
    ensures Big(1, x) == [x]
  {
    assert Big(0, 0) == [];
  }

  /** The address, the port, the tier, the number of free places, and the time. */
  lemma InfoLayout(i: P2pSrvrInfo)
    requires SendableAddr(i.srvrAddr)
    ensures var e, n := EncInfo(i), |EncInet(i.srvrAddr.inet)|;
      && |e| == n + 18 && e[..n] == EncInet(i.srvrAddr.inet)
      && Field(e, n, 2) == i.srvrAddr.port
      && Field(e, n + 2, 2) == ToU16(i.tier)
      && Field(e, n + 4, 2) == ToU16(i.numAvail)
      && e[n + 6..] == EncTime(i.valid)
  {
    var e, a, t := EncInfo(i), EncInet(i.srvrAddr.inet), EncTime(i.valid);
    var p, r, f := Big(2, i.srvrAddr.port), Big(2, ToU16(i.tier)), Big(2, ToU16(i.numAvail));
    TimeLayout(i.valid);
    Assoc(a + p, r, f + t);
    Assoc(a + p + r, f, t);
    Behind(a + p + r + f, t);
    Behind(a, p + (r + (f + t)));
    Assoc(a, p, r + (f + t));
    IntAt(e, a, 2, i.srvrAddr.port, r + (f + t));
    IntAt(e, a + p, 2, ToU16(i.tier), f + t);
    IntAt(e, a + p + r, 2, ToU16(i.numAvail), t);
  }

  /** The product and the offset. */
  lemma SegIdLayout(id: DataSegId)
    ensures |EncSegId(id)| == 12
    ensures Field(EncSegId(id), 0, 8) == id.prodId && Field(EncSegId(id), 8, 4) == id.offset
  {
    var e := EncSegId(id);
    assert e == [] + Big(8, id.prodId) + Big(4, id.offset) && e == Big(8, id.prodId) + Big(4, id.offset) + [];
    IntAt(e, [], 8, id.prodId, Big(4, id.offset));
    IntAt(e, Big(8, id.prodId), 4, id.offset, []);
  }

  /** The product, the length of its name and the name, its size, and when it was created. */
  lemma ProdInfoLayout(i: ProdInfo)
    requires |i.name| <= 4095
    ensures var e, n := EncProdInfo(i), |i.name|;
      && |e| == n + 22
      && Field(e, 0, 8) == i.prodId && Field(e, 8, 2) == n && e[10..10 + n] == i.name
      && Field(e, 10 + n, 4) == i.size && Field(e, 14 + n, 8) == ToU64(i.created)
  {
    var e, n := EncProdInfo(i), |i.name|;
    var a, b, c, d := Big(8, i.prodId), Big(2, n), Big(4, i.size), Big(8, ToU64(i.created));
    assert [] + a == a;
    Assoc(a, b, i.name + (c + d));
    Assoc(a + b, i.name, c + d);
    Assoc(a + b + i.name, c, d);
    assert a + b + i.name + c + d + [] == a + b + i.name + c + d;
    IntAt(e, [], 8, i.prodId, b + (i.name + (c + d)));
    IntAt(e, a, 2, n, i.name + (c + d));
    Place(a + b, i.name, c + d);
    IntAt(e, a + b + i.name, 4, i.size, d);
    IntAt(e, a + b + i.name + c, 8, ToU64(i.created), []);
  }

  /** The identifier, the product's size, and the data, whose length is not sent. */
  lemma DataSegLayout(seg: DataSeg)
    ensures var e := EncDataSeg(seg);
      && |e| == 16 + |seg.data|
      && Field(e, 0, 8) == seg.segId.prodId && Field(e, 8, 4) == seg.segId.offset
      && Field(e, 12, 4) == seg.prodSize && e[16..] == seg.data
  {
    var e, i := EncDataSeg(seg), EncSegId(seg.segId);
    SegIdLayout(seg.segId);
    assert e == i + Big(4, seg.prodSize) + seg.data;
    assert e[0..8] == i[0..8] && e[8..12] == i[8..12];
    IntAt(e, i, 4, seg.prodSize, seg.data);
  }

  lemma {:induction false} IdsLayout(ids: seq<u64>, k: nat)
    requires k < |ids|
    ensures |EncIds(ids)| == 8 * |ids| && Field(EncIds(ids), 8 * k, 8) == ids[k]
    decreases |ids|
  {
    var e, rest := EncIds(ids), EncIds(ids[1..]);
    assert e == [] + Big(8, ids[0]) + rest;
    IdsLength(ids);
    if k == 0 {
      IntAt(e, [], 8, ids[0], rest);
    } else {
      IdsLayout(ids[1..], k - 1);
      assert e[8 * k..8 * k + 8] == rest[8 * (k - 1)..8 * (k - 1) + 8];
    }
  }

  lemma {:induction false} IdsLength(ids: seq<u64>)
    ensures |EncIds(ids)| == 8 * |ids|
  {
    if ids != [] {
      IdsLength(ids[1..]);
    }
  }

  // Units

  /** Every unit begins with the number of its kind. */
  lemma KindFirst(m: u16, p: Pdu)
    requires Sendable(m, p)
    ensures |EncPdu(m, p)| >= 2 && EncPdu(m, p)[2..] == EncPayload(m, p)
    ensures Field(EncPdu(m, p), 0, 2) ==
              if p.SrvrInfoPdu? then 1
              else if p.TrackerPdu? then 2
              else if p.SrvrInfoNotice? then 3
              else if p.ProdInfoNotice? then 4
              else if p.DataSegNotice? then 5
              else if p.PreviouslyReceived? then 6
              else if p.ProdInfoRequest? then 7
              else if p.DataSegRequest? then 8
              else if p.ProdInfoPdu? then 9
              else if p.DataSegPdu? then 10
              else 11
  {
    var e := EncPdu(m, p);
    assert e == [] + Big(2, PduId(p)) + EncPayload(m, p);
    IntAt(e, [], 2, PduId(p), EncPayload(m, p));
  }

  /** What follows, for the units that name a product or a segment, carry one, or carry nothing. */
  lemma PayloadLayout(m: u16, p: Pdu)
    requires Sendable(m, p)
    ensures var e := EncPayload(m, p);
      match p
      case ProdInfoNotice(id) => |e| == 8 && Field(e, 0, 8) == id
      case ProdInfoRequest(id) => |e| == 8 && Field(e, 0, 8) == id
      case DataSegNotice(id) => |e| == 12 && Field(e, 0, 8) == id.prodId && Field(e, 8, 4) == id.offset
      case DataSegRequest(id) => |e| == 12 && Field(e, 0, 8) == id.prodId && Field(e, 8, 4) == id.offset
      case ProdInfoPdu(i) => |e| == |i.name| + 22 && Field(e, 0, 8) == i.prodId
      case DataSegPdu(seg) => |e| == 16 + |seg.data| && Field(e, 0, 8) == seg.segId.prodId && e[16..] == seg.data
      case SrvrInfoPdu(i) => e == EncInfo(i)
      case SrvrInfoNotice(i) => e == EncInfo(i)
      case TrackerPdu(infos) =>
        && |e| >= 4 && Field(e, 0, 4) == |infos| && e[4..] == Wire.Concat(Wire.InfoCodes(infos))
        && forall k :: 0 <= k < |infos| ==> Wire.InfoCodes(infos)[k] == EncInfo(infos[k])
      case PreviouslyReceived(ids) =>
        && |e| == 4 + 8 * |ids| && Field(e, 0, 4) == |ids|
        && forall k :: 0 <= k < |ids| ==> Field(e, 4 + 8 * k, 8) == ids[k]
      case Heartbeat => e == []
  {
    var e := EncPayload(m, p);
    match p
    case ProdInfoNotice(id) => WholeIs(e, id);
    case ProdInfoRequest(id) => WholeIs(e, id);
    case DataSegNotice(id) => SegIdLayout(id);
    case DataSegRequest(id) => SegIdLayout(id);
    case ProdInfoPdu(i) => ProdInfoLayout(i);
    case DataSegPdu(seg) => DataSegLayout(seg);
    case TrackerPdu(infos) => CountFirst(e, |infos|, EncInfos(infos));
    case PreviouslyReceived(ids) =>
      CountFirst(e, |ids|, EncIds(ids));
      IdsLength(ids);
      forall k | 0 <= k < |ids|
        ensures Field(e, 4 + 8 * k, 8) == ids[k]
      {
        IdsLayout(ids, k);
        assert e[4 + 8 * k..4 + 8 * k + 8] == EncIds(ids)[8 * k..8 * k + 8];
      }
    case _ =>
  }

  lemma WholeIs(e: Bytes, id: u64)
    requires e == Big(8, id)
    ensures |e| == 8 && Field(e, 0, 8) == id
  {
    assert e == [] + Big(8, id) + [];
    IntAt(e, [], 8, id, []);
  }

  lemma CountFirst(e: Bytes, n: u32, rest: Bytes)
    requires e == Big(4, n) + rest
    ensures |e| >= 4 && Field(e, 0, 4) == n && e[4..] == rest
  {
    assert e == [] + Big(4, n) + rest;
    IntAt(e, [], 4, n, rest);
  }

  // What is no unit

  lemma FieldAt0(s: Bytes, n: nat)
    requires n <= |s| && n > 0
    ensures DecInt(s, n) == Got(Field(s, 0, n), s[n..])
  {
    assert s[0..n] == s[..n];
  }

  /** Fewer than two bytes are a lost connection; a kind other than those from 1 to 11 throws. */
  lemma NoUnit(m: u16, s: Bytes)
    ensures |s| < 2 ==> Recv(m, s) == Lost
    ensures |s| >= 2 && (Field(s, 0, 2) == 0 || Field(s, 0, 2) > 11) ==> Recv(m, s) == Thrown
    ensures |s| >= 2 && Field(s, 0, 2) == 11 ==> Recv(m, s) == Got([], s[2..])
  {
    if |s| >= 2 {
      FieldAt0(s, 2);
    }
  }

  /** An address of an unknown kind, or one that breaks off after its tag, throws. */
  lemma NoInetAddr(s: Bytes)
    ensures s == [] ==> DecInet(s) == Lost
    ensures s != [] && s[0] > 2 ==> DecInet(s) == Thrown
    ensures s != [] && s[0] == 0 ==> (DecInet(s) == Thrown <==> |s| < 5) && (DecInet(s).Got? <==> |s| >= 5)
    ensures s != [] && s[0] == 1 ==> (DecInet(s) == Thrown <==> |s| < 17) && (DecInet(s).Got? <==> |s| >= 17)
    ensures s != [] && s[0] == 2 ==>
              && (DecInet(s) == Thrown <==> |s| == 1 || |s| - 2 < s[1])
              && (DecInet(s).Got? <==> |s| > 1 && |s| - 2 >= s[1])
  {
    if s != [] {
      Byte(s);
      if |s| > 1 {
        Byte(s[1..]);
      }
    }
  }

  lemma Byte(s: Bytes)
    requires s != []
    ensures Dec8(s) == Got(s[0], s[1..])
  {
    assert s[..1] == [s[0]];
    assert s[..1][..0] == [];
    assert Value([s[0]]) == s[0] by {
      assert [s[0]][..0] == [];
    }
  }

  /** A name of more than 4095 bytes throws, whether or not it has arrived. */
  lemma NoName(s: Bytes)
    ensures |s| < 2 ==> DecName(s) == Lost
    ensures |s| >= 2 && Field(s, 0, 2) > 4095 ==> DecName(s) == Thrown
    ensures |s| >= 2 && Field(s, 0, 2) <= 4095 ==>
              (DecName(s).Got? <==> |s| >= 2 + Field(s, 0, 2)) && DecName(s) != Thrown
  {
    if |s| >= 2 {
      FieldAt0(s, 2);
    }
  }
}
