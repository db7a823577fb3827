/** A connection's transport, and the reading and writing of everything that is sent through it. */
module Transport {
  import opened Common
  import opened Address
  import opened ByteOrder
  import opened Codec
  import opened SrvrInfo
  import opened Messages
  import RequestQueue
  import Segmentation

  /** Whether an operation succeeded, the connection was lost, or an exception was thrown. */
  datatype Outcome = Done | Broken | Threw

  datatype Result<+T> = Ok(value: T) | Fail(outcome: Outcome) {
    predicate IsFailure() {
      Fail?
    }

    function PropagateFailure<U>(): Result<U>
      requires IsFailure()
    {
      Fail(outcome)
    }

    function Extract(): T
      requires !IsFailure()
    {
      value
    }
  }

  /** What the writing of `b`, after `before` had been sent, leaves behind: all of `b`, or a part of it
      when the connection is lost. */
  ghost predicate Wrote(before: Bytes, b: Bytes, after: Bytes, o: Outcome) {
    before <= after <= before + b && o != Threw && (o == Done <==> after == before + b)
  }

  lemma Chain(before: Bytes, a: Bytes, mid: Bytes, o1: Outcome, b: Bytes, after: Bytes, o2: Outcome)
    requires Wrote(before, a, mid, o1)
    requires if o1 == Done then Wrote(mid, b, after, o2) else after == mid && o2 == o1
    ensures Wrote(before, a + b, after, o2)
  {
    Assoc(before, a, b);
  }

  class Xprt {
    const host: Host
    /** The number of bytes that get through before the connection is lost, if it ever is. */
    const limit: Option<nat>
    var sent: Bytes
    var input: Bytes

    constructor (host: Host, limit: Option<nat>, input: Bytes)
      ensures this.host == host && this.limit == limit && this.input == input && sent == []
    {
      this.host, this.limit, this.input, sent := host, limit, input, [];
    }

    /** What was read, and what is left to be read, agree with a decoding. */
    ghost predicate ReadAs<T>(p: Parse<T>, r: Result<T>)
      reads this
    {
      match p
      case Got(value, rest) => r == Ok(value) && input == rest
      case Lost => r == Fail(Broken)
      case Thrown => r == Fail(Threw)
    }

    method Write(b: Bytes) returns (o: Outcome)
      modifies this`sent
      ensures Wrote(old(sent), b, sent, o)
      ensures o == Done <==> limit == None || |old(sent)| + |b| <= limit.value || b == []
    {
      if limit.Some? && |sent| + |b| > limit.value && b != [] {
        sent := sent + b[..if |sent| < limit.value then limit.value - |sent| else 0];
        return Broken;
      }
      sent := sent + b;
      o := Done;
    }

    method Read(n: nat) returns (r: Result<Bytes>)
      modifies this`input
      ensures ReadAs(DecBytes(old(input), n), r)
    {
      if |input| < n {
        input := [];
        return Fail(Broken);
      }
      r, input := Ok(input[..n]), input[n..];
    }

    // Integers, in the machine's byte order in memory

    method WriteU8(x: u8) returns (o: Outcome)
      modifies this`sent
      ensures Wrote(old(sent), Big(1, x), sent, o)
    {
      assert Big(1, x) == [x];
      o := Write([x]);
    }

    method WriteU16(x: u16) returns (o: Outcome)
      modifies this`sent
      ensures Wrote(old(sent), Big(2, x), sent, o)
    {
      Sent16IsBigEndian(host, x);
      o := Write(Memory16(host, Hton16(host, x)));
    }

    method WriteU32(x: u32) returns (o: Outcome)
      modifies this`sent
      ensures Wrote(old(sent), Big(4, x), sent, o)
    {
      Sent32IsBigEndian(host, x);
      o := Write(Memory32(host, Hton32(host, x)));
    }

    method WriteU64(x: u64) returns (o: Outcome)
      modifies this`sent
      ensures Wrote(old(sent), Big(8, x), sent, o)
    {
      Sent64IsBigEndian(host, x);
      o := Write(Sent64(host, x));
    }

    method ReadU8() returns (r: Result<u8>)
      modifies this`input
      ensures ReadAs(Dec8(old(input)), r)
    {
      var b :- Read(1);
      assert b[..0] == [];
      r := Ok(b[0]);
    }

    method ReadU16() returns (r: Result<u16>)
      modifies this`input
      ensures ReadAs(Dec16(old(input)), r)
    {
      var b :- Read(2);
      Received16IsBigEndian(host, b);
      r := Ok(Hton16(host, Load16(host, b)));
    }

    method ReadU32() returns (r: Result<u32>)
      modifies this`input
      ensures ReadAs(Dec32(old(input)), r)
    {
      var b :- Read(4);
      Received32IsBigEndian(host, b);
      r := Ok(Hton32(host, Load32(host, b)));
    }

    method ReadU64() returns (r: Result<u64>)
      modifies this`input
      ensures ReadAs(Dec64(old(input)), r)
    {
      var b :- Read(8);
      Received64IsBigEndian(host, b);
      r := Ok(Received64(host, b));
    }

    // Time points

    method WriteTime(time: i64) returns (o: Outcome)
      modifies this`sent
      ensures Wrote(old(sent), EncTime(time), sent, o)
    {
      ghost var before := sent;
      var secs, usecs := PartsOf(time);
      o := WriteU64(secs);
      ghost var mid, o1 := sent, o;
      if o == Done {
        o := WriteU32(usecs);
      }
      Chain(before, Big(8, secs), mid, o1, Big(4, usecs), sent, o);
    }

    method ReadTime() returns (r: Result<i64>)
      modifies this`input
      ensures ReadAs(DecTime(old(input)), r)
    {
      var secs :- ReadU64();
      var usecs :- ReadU32();
      r := Ok(TimeOf(secs, usecs));
    }
  }

  /** The seconds and microseconds of a time, in the arithmetic of the machine. */
  method PartsOf(time: i64) returns (secs: u64, usecs: u32)
    ensures (secs, usecs) == TimeParts(time)
  {
    var whole := TruncDiv(time, NANOS);
    FromTimeTInRange(whole);
    secs := ToU64(whole);
    var rest := TruncDiv(time - FromTimeT(secs), 1000);
    assert (whole, rest) == Split(time);
    if rest < 0 {
      secs := ToU64(secs as int - 1);
      rest := rest + MICROS;
    }
    usecs := rest;
  }

  // Addresses and information on servers

  method WriteInet(x: Xprt, a: InetAddr) returns (o: Outcome)
    requires a != NoInet && (a.Name? ==> |a.name| <= 255)
    modifies x`sent
    ensures Wrote(old(x.sent), EncInet(a), x.sent, o)
  {
    ghost var before := x.sent;
    match a
    case Inet4(sAddr) =>
      o := x.WriteU8(0);
      ghost var mid, o1 := x.sent, o;
      if o == Done {
        o := x.WriteU32(sAddr);
      }
      Chain(before, Big(1, 0), mid, o1, Big(4, sAddr), x.sent, o);
    case Inet6(addr) =>
      o := x.WriteU8(1);
      ghost var mid, o1 := x.sent, o;
      if o == Done {
        o := x.Write(addr);
      }
      Chain(before, Big(1, 1), mid, o1, addr, x.sent, o);
    case Name(name) =>
      o := x.WriteU8(2);
      ghost var mid, o1 := x.sent, o;
      if o == Done {
        o := WriteString8(x, name);
      }
      Chain(before, Big(1, 2), mid, o1, Big(1, |name|) + name, x.sent, o);
  }

  method WriteString8(x: Xprt, s: Bytes) returns (o: Outcome)
    requires |s| <= 255
    modifies x`sent
    ensures Wrote(old(x.sent), Big(1, |s|) + s, x.sent, o)
  {
    ghost var before := x.sent;
    o := x.WriteU8(|s|);
    ghost var mid, o1 := x.sent, o;
    if o == Done {
      o := x.Write(s);
    }
    Chain(before, Big(1, |s|), mid, o1, s, x.sent, o);
  }

  method ReadString8(x: Xprt) returns (r: Result<Bytes>)
    modifies x`input
    ensures x.ReadAs(DecString8(old(x.input)), r)
  {
    var n :- x.ReadU8();
    r := x.Read(n);
  }

  /** A constructor that reads turns a lost connection into an exception. */
  function Constructing<T>(r: Result<T>): Result<T> {
    if r.Ok? then r else Fail(Threw)
  }

  method ReadInet(x: Xprt) returns (r: Result<InetAddr>)
    modifies x`input
    ensures x.ReadAs(DecInet(old(x.input)), r)
  {
    var tag :- x.ReadU8();
    if tag == 0 {
      var word := x.ReadU32();
      var sAddr :- Constructing(word);
      r := Ok(Inet4(sAddr));
    } else if tag == 1 {
      var bytes := x.Read(16);
      var addr :- Constructing(bytes);
      r := Ok(Inet6(addr));
    } else if tag == 2 {
      var text := ReadString8(x);
      var name :- Constructing(text);
      r := Ok(Name(name));
    } else {
      r := Fail(Threw);
    }
  }

  method WriteSock(x: Xprt, a: SockAddr) returns (o: Outcome)
    requires SendableAddr(a)
    modifies x`sent
    ensures Wrote(old(x.sent), EncSock(a), x.sent, o)
  {
    ghost var before := x.sent;
    o := WriteInet(x, a.inet);
    ghost var mid, o1 := x.sent, o;
    if o == Done {
      o := x.WriteU16(a.port);
    }
    Chain(before, EncInet(a.inet), mid, o1, Big(2, a.port), x.sent, o);
  }

  method ReadSock(x: Xprt) returns (r: Result<SockAddr>)
    modifies x`input
    ensures x.ReadAs(DecSock(old(x.input)), r)
  {
    var inet :- ReadInet(x);
    var port :- x.ReadU16();
    r := Ok(Sock(inet, port));
  }

  method WriteMetrics(x: Xprt, tier: i16, numAvail: i16, valid: i64) returns (o: Outcome)
    modifies x`sent
    ensures Wrote(old(x.sent), EncMetrics(tier, numAvail, valid), x.sent, o)
  {
    ghost var before := x.sent;
    o := x.WriteU16(ToU16(tier));
    ghost var mid1, o1 := x.sent, o;
    if o == Done {
      o := x.WriteU16(ToU16(numAvail));
      ghost var mid2, o2 := x.sent, o;
      if o == Done {
        o := x.WriteTime(valid);
      }
      Chain(mid1, Big(2, ToU16(numAvail)), mid2, o2, EncTime(valid), x.sent, o);
    }
    Chain(before, Big(2, ToU16(tier)), mid1, o1, Big(2, ToU16(numAvail)) + EncTime(valid), x.sent, o);
  }

  method WriteInfo(x: Xprt, i: P2pSrvrInfo) returns (o: Outcome)
    requires SendableAddr(i.srvrAddr)
    modifies x`sent
    ensures Wrote(old(x.sent), EncInfo(i), x.sent, o)
  {
    ghost var before := x.sent;
    o := WriteSock(x, i.srvrAddr);
    ghost var mid, o1 := x.sent, o;
    if o == Done {
      o := WriteMetrics(x, i.tier, i.numAvail, i.valid);
    }
    Chain(before, EncSock(i.srvrAddr), mid, o1, EncMetrics(i.tier, i.numAvail, i.valid), x.sent, o);
  }

  method ReadMetrics(x: Xprt) returns (r: Result<(i16, i16, i64)>)
    modifies x`input
    ensures x.ReadAs(DecMetrics(old(x.input)), r)
  {
    var tier :- x.ReadU16();
    var numAvail :- x.ReadU16();
    var valid :- x.ReadTime();
    r := Ok((ToI16(tier), ToI16(numAvail), valid));
  }

  method ReadInfo(x: Xprt) returns (r: Result<P2pSrvrInfo>)
    modifies x`input
    ensures x.ReadAs(DecInfo(old(x.input)), r)
  {
    var addr :- ReadSock(x);
    var metrics :- ReadMetrics(x);
    r := Ok(P2pSrvrInfo(metrics.2, addr, metrics.0, metrics.1));
  }

  // Products and segments

  method WriteSegId(x: Xprt, id: RequestQueue.DataSegId) returns (o: Outcome)
    modifies x`sent
    ensures Wrote(old(x.sent), EncSegId(id), x.sent, o)
  {
    ghost var before := x.sent;
    o := x.WriteU64(id.prodId);
    ghost var mid, o1 := x.sent, o;
    if o == Done {
      o := x.WriteU32(id.offset);
    }
    Chain(before, Big(8, id.prodId), mid, o1, Big(4, id.offset), x.sent, o);
  }

  method ReadSegId(x: Xprt) returns (r: Result<RequestQueue.DataSegId>)
    modifies x`input
    ensures x.ReadAs(DecSegId(old(x.input)), r)
  {
    var prodId :- x.ReadU64();
    var offset :- x.ReadU32();
    r := Ok(RequestQueue.DataSegId(prodId, offset));
  }

  method WriteProdInfo(x: Xprt, i: ProdInfo) returns (o: Outcome)
    requires |i.name| <= MAX_NAME
    modifies x`sent
    ensures Wrote(old(x.sent), EncProdInfo(i), x.sent, o)
  {
    ghost var before := x.sent;
    ghost var c := Big(8, ToU64(i.created));
    ghost var b := Big(4, i.size) + c;
    o := x.WriteU64(i.prodId);
    ghost var mid1, o1 := x.sent, o;
    if o == Done {
      o := x.WriteU16(|i.name|);
      ghost var mid2, o2 := x.sent, o;
      if o == Done {
        o := x.Write(i.name);
        ghost var mid3, o3 := x.sent, o;
        if o == Done {
          o := WriteSizeAndTime(x, i);
        }
        Chain(mid2, i.name, mid3, o3, b, x.sent, o);
      }
      Chain(mid1, Big(2, |i.name|), mid2, o2, i.name + b, x.sent, o);
    }
    Chain(before, Big(8, i.prodId), mid1, o1, Big(2, |i.name|) + (i.name + b), x.sent, o);
  }

  method WriteSizeAndTime(x: Xprt, i: ProdInfo) returns (o: Outcome)
    modifies x`sent
    ensures Wrote(old(x.sent), Big(4, i.size) + Big(8, ToU64(i.created)), x.sent, o)
  {
    ghost var before := x.sent;
    o := x.WriteU32(i.size);
    ghost var mid, o1 := x.sent, o;
    if o == Done {
      o := x.WriteU64(ToU64(i.created));
    }
    Chain(before, Big(4, i.size), mid, o1, Big(8, ToU64(i.created)), x.sent, o);
  }

  method ReadName(x: Xprt) returns (r: Result<Bytes>)
    modifies x`input
    ensures x.ReadAs(DecName(old(x.input)), r)
  {
    var n :- x.ReadU16();
    if n > MAX_NAME {
      return Fail(Threw);
    }
    r := x.Read(n);
  }

  method ReadProdInfo(x: Xprt) returns (r: Result<ProdInfo>)
    modifies x`input
    ensures x.ReadAs(DecProdInfo(old(x.input)), r)
  {
    var prodId :- x.ReadU64();
    var name :- ReadName(x);
    var size :- x.ReadU32();
    var count :- x.ReadU64();
    r := Ok(ProdInfo(prodId, name, size, ToI64(count)));
  }

  method WriteDataSeg(x: Xprt, seg: DataSeg) returns (o: Outcome)
    modifies x`sent
    ensures Wrote(old(x.sent), EncDataSeg(seg), x.sent, o)
  {
    ghost var before := x.sent;
    o := WriteSegId(x, seg.segId);
    ghost var mid1, o1 := x.sent, o;
    if o == Done {
      o := x.WriteU32(seg.prodSize);
      ghost var mid2, o2 := x.sent, o;
      if o == Done {
        o := x.Write(seg.data);
      }
      Chain(mid1, Big(4, seg.prodSize), mid2, o2, seg.data, x.sent, o);
    }
    Chain(before, EncSegId(seg.segId), mid1, o1, Big(4, seg.prodSize) + seg.data, x.sent, o);
  }

  method ReadDataSeg(x: Xprt, m: u16) returns (r: Result<DataSeg>)
    modifies x`input
    ensures x.ReadAs(DecDataSeg(m, old(x.input)), r)
  {
    var id :- ReadSegId(x);
    var prodSize :- x.ReadU32();
    var data :- x.Read(Segmentation.Size(m, prodSize, id.offset));
    r := Ok(DataSeg(id, prodSize, data));
  }

  // Sets and trackers

  /** The identifiers of a set in the order of an iteration. */
  method IdsInOrder(ids: set<u64>) returns (order: seq<u64>)
    ensures NoDup(order) && Elems(order) == ids && |order| == |ids|
  {
    var todo := ids;
    order := [];
    while todo != {}
      invariant NoDup(order) && Elems(order) == ids - todo && todo <= ids
      decreases todo
    {
      var id :| id in todo;
      NoDupAppend(order, id);
      todo := todo - {id};
      order := order + [id];
    }
    NoDupCard(order);
  }

  /** Writes identifiers after their number. */
  method WriteProdIds(x: Xprt, ids: seq<u64>) returns (o: Outcome)
    requires |ids| < 0x1_0000_0000
    modifies x`sent
    ensures Wrote(old(x.sent), Big(4, |ids|) + EncIds(ids), x.sent, o)
  {
    ghost var before := x.sent;
    o := x.WriteU32(|ids|);
    ghost var mid, o1 := x.sent, o;
    assert ids[..0] == [];
    for i := 0 to |ids|
      invariant if o1 == Done then Wrote(mid, EncIds(ids[..i]), x.sent, o) else x.sent == mid && o == o1
    {
      ghost var mid2, o2 := x.sent, o;
      if o == Done {
        o := x.WriteU64(ids[i]);
      }
      EncIdsUpTo(ids, i);
      if o1 == Done {
        Chain(mid, EncIds(ids[..i]), mid2, o2, Big(8, ids[i]), x.sent, o);
      }
    }
    assert ids[..|ids|] == ids;
    Chain(before, Big(4, |ids|), mid, o1, EncIds(ids), x.sent, o);
  }

  lemma {:induction false} EncIdsSnoc(ids: seq<u64>, id: u64)
    ensures EncIds(ids + [id]) == EncIds(ids) + Big(8, id)
  {
    if ids == [] {
      assert [id][1..] == [];
    } else {
      EncIdsSnoc(ids[1..], id);
      assert (ids + [id])[1..] == ids[1..] + [id];
      Assoc(Big(8, ids[0]), EncIds(ids[1..]), Big(8, id));
    }
  }

  lemma EncIdsUpTo(ids: seq<u64>, i: nat)
    requires i < |ids|
    ensures EncIds(ids[..i + 1]) == EncIds(ids[..i]) + Big(8, ids[i])
  {
    assert ids[..i + 1] == ids[..i] + [ids[i]];
    EncIdsSnoc(ids[..i], ids[i]);
  }

  method ReadProdIds(x: Xprt) returns (r: Result<set<u64>>)
    modifies x`input
    ensures x.ReadAs(DecProdIds(old(x.input)), r)
  {
    var size :- x.ReadU32();
    ghost var start, n := x.input, size;
    var prodIds: set<u64> := {};
    ghost var ids: seq<u64> := [];
    while size > 0
      invariant prodIds == Elems(ids)
      invariant DecMany(Dec64, start, n, []) == DecMany(Dec64, x.input, size, ids)
      decreases size
    {
      ghost var before := x.input;
      var id :- x.ReadU64();
      assert DecMany(Dec64, before, size, ids) == DecMany(Dec64, x.input, size - 1, ids + [id]);
      size := size - 1;
      ids := ids + [id];
      prodIds := prodIds + {id};
    }
    r := Ok(prodIds);
  }
}
