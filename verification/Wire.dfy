/** Streams of protocol data units can be decoded in one way only. */
module Wire {
  import opened Common
  import opened Address
  import opened ByteOrder
  import opened Codec
  import opened SrvrInfo
  import RequestQueue
  import opened Messages
  import Segmentation
  import Tracker
  import TrackerMerge
  import TrackerRuns

  // What is read of an encoding with more bytes after it

  lemma DecInetBack(a: InetAddr, t: Bytes)
    requires a != NoInet && (a.Name? ==> |a.name| <= 255)
    ensures DecInet(EncInet(a) + t) == Got(a, t)
  {
    match a
    case Inet4(x) =>
      Assoc(Big(1, 0), Big(4, x), t);
      Dec8Back(0, Big(4, x) + t);
      Dec32Back(x, t);
    case Inet6(b) =>
      Assoc(Big(1, 1), b, t);
      Dec8Back(1, b + t);
      DecBytesBack(b, t);
    case Name(b) =>
      Assoc(Big(1, 2), Big(1, |b|) + b, t);
      Assoc(Big(1, |b|), b, t);
      Dec8Back(2, Big(1, |b|) + (b + t));
      Dec8Back(|b|, b + t);
      DecBytesBack(b, t);
  }

  lemma DecSockBack(a: SockAddr, t: Bytes)
    requires SendableAddr(a)
    ensures DecSock(EncSock(a) + t) == Got(a, t)
  {
    Assoc(EncInet(a.inet), Big(2, a.port), t);
    DecInetBack(a.inet, Big(2, a.port) + t);
    Dec16Back(a.port, t);
  }

  /** The information that arrives: its time is truncated. */
  function ArrivingInfo(i: P2pSrvrInfo): P2pSrvrInfo {
    i.(valid := Arriving(i.valid))
  }

  lemma DecMetricsBack(tier: i16, numAvail: i16, valid: i64, t: Bytes)
    ensures DecMetrics(EncMetrics(tier, numAvail, valid) + t) == Got((tier, numAvail, Arriving(valid)), t)
  {
    var b := EncTime(valid) + t;
    var a := Big(2, ToU16(numAvail)) + b;
    Assoc(Big(2, ToU16(tier)), Big(2, ToU16(numAvail)) + EncTime(valid), t);
    Assoc(Big(2, ToU16(numAvail)), EncTime(valid), t);
    Dec16Back(ToU16(tier), a);
    Dec16Back(ToU16(numAvail), b);
    DecTimeBack(valid, t);
    ToI64Inverse(0, tier);
    ToI64Inverse(0, numAvail);
  }

  lemma DecInfoBack(i: P2pSrvrInfo, t: Bytes)
    requires SendableAddr(i.srvrAddr)
    ensures DecInfo(EncInfo(i) + t) == Got(ArrivingInfo(i), t)
  {
    var a := EncMetrics(i.tier, i.numAvail, i.valid) + t;
    Assoc(EncSock(i.srvrAddr), EncMetrics(i.tier, i.numAvail, i.valid), t);
    DecSockBack(i.srvrAddr, a);
    DecMetricsBack(i.tier, i.numAvail, i.valid, t);
  }

  function ArrivingInfos(infos: seq<P2pSrvrInfo>): (r: seq<P2pSrvrInfo>)
    ensures |r| == |infos| && forall i :: 0 <= i < |r| ==> r[i] == ArrivingInfo(infos[i])
  {
    if infos == [] then [] else [ArrivingInfo(infos[0])] + ArrivingInfos(infos[1..])
  }

  /** The concatenation of encodings. */
  function Concat(codes: seq<Bytes>): Bytes {
    if codes == [] then [] else codes[0] + Concat(codes[1..])
  }

  lemma {:induction false} DecManyBack<T(!new)>(dec: Bytes -> Parse<T>, codes: seq<Bytes>, xs: seq<T>,
                                                before: seq<T>, t: Bytes)
    requires Consumes(dec)
    requires |codes| == |xs| && forall i, u :: 0 <= i < |xs| ==> dec(codes[i] + u) == Got(xs[i], u)
    ensures DecMany(dec, Concat(codes) + t, |xs|, before) == Got(before + xs, t)
  {
    if xs == [] {
      assert Concat(codes) + t == t;
      assert before + xs == before;
    } else {
      Assoc(codes[0], Concat(codes[1..]), t);
      DecManyBack(dec, codes[1..], xs[1..], before + [xs[0]], t);
      assert before + [xs[0]] + xs[1..] == before + xs;
    }
  }

  function InfoCodes(infos: seq<P2pSrvrInfo>): (r: seq<Bytes>)
    requires forall i :: 0 <= i < |infos| ==> SendableAddr(infos[i].srvrAddr)
    ensures |r| == |infos| && forall i :: 0 <= i < |r| ==> r[i] == EncInfo(infos[i])
    ensures Concat(r) == EncInfos(infos)
  {
    if infos == [] then [] else [EncInfo(infos[0])] + InfoCodes(infos[1..])
  }

  lemma InfosBack(infos: seq<P2pSrvrInfo>, t: Bytes)
    requires forall i :: 0 <= i < |infos| ==> SendableAddr(infos[i].srvrAddr)
    ensures DecMany(DecInfo, EncInfos(infos) + t, |infos|, []) == Got(ArrivingInfos(infos), t)
  {
    var codes, xs := InfoCodes(infos), ArrivingInfos(infos);
    forall i, u | 0 <= i < |xs|
      ensures DecInfo(codes[i] + u) == Got(xs[i], u)
    {
      DecInfoBack(infos[i], u);
    }
    DecManyBack(DecInfo, codes, xs, [], t);
    assert [] + xs == xs;
  }

  lemma DecTrackerBack(infos: seq<P2pSrvrInfo>, t: Bytes)
    requires |infos| < 0x1_0000_0000 && forall i :: 0 <= i < |infos| ==> SendableAddr(infos[i].srvrAddr)
    ensures DecTracker(Big(4, |infos|) + EncInfos(infos) + t) == Got(ArrivingInfos(infos), t)
  {
    Assoc(Big(4, |infos|), EncInfos(infos), t);
    Dec32Back(|infos|, EncInfos(infos) + t);
    InfosBack(infos, t);
  }

  function IdCodes(ids: seq<u64>): (r: seq<Bytes>)
    ensures |r| == |ids| && forall i :: 0 <= i < |r| ==> r[i] == Big(8, ids[i])
    ensures Concat(r) == EncIds(ids)
  {
    if ids == [] then [] else [Big(8, ids[0])] + IdCodes(ids[1..])
  }

  lemma IdsBack(ids: seq<u64>, t: Bytes)
    ensures DecMany(Dec64, EncIds(ids) + t, |ids|, []) == Got(ids, t)
  {
    var codes := IdCodes(ids);
    forall i, u | 0 <= i < |ids|
      ensures Dec64(codes[i] + u) == Got(ids[i], u)
    {
      Dec64Back(ids[i], u);
    }
    DecManyBack(Dec64, codes, ids, [], t);
    assert [] + ids == ids;
  }

  lemma DecIdListBack(ids: seq<u64>, t: Bytes)
    requires |ids| < 0x1_0000_0000
    ensures DecIdList(Big(4, |ids|) + EncIds(ids) + t) == Got(ids, t)
  {
    Assoc(Big(4, |ids|), EncIds(ids), t);
    Dec32Back(|ids|, EncIds(ids) + t);
    IdsBack(ids, t);
  }

  lemma DecSegIdBack(id: RequestQueue.DataSegId, t: Bytes)
    ensures DecSegId(EncSegId(id) + t) == Got(id, t)
  {
    Assoc(Big(8, id.prodId), Big(4, id.offset), t);
    Dec64Back(id.prodId, Big(4, id.offset) + t);
    Dec32Back(id.offset, t);
  }

  lemma ProdInfoParts(i: ProdInfo, t: Bytes)
    requires |i.name| <= MAX_NAME
    ensures EncProdInfo(i) + t ==
              Big(8, i.prodId) + (Big(2, |i.name|) + (i.name + (Big(4, i.size) + (Big(8, ToU64(i.created)) + t))))
  {
    var c := Big(8, ToU64(i.created));
    var b := Big(4, i.size) + c;
    var a := i.name + b;
    Assoc(Big(8, i.prodId), Big(2, |i.name|) + a, t);
    Assoc(Big(2, |i.name|), a, t);
    Assoc(i.name, b, t);
    Assoc(Big(4, i.size), c, t);
  }

  lemma DecProdInfoBack(i: ProdInfo, t: Bytes)
    requires |i.name| <= MAX_NAME
    ensures DecProdInfo(EncProdInfo(i) + t) == Got(i, t)
  {
    var c := Big(8, ToU64(i.created)) + t;
    var b := Big(4, i.size) + c;
    var a := Big(2, |i.name|) + (i.name + b);
    ProdInfoParts(i, t);
    Dec64Back(i.prodId, a);
    DecNameBack(i.name, b);
    Dec32Back(i.size, c);
    Dec64Back(ToU64(i.created), t);
    ToI64Inverse(i.created, 0);
  }

  lemma DecNameBack(name: Bytes, t: Bytes)
    requires |name| <= MAX_NAME
    ensures DecName(Big(2, |name|) + (name + t)) == Got(name, t)
  {
    Dec16Back(|name|, name + t);
    DecBytesBack(name, t);
  }

  lemma DecBytesBackIff(n: nat, b: Bytes, t: Bytes)
    ensures DecBytes(b + t, n) == Got(b, t) <==> n == |b|
  {
    if n == |b| {
      DecBytesBack(b, t);
    }
  }

  /** A segment arrives if and only if the receiver computes the length that the sender computed. */
  lemma DecDataSegBackIff(m: u16, n: u16, seg: DataSeg, t: Bytes)
    requires |seg.data| == Segmentation.Size(m, seg.prodSize, seg.segId.offset)
    ensures DecDataSeg(n, EncDataSeg(seg) + t) == Got(seg, t) <==>
              Segmentation.Size(n, seg.prodSize, seg.segId.offset) == |seg.data|
  {
    var b := seg.data + t;
    var a := Big(4, seg.prodSize) + b;
    Assoc(EncSegId(seg.segId), Big(4, seg.prodSize) + seg.data, t);
    Assoc(Big(4, seg.prodSize), seg.data, t);
    DecSegIdBack(seg.segId, a);
    Dec32Back(seg.prodSize, b);
    DecBytesBackIff(Segmentation.Size(n, seg.prodSize, seg.segId.offset), seg.data, t);
  }

  // What is read stays the same when more bytes come

  lemma DecString8Extends(s: Bytes, t: Bytes)
    ensures Extends(DecString8(s + t), DecString8(s), t)
  {
    Dec8Extends(s, t);
    if Dec8(s).Got? {
      DecBytesExtends(Dec8(s).rest, t, Dec8(s).value);
    }
  }

  lemma DecInetOfExtends(tag: u8, s: Bytes, t: Bytes)
    ensures Extends(DecInetOf(tag, s + t), DecInetOf(tag, s), t)
  {
    if tag == 0 {
      Dec32Extends(s, t);
    } else if tag == 1 {
      DecBytesExtends(s, t, 16);
    } else if tag == 2 {
      DecString8Extends(s, t);
    }
  }

  lemma DecInetExtends(s: Bytes, t: Bytes)
    ensures Extends(DecInet(s + t), DecInet(s), t)
  {
    Dec8Extends(s, t);
    if Dec8(s).Got? {
      DecInetOfExtends(Dec8(s).value, Dec8(s).rest, t);
    }
  }

  lemma DecSockExtends(s: Bytes, t: Bytes)
    ensures Extends(DecSock(s + t), DecSock(s), t)
  {
    DecInetExtends(s, t);
    if DecInet(s).Got? {
      Dec16Extends(DecInet(s).rest, t);
    }
  }

  lemma DecMetricsExtends(s: Bytes, t: Bytes)
    ensures Extends(DecMetrics(s + t), DecMetrics(s), t)
  {
    Dec16Extends(s, t);
    if Dec16(s).Got? {
      var s1 := Dec16(s).rest;
      Dec16Extends(s1, t);
      if Dec16(s1).Got? {
        DecTimeExtends(Dec16(s1).rest, t);
      }
    }
  }

  lemma DecInfoExtends(s: Bytes, t: Bytes)
    ensures Extends(DecInfo(s + t), DecInfo(s), t)
  {
    DecSockExtends(s, t);
    if DecSock(s).Got? {
      DecMetricsExtends(DecSock(s).rest, t);
    }
  }

  lemma {:induction false} DecManyExtends<T(!new)>(dec: Bytes -> Parse<T>, s: Bytes, t: Bytes, n: nat, before: seq<T>)
    requires Consumes(dec)
    requires forall b :: Extends(dec(b + t), dec(b), t)
    ensures Extends(DecMany(dec, s + t, n, before), DecMany(dec, s, n, before), t)
    decreases n
  {
    if n > 0 {
      assert Extends(dec(s + t), dec(s), t);
      if dec(s).Got? {
        DecManyExtends(dec, dec(s).rest, t, n - 1, before + [dec(s).value]);
      }
    }
  }

  lemma DecSegIdExtends(s: Bytes, t: Bytes)
    ensures Extends(DecSegId(s + t), DecSegId(s), t)
  {
    Dec64Extends(s, t);
    if Dec64(s).Got? {
      Dec32Extends(Dec64(s).rest, t);
    }
  }

  lemma DecNameExtends(s: Bytes, t: Bytes)
    ensures Extends(DecName(s + t), DecName(s), t)
  {
    Dec16Extends(s, t);
    if Dec16(s).Got? {
      DecBytesExtends(Dec16(s).rest, t, Dec16(s).value);
    }
  }

  lemma DecProdInfoExtends(s: Bytes, t: Bytes)
    ensures Extends(DecProdInfo(s + t), DecProdInfo(s), t)
  {
    Dec64Extends(s, t);
    if Dec64(s).Got? {
      var s1 := Dec64(s).rest;
      DecNameExtends(s1, t);
      if DecName(s1).Got? {
        var s2 := DecName(s1).rest;
        Dec32Extends(s2, t);
        if Dec32(s2).Got? {
          Dec64Extends(Dec32(s2).rest, t);
        }
      }
    }
  }

  lemma DecDataSegExtends(m: u16, s: Bytes, t: Bytes)
    ensures Extends(DecDataSeg(m, s + t), DecDataSeg(m, s), t)
  {
    DecSegIdExtends(s, t);
    if DecSegId(s).Got? {
      var s1 := DecSegId(s).rest;
      Dec32Extends(s1, t);
      if Dec32(s1).Got? {
        DecBytesExtends(Dec32(s1).rest, t, Segmentation.Size(m, Dec32(s1).value, DecSegId(s).value.offset));
      }
    }
  }

  lemma DecTrackerExtends(s: Bytes, t: Bytes)
    ensures Extends(DecTracker(s + t), DecTracker(s), t)
  {
    Dec32Extends(s, t);
    if Dec32(s).Got? {
      forall b ensures Extends(DecInfo(b + t), DecInfo(b), t) {
        DecInfoExtends(b, t);
      }
      DecManyExtends(DecInfo, Dec32(s).rest, t, Dec32(s).value, []);
    }
  }

  lemma DecIdListExtends(s: Bytes, t: Bytes)
    ensures Extends(DecIdList(s + t), DecIdList(s), t)
  {
    Dec32Extends(s, t);
    if Dec32(s).Got? {
      forall b ensures Extends(Dec64(b + t), Dec64(b), t) {
        Dec64Extends(b, t);
      }
      DecManyExtends(Dec64, Dec32(s).rest, t, Dec32(s).value, []);
    }
  }

  lemma DecPayloadExtends(m: u16, id: u16, s: Bytes, t: Bytes)
    ensures Extends(DecPayload(m, id, s + t), DecPayload(m, id, s), t)
  {
    match id
    case 1 => DecInfoExtends(s, t);
    case 2 => DecTrackerExtends(s, t);
    case 3 => DecInfoExtends(s, t);
    case 4 => Dec64Extends(s, t);
    case 5 => DecSegIdExtends(s, t);
    case 6 => DecIdListExtends(s, t);
    case 7 => Dec64Extends(s, t);
    case 8 => DecSegIdExtends(s, t);
    case 9 => DecProdInfoExtends(s, t);
    case 10 => DecDataSegExtends(m, s, t);
    case _ =>
  }

  lemma RecvExtends(m: u16, s: Bytes, t: Bytes)
    ensures Extends(Recv(m, s + t), Recv(m, s), t)
  {
    Dec16Extends(s, t);
    if Dec16(s).Got? {
      DecPayloadExtends(m, Dec16(s).value, Dec16(s).rest, t);
    }
  }

  // Streams

  /** The calls that a unit is meant to make: one, with an equal payload, or none for a heartbeat. */
  function Meaning(p: Pdu): seq<Call> {
    match p
    case SrvrInfoPdu(info) => [RecvSrvrInfo(ArrivingInfo(info))]
    case TrackerPdu(infos) => [RecvTracker(TrackerOf(ArrivingInfos(infos)))]
    case SrvrInfoNotice(info) => [NoticeOfSrvr(ArrivingInfo(info))]
    case ProdInfoNotice(id) => [NoticeOfProd(id)]
    case DataSegNotice(id) => [NoticeOfSeg(id)]
    case PreviouslyReceived(ids) => [RecvHaveProds(Elems(ids))]
    case ProdInfoRequest(id) => [RequestOfProd(id)]
    case DataSegRequest(id) => [RequestOfSeg(id)]
    case ProdInfoPdu(info) => [RecvProdInfo(info)]
    case DataSegPdu(seg) => [RecvDataSeg(seg)]
    case Heartbeat => []
  }

  lemma NoticeBack(m: u16, p: Pdu, t: Bytes)
    requires Sendable(m, p) && (p.SrvrInfoPdu? || p.TrackerPdu? || p.SrvrInfoNotice?)
    ensures DecPayload(m, PduId(p), EncPayload(m, p) + t) == Got(Meaning(p), t)
  {
    match p
    case SrvrInfoPdu(info) => DecInfoBack(info, t);
    case TrackerPdu(infos) => DecTrackerBack(infos, t);
    case SrvrInfoNotice(info) => DecInfoBack(info, t);
  }

  lemma IdBack(m: u16, p: Pdu, t: Bytes)
    requires p.ProdInfoNotice? || p.DataSegNotice? || p.ProdInfoRequest? || p.DataSegRequest?
    ensures DecPayload(m, PduId(p), EncPayload(m, p) + t) == Got(Meaning(p), t)
  {
    match p
    case ProdInfoNotice(id) => Dec64Back(id, t);
    case DataSegNotice(id) => DecSegIdBack(id, t);
    case ProdInfoRequest(id) => Dec64Back(id, t);
    case DataSegRequest(id) => DecSegIdBack(id, t);
  }

  lemma ProdIdsBack(m: u16, p: Pdu, t: Bytes)
    requires Sendable(m, p) && p.PreviouslyReceived?
    ensures DecPayload(m, PduId(p), EncPayload(m, p) + t) == Got(Meaning(p), t)
  {
    DecIdListBack(p.ids, t);
  }

  lemma ProdInfoPayload(m: u16, s: Bytes, info: ProdInfo, t: Bytes)
    requires DecProdInfo(s) == Got(info, t)
    ensures DecPayload(m, 9, s) == Got([RecvProdInfo(info)], t)
  {
  }

  lemma ProdInfoBack(m: u16, p: Pdu, t: Bytes)
    requires Sendable(m, p) && p.ProdInfoPdu?
    ensures DecPayload(m, PduId(p), EncPayload(m, p) + t) == Got(Meaning(p), t)
  {
    DecProdInfoBack(p.prodInfo, t);
    ProdInfoPayload(m, EncProdInfo(p.prodInfo) + t, p.prodInfo, t);
  }

  lemma DataSegBack(m: u16, p: Pdu, t: Bytes)
    requires Sendable(m, p) && p.DataSegPdu?
    ensures DecPayload(m, PduId(p), EncPayload(m, p) + t) == Got(Meaning(p), t)
  {
    DecDataSegBackIff(m, m, p.dataSeg, t);
  }

  lemma DecPayloadBack(m: u16, p: Pdu, t: Bytes)
    requires Sendable(m, p)
    ensures DecPayload(m, PduId(p), EncPayload(m, p) + t) == Got(Meaning(p), t)
  {
    if p.Heartbeat? {
      assert [] + t == t;
    } else if p.SrvrInfoPdu? || p.TrackerPdu? || p.SrvrInfoNotice? {
      NoticeBack(m, p, t);
    } else if p.PreviouslyReceived? {
      ProdIdsBack(m, p, t);
    } else if p.ProdInfoPdu? {
      ProdInfoBack(m, p, t);
    } else if p.DataSegPdu? {
      DataSegBack(m, p, t);
    } else {
      IdBack(m, p, t);
    }
  }

  lemma RecvBack(m: u16, p: Pdu, t: Bytes)
    requires Sendable(m, p)
    ensures Recv(m, EncPdu(m, p) + t) == Got(Meaning(p), t)
  {
    Assoc(Big(2, PduId(p)), EncPayload(m, p), t);
    Dec16Back(PduId(p), EncPayload(m, p) + t);
    DecPayloadBack(m, p, t);
  }

  ghost predicate AllSendable(m: u16, pdus: seq<Pdu>) {
    forall i :: 0 <= i < |pdus| ==> Sendable(m, pdus[i])
  }

  function Codes(m: u16, pdus: seq<Pdu>): (r: seq<Bytes>)
    requires AllSendable(m, pdus)
    ensures |r| == |pdus| && forall i :: 0 <= i < |r| ==> r[i] == EncPdu(m, pdus[i])
  {
    seq(|pdus|, i requires 0 <= i < |pdus| => EncPdu(m, pdus[i]))
  }

  /** The bytes of a stream. */
  function EncAll(m: u16, pdus: seq<Pdu>): Bytes
    requires AllSendable(m, pdus)
  {
    Concat(Codes(m, pdus))
  }

  lemma {:induction false} ConcatSplit(codes: seq<Bytes>, more: seq<Bytes>)
    ensures Concat(codes + more) == Concat(codes) + Concat(more)
  {
    if codes == [] {
      assert codes + more == more;
    } else {
      assert (codes + more)[1..] == codes[1..] + more;
      ConcatSplit(codes[1..], more);
      Assoc(codes[0], Concat(codes[1..]), Concat(more));
    }
  }

  lemma EncAllSnoc(m: u16, pdus: seq<Pdu>, p: Pdu)
    requires AllSendable(m, pdus) && Sendable(m, p)
    ensures AllSendable(m, pdus + [p])
    ensures EncAll(m, pdus + [p]) == EncAll(m, pdus) + EncPdu(m, p)
  {
    var code := EncPdu(m, p);
    assert Codes(m, pdus + [p]) == Codes(m, pdus) + [code];
    ConcatSplit(Codes(m, pdus), [code]);
    assert Concat([code]) == code + Concat([]) == code;
  }

  lemma ConcatPrefix(codes: seq<Bytes>, k: nat)
    requires k <= |codes|
    ensures Concat(codes[..k]) <= Concat(codes)
  {
    ConcatSplit(codes[..k], codes[k..]);
    assert codes == codes[..k] + codes[k..];
  }

  lemma CodesPrefix(m: u16, pdus: seq<Pdu>, k: nat)
    requires AllSendable(m, pdus) && k <= |pdus|
    ensures AllSendable(m, pdus[..k]) && Codes(m, pdus[..k]) == Codes(m, pdus)[..k]
  {
  }

  lemma EncAllPrefix(m: u16, pdus: seq<Pdu>, k: nat)
    requires AllSendable(m, pdus) && k <= |pdus|
    ensures AllSendable(m, pdus[..k]) && EncAll(m, pdus[..k]) <= EncAll(m, pdus)
  {
    CodesPrefix(m, pdus, k);
    ConcatPrefix(Codes(m, pdus), k);
  }

  function Meanings(pdus: seq<Pdu>): (r: seq<seq<Call>>)
    ensures |r| == |pdus| && forall i :: 0 <= i < |r| ==> r[i] == Meaning(pdus[i])
  {
    if pdus == [] then [] else [Meaning(pdus[0])] + Meanings(pdus[1..])
  }

  function Flat<T>(s: seq<seq<T>>): seq<T> {
    if s == [] then [] else s[0] + Flat(s[1..])
  }

  /** The number of codes that are wholly within the first `n` bytes. */
  function Whole(codes: seq<Bytes>, n: nat): (k: nat)
    ensures k <= |codes|
    ensures n >= |Concat(codes)| ==> k == |codes|
  {
    if codes == [] || n < |codes[0]| then 0 else 1 + Whole(codes[1..], n - |codes[0]|)
  }

  /** A unit that breaks off makes no call. */
  lemma BrokenOff(m: u16, p: Pdu, n: nat)
    requires Sendable(m, p) && n < |EncPdu(m, p)|
    ensures !Recv(m, EncPdu(m, p)[..n]).Got?
  {
    var e := EncPdu(m, p);
    assert e[..n] + e[n..] == e == e + [];
    RecvExtends(m, e[..n], e[n..]);
    RecvBack(m, p, []);
  }

  /** Each code, whatever comes after it, is received as its meaning. */
  ghost predicate ReadsBack(recv: Bytes -> Parse<seq<Call>>, codes: seq<Bytes>, meanings: seq<seq<Call>>) {
    |codes| == |meanings| && forall i, t :: 0 <= i < |codes| ==> recv(codes[i] + t) == Got(meanings[i], t)
  }

  /** No code is received when it breaks off. */
  ghost predicate NeverInPart(recv: Bytes -> Parse<seq<Call>>, codes: seq<Bytes>) {
    forall i, n :: 0 <= i < |codes| && 0 <= n < |codes[i]| ==> !recv(codes[i][..n]).Got?
  }

  lemma CodesReadBack(m: u16, pdus: seq<Pdu>)
    requires AllSendable(m, pdus)
    ensures ReadsBack(Receiver(m), Codes(m, pdus), Meanings(pdus))
  {
    forall i, t | 0 <= i < |pdus|
      ensures Receiver(m)(Codes(m, pdus)[i] + t) == Got(Meaning(pdus[i]), t)
    {
      RecvBack(m, pdus[i], t);
    }
  }

  lemma CodesNeverInPart(m: u16, pdus: seq<Pdu>)
    requires AllSendable(m, pdus)
    ensures NeverInPart(Receiver(m), Codes(m, pdus))
  {
    forall i, n | 0 <= i < |pdus| && 0 <= n < |EncPdu(m, pdus[i])|
      ensures !Receiver(m)(Codes(m, pdus)[i][..n]).Got?
    {
      BrokenOff(m, pdus[i], n);
    }
  }

  lemma FlatPrefix<T>(s: seq<seq<T>>, k: nat)
    requires 0 < k <= |s|
    ensures Flat(s[..k]) == s[0] + Flat(s[1..][..k - 1])
  {
    assert s[..k][1..] == s[1..][..k - 1];
  }

  lemma {:induction false} ReadPrefix(recv: Bytes -> Parse<seq<Call>>, codes: seq<Bytes>,
                                      meanings: seq<seq<Call>>, n: nat)
    requires Consumes(recv) && recv([]) == Lost && n <= |Concat(codes)|
    requires ReadsBack(recv, codes, meanings) && NeverInPart(recv, codes)
    ensures Read(recv, Concat(codes)[..n]).0 == Flat(meanings[..Whole(codes, n)])
    ensures n == |Concat(codes)| ==> !Read(recv, Concat(codes)[..n]).1
    decreases |codes|
  {
    if codes != [] {
      var e, rest := codes[0], Concat(codes[1..]);
      CutConcat(e, rest, n);
      if n >= |e| {
        var part := rest[..n - |e|];
        assert recv(e + part) == Got(meanings[0], part);
        ReadPrefix(recv, codes[1..], meanings[1..], n - |e|);
        FlatPrefix(meanings, Whole(codes, n));
      }
    }
  }

  /** However much of a stream arrives before the connection is lost, its reader makes the calls of
      the units that arrived whole, in order and with equal payloads, and no others. */
  lemma StreamDecodes(m: u16, pdus: seq<Pdu>, n: nat)
    requires AllSendable(m, pdus) && n <= |EncAll(m, pdus)|
    ensures RunReader(m, EncAll(m, pdus)[..n]).0 == Flat(Meanings(pdus)[..Whole(Codes(m, pdus), n)])
  {
    CodesReadBack(m, pdus);
    CodesNeverInPart(m, pdus);
    ReadPrefix(Receiver(m), Codes(m, pdus), Meanings(pdus), n);
  }

  /** A stream that arrives whole makes exactly the calls of all its units, and its reader consumes
      every byte and stops without an exception. */
  lemma WholeStreamDecodes(m: u16, pdus: seq<Pdu>)
    requires AllSendable(m, pdus)
    ensures RunReader(m, EncAll(m, pdus)) == (Flat(Meanings(pdus)), false)
  {
    var e := EncAll(m, pdus);
    CodesReadBack(m, pdus);
    CodesNeverInPart(m, pdus);
    ReadPrefix(Receiver(m), Codes(m, pdus), Meanings(pdus), |e|);
    assert e[..|e|] == e && Meanings(pdus)[..|pdus|] == Meanings(pdus);
  }

  /** Streams with the same bytes mean the same. */
  lemma UniqueDecoding(m: u16, pdus: seq<Pdu>, others: seq<Pdu>)
    requires AllSendable(m, pdus) && AllSendable(m, others)
    requires EncAll(m, pdus) == EncAll(m, others)
    ensures Flat(Meanings(pdus)) == Flat(Meanings(others))
  {
    WholeStreamDecodes(m, pdus);
    WholeStreamDecodes(m, others);
  }

  lemma ArrivingHas(infos: seq<P2pSrvrInfo>, i: P2pSrvrInfo)
    requires i in infos
    ensures ArrivingInfo(i) in ArrivingInfos(infos)
  {
    var k :| 0 <= k < |infos| && infos[k] == i;
    assert ArrivingInfos(infos)[k] == ArrivingInfo(i);
  }

  lemma ArrivingFrom(infos: seq<P2pSrvrInfo>, x: P2pSrvrInfo) returns (i: P2pSrvrInfo)
    requires x in ArrivingInfos(infos)
    ensures i in infos && x == ArrivingInfo(i)
  {
    var k :| 0 <= k < |infos| && ArrivingInfos(infos)[k] == x;
    i := infos[k];
  }

  lemma ArrivingListed(infos: seq<P2pSrvrInfo>, n: Tracker.Infos, x: P2pSrvrInfo)
    requires TrackerMerge.Lists(infos, n) && x in ArrivingInfos(infos)
    ensures x.srvrAddr in n && x == ArrivingInfo(n[x.srvrAddr])
  {
    var i := ArrivingFrom(infos, x);
  }

  lemma ArrivingLists(infos: seq<P2pSrvrInfo>, n: Tracker.Infos)
    requires TrackerMerge.Lists(infos, n)
    ensures TrackerMerge.Lists(ArrivingInfos(infos), map a | a in n :: ArrivingInfo(n[a]))
  {
    forall x | x in ArrivingInfos(infos)
      ensures x.srvrAddr in n && x == ArrivingInfo(n[x.srvrAddr])
    {
      ArrivingListed(infos, n, x);
    }
    forall a | a in n
      ensures ArrivingInfo(n[a]) in ArrivingInfos(infos) && n[a].srvrAddr == a
    {
      ArrivingHas(infos, n[a]);
    }
  }

  lemma ReadMerges(infos: seq<P2pSrvrInfo>, n: Tracker.Infos)
    requires TrackerMerge.Lists(infos, n) && |n| <= TRACKER_CAPACITY
    ensures TrackerOf(infos).infos == n
  {
    var none := Tracker.EMPTY.infos;
    assert none.Keys + n.Keys == n.Keys;
    assert |n.Keys| == |n|;
    TrackerMerge.MergeIsLastWriterWinsIff(Tracker.EMPTY, TRACKER_CAPACITY, infos, n);
    assert TrackerMerge.Merged(none, n) == n;
  }

  /** A tracker with no more servers than the receiver's capacity arrives as it was, except that
      times are truncated, whatever the order of its table. */
  lemma TrackerArrives(infos: seq<P2pSrvrInfo>, n: Tracker.Infos)
    requires TrackerMerge.Lists(infos, n) && |n| <= TRACKER_CAPACITY
    ensures TrackerOf(ArrivingInfos(infos)).infos == map a | a in n :: ArrivingInfo(n[a])
  {
    var n' := map a | a in n :: ArrivingInfo(n[a]);
    ArrivingLists(infos, n);
    assert n'.Keys == n.Keys;
    assert |n.Keys| == |n| && |n'.Keys| == |n'|;
    ReadMerges(ArrivingInfos(infos), n');
  }
}
