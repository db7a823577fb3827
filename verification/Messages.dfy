/** The encoding of everything that peers exchange, and its inverse. `m` is the size of a canonical
    data segment, which sender and receiver know but do not send. */
module Messages {
  import opened Common
  import opened Address
  import opened ByteOrder
  import opened Codec
  import opened SrvrInfo
  import opened RequestQueue
  import Segmentation
  import Tracker
  import TrackerRuns

  const MAX_NAME := 4095
  const TRACKER_CAPACITY := 1000

  datatype ProdInfo = ProdInfo(prodId: u64, name: Bytes, size: u32, created: i64)

  datatype DataSeg = DataSeg(segId: DataSegId, prodSize: u32, data: Bytes)

  /** A protocol data unit as it is sent. A set of products is in the order of its iteration, a
      tracker in that of its table. */
  datatype Pdu =
    | SrvrInfoPdu(info: P2pSrvrInfo)
    | TrackerPdu(infos: seq<P2pSrvrInfo>)
    | SrvrInfoNotice(info: P2pSrvrInfo)
    | ProdInfoNotice(prodId: u64)
    | DataSegNotice(segId: DataSegId)
    | PreviouslyReceived(ids: seq<u64>)
    | ProdInfoRequest(prodId: u64)
    | DataSegRequest(segId: DataSegId)
    | ProdInfoPdu(prodInfo: ProdInfo)
    | DataSegPdu(dataSeg: DataSeg)
    | Heartbeat

  /** A call of the receiving peer. */
  datatype Call =
    | RecvSrvrInfo(info: P2pSrvrInfo)
    | RecvTracker(tracker: Tracker.State)
    | NoticeOfSrvr(info: P2pSrvrInfo)
    | NoticeOfProd(prodId: u64)
    | NoticeOfSeg(segId: DataSegId)
    | RecvHaveProds(prodIds: set<u64>)
    | RequestOfProd(prodId: u64)
    | RequestOfSeg(segId: DataSegId)
    | RecvProdInfo(prodInfo: ProdInfo)
    | RecvDataSeg(dataSeg: DataSeg)

  // What can be sent at all: what the constructors of the source let through

  predicate SendableAddr(a: SockAddr) {
    a.Sock? && a.inet != NoInet && (a.inet.Name? ==> |a.inet.name| <= 255)
  }

  predicate Sendable(m: u16, p: Pdu) {
    match p
    case SrvrInfoPdu(info) => SendableAddr(info.srvrAddr)
    case TrackerPdu(infos) =>
      |infos| < 0x1_0000_0000 && forall i :: 0 <= i < |infos| ==> SendableAddr(infos[i].srvrAddr)
    case SrvrInfoNotice(info) => SendableAddr(info.srvrAddr)
    case PreviouslyReceived(ids) => |ids| < 0x1_0000_0000
    case ProdInfoPdu(info) => |info.name| <= MAX_NAME
    case DataSegPdu(seg) => |seg.data| == Segmentation.Size(m, seg.prodSize, seg.segId.offset)
    case _ => true
  }

  // Addresses and information on servers

  function EncInet(a: InetAddr): Bytes
    requires a != NoInet && (a.Name? ==> |a.name| <= 255)
  {
    match a
    case Inet4(sAddr) => Big(1, 0) + Big(4, sAddr)
    case Inet6(addr) => Big(1, 1) + addr
    case Name(name) => Big(1, 2) + (Big(1, |name|) + name)
  }

  /** An address that breaks off is reported by its constructor, which throws. */
  function Constructed<T>(p: Parse<T>): Parse<T> {
    if p.Got? then p else Thrown
  }

  function DecString8(s: Bytes): (r: Parse<Bytes>)
    ensures r.Got? ==> |r.rest| < |s|
  {
    var (n, s1) :- Dec8(s);
    DecBytes(s1, n)
  }

  function DecInetOf(tag: u8, s: Bytes): (r: Parse<InetAddr>)
    ensures r.Got? ==> |r.rest| <= |s|
  {
    if tag == 0 then
      var (x, rest) :- Constructed(Dec32(s));
      Got(Inet4(x), rest)
    else if tag == 1 then
      var (b, rest) :- Constructed(DecBytes(s, 16));
      Got(Inet6(b), rest)
    else if tag == 2 then
      var (name, rest) :- Constructed(DecString8(s));
      Got(Name(name), rest)
    else Thrown
  }

  function DecInet(s: Bytes): (r: Parse<InetAddr>)
    ensures r.Got? ==> |r.rest| < |s|
  {
    var (tag, s1) :- Dec8(s);
    DecInetOf(tag, s1)
  }

  function EncSock(a: SockAddr): Bytes
    requires SendableAddr(a)
  {
    EncInet(a.inet) + Big(2, a.port)
  }

  function DecSock(s: Bytes): (r: Parse<SockAddr>)
    ensures r.Got? ==> |r.rest| < |s|
  {
    var (inet, s1) :- DecInet(s);
    var (port, rest) :- Dec16(s1);
    Got(Sock(inet, port), rest)
  }

  function EncMetrics(tier: i16, numAvail: i16, valid: i64): Bytes {
    Big(2, ToU16(tier)) + (Big(2, ToU16(numAvail)) + EncTime(valid))
  }

  function DecMetrics(s: Bytes): (r: Parse<(i16, i16, i64)>)
    ensures r.Got? ==> |r.rest| < |s|
  {
    var (tier, s1) :- Dec16(s);
    var (numAvail, s2) :- Dec16(s1);
    var (valid, rest) :- DecTime(s2);
    Got((ToI16(tier), ToI16(numAvail), valid), rest)
  }

  function EncInfo(i: P2pSrvrInfo): Bytes
    requires SendableAddr(i.srvrAddr)
  {
    EncSock(i.srvrAddr) + EncMetrics(i.tier, i.numAvail, i.valid)
  }

  function DecInfo(s: Bytes): (r: Parse<P2pSrvrInfo>)
    ensures r.Got? ==> |r.rest| < |s|
  {
    var (addr, s1) :- DecSock(s);
    var (metrics, rest) :- DecMetrics(s1);
    Got(P2pSrvrInfo(metrics.2, addr, metrics.0, metrics.1), rest)
  }

  /** `n` values that are encoded one after the other. */
  function DecMany<T(!new)>(dec: Bytes -> Parse<T>, s: Bytes, n: nat, before: seq<T>): (r: Parse<seq<T>>)
    requires Consumes(dec)
    ensures r.Got? ==> |r.rest| <= |s|
    decreases n
  {
    if n == 0 then Got(before, s)
    else
      var (x, s1) :- dec(s);
      DecMany(dec, s1, n - 1, before + [x])
  }

  function EncInfos(infos: seq<P2pSrvrInfo>): Bytes
    requires forall i :: 0 <= i < |infos| ==> SendableAddr(infos[i].srvrAddr)
  {
    if infos == [] then [] else EncInfo(infos[0]) + EncInfos(infos[1..])
  }

  // Products, sets of products, and segments

  function EncSegId(id: DataSegId): Bytes {
    Big(8, id.prodId) + Big(4, id.offset)
  }

  function DecSegId(s: Bytes): (r: Parse<DataSegId>)
    ensures r.Got? ==> |r.rest| < |s|
  {
    var (prodId, s1) :- Dec64(s);
    var (offset, rest) :- Dec32(s1);
    Got(DataSegId(prodId, offset), rest)
  }

  function EncIds(ids: seq<u64>): Bytes {
    if ids == [] then [] else Big(8, ids[0]) + EncIds(ids[1..])
  }

  function EncProdInfo(i: ProdInfo): Bytes
    requires |i.name| <= MAX_NAME
  {
    Big(8, i.prodId) + (Big(2, |i.name|) + (i.name + (Big(4, i.size) + Big(8, ToU64(i.created)))))
  }

  function DecName(s: Bytes): (r: Parse<Bytes>)
    ensures r.Got? ==> |r.rest| < |s|
  {
    var (n, s1) :- Dec16(s);
    if n > MAX_NAME then Thrown else DecBytes(s1, n)
  }

  function DecProdInfo(s: Bytes): (r: Parse<ProdInfo>)
    ensures r.Got? ==> |r.rest| < |s|
  {
    var (prodId, s1) :- Dec64(s);
    var (name, s2) :- DecName(s1);
    var (size, s3) :- Dec32(s2);
    var (count, rest) :- Dec64(s3);
    Got(ProdInfo(prodId, name, size, ToI64(count)), rest)
  }

  function EncDataSeg(seg: DataSeg): Bytes {
    EncSegId(seg.segId) + (Big(4, seg.prodSize) + seg.data)
  }

  /** The length of the data is computed, with the receiver's segment size. */
  function DecDataSeg(m: u16, s: Bytes): (r: Parse<DataSeg>)
    ensures r.Got? ==> |r.rest| < |s|
  {
    var (id, s1) :- DecSegId(s);
    var (prodSize, s2) :- Dec32(s1);
    var (data, rest) :- DecBytes(s2, Segmentation.Size(m, prodSize, id.offset));
    Got(DataSeg(id, prodSize, data), rest)
  }

  // Protocol data units

  function PduId(p: Pdu): u16 {
    match p
    case SrvrInfoPdu(_) => 1
    case TrackerPdu(_) => 2
    case SrvrInfoNotice(_) => 3
    case ProdInfoNotice(_) => 4
    case DataSegNotice(_) => 5
    case PreviouslyReceived(_) => 6
    case ProdInfoRequest(_) => 7
    case DataSegRequest(_) => 8
    case ProdInfoPdu(_) => 9
    case DataSegPdu(_) => 10
    case Heartbeat => 11
  }

  function EncPayload(m: u16, p: Pdu): Bytes
    requires Sendable(m, p)
  {
    match p
    case SrvrInfoPdu(info) => EncInfo(info)
    case TrackerPdu(infos) => Big(4, |infos|) + EncInfos(infos)
    case SrvrInfoNotice(info) => EncInfo(info)
    case ProdInfoNotice(id) => Big(8, id)
    case DataSegNotice(id) => EncSegId(id)
    case PreviouslyReceived(ids) => Big(4, |ids|) + EncIds(ids)
    case ProdInfoRequest(id) => Big(8, id)
    case DataSegRequest(id) => EncSegId(id)
    case ProdInfoPdu(info) => EncProdInfo(info)
    case DataSegPdu(seg) => EncDataSeg(seg)
    case Heartbeat => []
  }

  function EncPdu(m: u16, p: Pdu): Bytes
    requires Sendable(m, p)
  {
    Big(2, PduId(p)) + EncPayload(m, p)
  }

  /** The tracker that results from reading records. */
  function TrackerOf(infos: seq<P2pSrvrInfo>): Tracker.State {
    TrackerRuns.AddAllQueues(Tracker.EMPTY, TRACKER_CAPACITY, infos);
    Tracker.AddAll(Tracker.EMPTY, TRACKER_CAPACITY, infos).value
  }

  function One<T>(p: Parse<T>, call: T -> Call): Parse<seq<Call>> {
    var (x, rest) :- p;
    Got([call(x)], rest)
  }

  function DecTracker(s: Bytes): (r: Parse<seq<P2pSrvrInfo>>)
    ensures r.Got? ==> |r.rest| < |s|
  {
    var (n, s1) :- Dec32(s);
    DecMany(DecInfo, s1, n, [])
  }

  function DecIdList(s: Bytes): (r: Parse<seq<u64>>)
    ensures r.Got? ==> |r.rest| < |s|
  {
    var (n, s1) :- Dec32(s);
    DecMany(Dec64, s1, n, [])
  }

  function DecProdIds(s: Bytes): (r: Parse<set<u64>>)
    ensures r.Got? ==> |r.rest| < |s|
  {
    var (ids, rest) :- DecIdList(s);
    Got(Elems(ids), rest)
  }

  function DecPayload(m: u16, id: u16, s: Bytes): (r: Parse<seq<Call>>)
    ensures r.Got? ==> |r.rest| <= |s|
  {
    match id
    case 1 => One(DecInfo(s), x => RecvSrvrInfo(x))
    case 2 => One(DecTracker(s), x => RecvTracker(TrackerOf(x)))
    case 3 => One(DecInfo(s), x => NoticeOfSrvr(x))
    case 4 => One(Dec64(s), x => NoticeOfProd(x))
    case 5 => One(DecSegId(s), x => NoticeOfSeg(x))
    case 6 => One(DecProdIds(s), x => RecvHaveProds(x))
    case 7 => One(Dec64(s), x => RequestOfProd(x))
    case 8 => One(DecSegId(s), x => RequestOfSeg(x))
    case 9 => One(DecProdInfo(s), x => RecvProdInfo(x))
    case 10 => One(DecDataSeg(m, s), x => RecvDataSeg(x))
    case 11 => Got([], s)
    case _ => Thrown
  }

  /** One reception: the call of the peer that it makes, if any. */
  function Recv(m: u16, s: Bytes): (r: Parse<seq<Call>>)
    ensures r.Got? ==> |r.rest| < |s|
  {
    var (id, s1) :- Dec16(s);
    DecPayload(m, id, s1)
  }

  function Receiver(m: u16): Bytes -> Parse<seq<Call>> {
    s => Recv(m, s)
  }

  /** Every success consumes something. */
  ghost predicate Consumes<T(!new)>(recv: Bytes -> Parse<T>) {
    forall s :: recv(s).Got? ==> |recv(s).rest| < |s|
  }

  /** All calls that the reader of a stream makes until it stops, and whether it stops for an
      exception. */
  function Read(recv: Bytes -> Parse<seq<Call>>, s: Bytes): (seq<Call>, bool)
    requires Consumes(recv)
    decreases |s|
  {
    match recv(s)
    case Got(calls, rest) =>
      var (more, thrown) := Read(recv, rest);
      (calls + more, thrown)
    case Lost => ([], false)
    case Thrown => ([], true)
  }

  function RunReader(m: u16, s: Bytes): (seq<Call>, bool) {
    Read(Receiver(m), s)
  }
}
