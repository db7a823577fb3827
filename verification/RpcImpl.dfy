/** Sending and receiving protocol data units. */
module RpcImpl {
  import opened Common
  import opened Address
  import opened ByteOrder
  import opened Codec
  import opened SrvrInfo
  import opened Transport
  import Messages
  import Tracker
  import TrackerImpl
  import TrackerMerge
  import TrackerRuns
  import Wire

  /** The receiving side of a peer, with the calls that were made of it. */
  class Peer {
    var calls: seq<Messages.Call>

    constructor ()
      ensures calls == []
    {
      calls := [];
    }

    method Handle(call: Messages.Call)
      modifies this
      ensures calls == old(calls) + [call]
    {
      calls := calls + [call];
    }
  }

  lemma PrefixOfMore(before: Bytes, a: Bytes, b: Bytes, after: Bytes)
    requires after <= before + a && a <= b
    ensures after <= before + b
  {
    assert b == a + b[|a|..];
    Assoc(before, a, b[|a|..]);
  }

  /** Whatever gets through of what was sent, on machines of whatever kind, makes the calls of the
      units that got through whole, in order, and no others; and when the connection is not lost, the
      calls of all units. */
  lemma Delivered(m: u16, pdus: seq<Messages.Pdu>, through: Bytes, o: Outcome)
    requires Wire.AllSendable(m, pdus) && Wrote([], Wire.EncAll(m, pdus), through, o)
    ensures Messages.RunReader(m, through).0 ==
              Wire.Flat(Wire.Meanings(pdus)[..Wire.Whole(Wire.Codes(m, pdus), |through|)])
    ensures o == Done ==> Messages.RunReader(m, through) == (Wire.Flat(Wire.Meanings(pdus)), false)
  {
    var e := Wire.EncAll(m, pdus);
    assert [] + e == e;
    assert through == e[..|through|];
    Wire.StreamDecodes(m, pdus, |through|);
    Wire.WholeStreamDecodes(m, pdus);
  }

  lemma OneMoreUnit(m: u16, pdus: seq<Messages.Pdu>, i: nat)
    requires i < |pdus| && Wire.AllSendable(m, pdus)
    ensures Wire.AllSendable(m, pdus[..i]) && Wire.AllSendable(m, pdus[..i + 1])
    ensures Wire.EncAll(m, pdus[..i + 1]) == Wire.EncAll(m, pdus[..i]) + Messages.EncPdu(m, pdus[i])
  {
    var some, more := pdus[..i], pdus[..i + 1];
    assert more == some + [pdus[i]];
    Wire.EncAllSnoc(m, some, pdus[i]);
  }

  /** Units that were sent until the connection was lost. */
  lemma AllUnits(m: u16, pdus: seq<Messages.Pdu>, i: nat, before: Bytes, after: Bytes, o: Outcome)
    requires i <= |pdus| && Wire.AllSendable(m, pdus) && Wire.AllSendable(m, pdus[..i])
    requires Wrote(before, Wire.EncAll(m, pdus[..i]), after, o) && (o == Done ==> i == |pdus|)
    ensures Wrote(before, Wire.EncAll(m, pdus), after, o)
  {
    if o == Done {
      assert pdus[..i] == pdus;
    } else {
      Wire.EncAllPrefix(m, pdus, i);
      PrefixOfMore(before, Wire.EncAll(m, pdus[..i]), Wire.EncAll(m, pdus), after);
    }
  }

  // Trackers

  lemma {:induction false} EncInfosSnoc(infos: seq<P2pSrvrInfo>, i: P2pSrvrInfo)
    requires forall j :: 0 <= j < |infos| ==> Messages.SendableAddr(infos[j].srvrAddr)
    requires Messages.SendableAddr(i.srvrAddr)
    ensures forall j :: 0 <= j < |infos + [i]| ==> Messages.SendableAddr((infos + [i])[j].srvrAddr)
    ensures Messages.EncInfos(infos + [i]) == Messages.EncInfos(infos) + Messages.EncInfo(i)
  {
    if infos == [] {
      assert [i][1..] == [];
    } else {
      EncInfosSnoc(infos[1..], i);
      assert (infos + [i])[1..] == infos[1..] + [i];
      Assoc(Messages.EncInfo(infos[0]), Messages.EncInfos(infos[1..]), Messages.EncInfo(i));
    }
  }

  lemma EncInfosUpTo(infos: seq<P2pSrvrInfo>, i: nat)
    requires i < |infos| && forall j :: 0 <= j < |infos| ==> Messages.SendableAddr(infos[j].srvrAddr)
    ensures Messages.EncInfos(infos[..i + 1]) == Messages.EncInfos(infos[..i]) + Messages.EncInfo(infos[i])
  {
    assert infos[..i + 1] == infos[..i] + [infos[i]];
    EncInfosSnoc(infos[..i], infos[i]);
  }

  ghost predicate SendableTracker(t: TrackerImpl.Impl)
    reads t
  {
    && |t.srvrInfos| < 0x1_0000_0000
    && forall a :: a in t.srvrInfos ==> t.srvrInfos[a].srvrAddr == a && Messages.SendableAddr(a)
  }

  /** The records of a tracker in the order of an iteration over its table. */
  method InfosInOrder(t: TrackerImpl.Impl) returns (infos: seq<P2pSrvrInfo>)
    requires SendableTracker(t)
    ensures TrackerMerge.Lists(infos, t.srvrInfos) && |infos| == |t.srvrInfos|
    ensures forall j :: 0 <= j < |infos| ==> Messages.SendableAddr(infos[j].srvrAddr)
  {
    var srvrInfos := t.srvrInfos;
    var todo := srvrInfos.Keys;
    infos := [];
    assert srvrInfos - todo == map[];
    while todo != {}
      invariant todo <= srvrInfos.Keys && |infos| + |todo| == |srvrInfos|
      invariant TrackerMerge.Lists(infos, srvrInfos - todo)
      invariant forall j :: 0 <= j < |infos| ==> Messages.SendableAddr(infos[j].srvrAddr)
      decreases todo
    {
      var a :| a in todo;
      var info := srvrInfos[a];
      TrackerMerge.ListsOneMore(infos, srvrInfos, todo, a);
      infos := infos + [info];
      todo := todo - {a};
    }
    assert srvrInfos - {} == srvrInfos;
  }

  /** Writes the records of a tracker after their number. */
  method WriteTracker(x: Xprt, infos: seq<P2pSrvrInfo>) returns (o: Outcome)
    requires |infos| < 0x1_0000_0000
    requires forall j :: 0 <= j < |infos| ==> Messages.SendableAddr(infos[j].srvrAddr)
    modifies x`sent
    ensures Wrote(old(x.sent), Big(4, |infos|) + Messages.EncInfos(infos), x.sent, o)
  {
    ghost var before := x.sent;
    o := x.WriteU32(|infos|);
    ghost var mid, o1 := x.sent, o;
    assert infos[..0] == [];
    for i := 0 to |infos|
      invariant if o1 == Done then Wrote(mid, Messages.EncInfos(infos[..i]), x.sent, o) else x.sent == mid && o == o1
    {
      ghost var mid2, o2 := x.sent, o;
      if o == Done {
        o := WriteInfo(x, infos[i]);
      }
      EncInfosUpTo(infos, i);
      if o1 == Done {
        Chain(mid, Messages.EncInfos(infos[..i]), mid2, o2, Messages.EncInfo(infos[i]), x.sent, o);
      }
    }
    assert infos[..|infos|] == infos;
    Chain(before, Big(4, |infos|), mid, o1, Messages.EncInfos(infos), x.sent, o);
  }

  method ReadInfos(x: Xprt) returns (r: Result<seq<P2pSrvrInfo>>)
    modifies x`input
    ensures x.ReadAs(Messages.DecTracker(old(x.input)), r)
  {
    var size :- x.ReadU32();
    r := ReadInfosOf(x, size, Messages.DecInfo);
  }

  /** `dec` is the decoding of a record. */
  method ReadInfoAs(x: Xprt, ghost dec: Bytes -> Parse<P2pSrvrInfo>) returns (r: Result<P2pSrvrInfo>)
    requires forall s {:trigger Messages.DecInfo(s)} :: dec(s) == Messages.DecInfo(s)
    modifies x`input
    ensures x.ReadAs(dec(old(x.input)), r)
  {
    r := ReadInfo(x);
  }

  method ReadInfosOf(x: Xprt, size: u32, ghost dec: Bytes -> Parse<P2pSrvrInfo>) returns (r: Result<seq<P2pSrvrInfo>>)
    requires Messages.Consumes(dec) && forall s {:trigger Messages.DecInfo(s)} :: dec(s) == Messages.DecInfo(s)
    modifies x`input
    ensures x.ReadAs(Messages.DecMany(dec, old(x.input), size, []), r)
  {
    var infos: seq<P2pSrvrInfo> := [];
    for i := 0 to size
      invariant Messages.DecMany(dec, old(x.input), size, []) == Messages.DecMany(dec, x.input, size - i, infos)
    {
      var info :- ReadInfoAs(x, dec);
      infos := infos + [info];
    }
    r := Ok(infos);
  }

  method TrackerFrom(infos: seq<P2pSrvrInfo>, delay: int) returns (t: TrackerImpl.Impl)
    ensures t.Ok() && t.Value() == Messages.TrackerOf(infos)
  {
    t := new TrackerImpl.Impl(Messages.TRACKER_CAPACITY, delay);
    t.ReadFrom(infos);
  }

  class Rpc {
    const maxSegSize: u16
    /** The delay of a received tracker, which is not sent. */
    const delay: int

    constructor (maxSegSize: u16, delay: int)
      ensures this.maxSegSize == maxSegSize && this.delay == delay
    {
      this.maxSegSize, this.delay := maxSegSize, delay;
    }

    method WritePayload(x: Xprt, p: Messages.Pdu) returns (o: Outcome)
      requires Messages.Sendable(maxSegSize, p)
      modifies x`sent
      ensures Wrote(old(x.sent), Messages.EncPayload(maxSegSize, p), x.sent, o)
    {
      match p
      case SrvrInfoPdu(info) => o := WriteInfo(x, info);
      case TrackerPdu(infos) => o := WriteTracker(x, infos);
      case SrvrInfoNotice(info) => o := WriteInfo(x, info);
      case ProdInfoNotice(id) => o := x.WriteU64(id);
      case DataSegNotice(id) => o := WriteSegId(x, id);
      case PreviouslyReceived(ids) => o := WriteProdIds(x, ids);
      case ProdInfoRequest(id) => o := x.WriteU64(id);
      case DataSegRequest(id) => o := WriteSegId(x, id);
      case ProdInfoPdu(info) => o := WriteProdInfo(x, info);
      case DataSegPdu(seg) => o := WriteDataSeg(x, seg);
      case Heartbeat => o := x.Write([]);
    }

    /** Sends a unit: all of it, or a part when the connection is lost. */
    method Send(x: Xprt, p: Messages.Pdu) returns (o: Outcome)
      requires Messages.Sendable(maxSegSize, p)
      modifies x`sent
      ensures Wrote(old(x.sent), Messages.EncPdu(maxSegSize, p), x.sent, o)
    {
      ghost var before := x.sent;
      o := x.WriteU16(Messages.PduId(p));
      ghost var mid, o1 := x.sent, o;
      if o == Done {
        o := WritePayload(x, p);
      }
      Chain(before, Big(2, Messages.PduId(p)), mid, o1, Messages.EncPayload(maxSegSize, p), x.sent, o);
    }

    /** Sends units, one after the other, as long as there is a connection. */
    method SendAll(x: Xprt, pdus: seq<Messages.Pdu>) returns (o: Outcome)
      requires Wire.AllSendable(maxSegSize, pdus)
      modifies x`sent
      ensures Wrote(old(x.sent), Wire.EncAll(maxSegSize, pdus), x.sent, o)
    {
      o := Done;
      var i := 0;
      ghost var before := x.sent;
      assert pdus[..0] == [];
      while i < |pdus| && o == Done
        invariant 0 <= i <= |pdus| && Wire.AllSendable(maxSegSize, pdus[..i])
        invariant Wrote(before, Wire.EncAll(maxSegSize, pdus[..i]), x.sent, o)
      {
        ghost var mid := x.sent;
        o := Send(x, pdus[i]);
        OneMoreUnit(maxSegSize, pdus, i);
        Chain(before, Wire.EncAll(maxSegSize, pdus[..i]), mid, Done, Messages.EncPdu(maxSegSize, pdus[i]), x.sent, o);
        i := i + 1;
      }
      AllUnits(maxSegSize, pdus, i, before, x.sent, o);
    }

    /** Sends a tracker: every record of its table once. */
    method SendTracker(x: Xprt, t: TrackerImpl.Impl) returns (o: Outcome, infos: seq<P2pSrvrInfo>)
      requires SendableTracker(t)
      modifies x`sent
      ensures TrackerMerge.Lists(infos, t.srvrInfos) && |infos| == |t.srvrInfos|
      ensures Messages.Sendable(maxSegSize, Messages.TrackerPdu(infos))
      ensures Wrote(old(x.sent), Messages.EncPdu(maxSegSize, Messages.TrackerPdu(infos)), x.sent, o)
    {
      infos := InfosInOrder(t);
      o := Send(x, Messages.TrackerPdu(infos));
    }

    /** Sends a set of products: every identifier once. */
    method RequestProds(x: Xprt, ids: set<u64>) returns (o: Outcome, order: seq<u64>)
      requires |ids| < 0x1_0000_0000
      modifies x`sent
      ensures NoDup(order) && Elems(order) == ids && Messages.Sendable(maxSegSize, Messages.PreviouslyReceived(order))
      ensures Wrote(old(x.sent), Messages.EncPdu(maxSegSize, Messages.PreviouslyReceived(order)), x.sent, o)
    {
      order := IdsInOrder(ids);
      o := Send(x, Messages.PreviouslyReceived(order));
    }

    /** What a reception leaves behind: the calls that it made and what is left to be read. */
    ghost predicate ReceivedAs(p: Parse<seq<Messages.Call>>, x: Xprt, peer: Peer,
                               before: seq<Messages.Call>, o: Outcome)
      reads x, peer
    {
      match p
      case Got(calls, rest) => o == Done && x.input == rest && peer.calls == before + calls
      case Lost => o == Broken && peer.calls == before
      case Thrown => o == Threw && peer.calls == before
    }

    method ProcessSrvrInfo(x: Xprt, peer: Peer) returns (o: Outcome)
      modifies x`input, peer
      ensures ReceivedAs(Messages.DecPayload(maxSegSize, 1, old(x.input)), x, peer, old(peer.calls), o)
    {
      var info := ReadInfo(x);
      if info.Fail? {
        return info.outcome;
      }
      peer.Handle(Messages.RecvSrvrInfo(info.value));
      o := Done;
    }

    method ProcessSrvrNotice(x: Xprt, peer: Peer) returns (o: Outcome)
      modifies x`input, peer
      ensures ReceivedAs(Messages.DecPayload(maxSegSize, 3, old(x.input)), x, peer, old(peer.calls), o)
    {
      var info := ReadInfo(x);
      if info.Fail? {
        return info.outcome;
      }
      peer.Handle(Messages.NoticeOfSrvr(info.value));
      o := Done;
    }

    method ProcessProdNotice(x: Xprt, peer: Peer) returns (o: Outcome)
      modifies x`input, peer
      ensures ReceivedAs(Messages.DecPayload(maxSegSize, 4, old(x.input)), x, peer, old(peer.calls), o)
    {
      var prodId := x.ReadU64();
      if prodId.Fail? {
        return prodId.outcome;
      }
      peer.Handle(Messages.NoticeOfProd(prodId.value));
      o := Done;
    }

    method ProcessSegNotice(x: Xprt, peer: Peer) returns (o: Outcome)
      modifies x`input, peer
      ensures ReceivedAs(Messages.DecPayload(maxSegSize, 5, old(x.input)), x, peer, old(peer.calls), o)
    {
      var segId := ReadSegId(x);
      if segId.Fail? {
        return segId.outcome;
      }
      peer.Handle(Messages.NoticeOfSeg(segId.value));
      o := Done;
    }

    method ProcessHaveProds(x: Xprt, peer: Peer) returns (o: Outcome)
      modifies x`input, peer
      ensures ReceivedAs(Messages.DecPayload(maxSegSize, 6, old(x.input)), x, peer, old(peer.calls), o)
    {
      var prodIds := ReadProdIds(x);
      if prodIds.Fail? {
        return prodIds.outcome;
      }
      peer.Handle(Messages.RecvHaveProds(prodIds.value));
      o := Done;
    }

    method ProcessProdRequest(x: Xprt, peer: Peer) returns (o: Outcome)
      modifies x`input, peer
      ensures ReceivedAs(Messages.DecPayload(maxSegSize, 7, old(x.input)), x, peer, old(peer.calls), o)
    {
      var prodId := x.ReadU64();
      if prodId.Fail? {
        return prodId.outcome;
      }
      peer.Handle(Messages.RequestOfProd(prodId.value));
      o := Done;
    }

    method ProcessSegRequest(x: Xprt, peer: Peer) returns (o: Outcome)
      modifies x`input, peer
      ensures ReceivedAs(Messages.DecPayload(maxSegSize, 8, old(x.input)), x, peer, old(peer.calls), o)
    {
      var segId := ReadSegId(x);
      if segId.Fail? {
        return segId.outcome;
      }
      peer.Handle(Messages.RequestOfSeg(segId.value));
      o := Done;
    }

    method ProcessProdInfo(x: Xprt, peer: Peer) returns (o: Outcome)
      modifies x`input, peer
      ensures ReceivedAs(Messages.DecPayload(maxSegSize, 9, old(x.input)), x, peer, old(peer.calls), o)
    {
      var prodInfo := ReadProdInfo(x);
      if prodInfo.Fail? {
        return prodInfo.outcome;
      }
      peer.Handle(Messages.RecvProdInfo(prodInfo.value));
      o := Done;
    }

    method ProcessDataSeg(x: Xprt, peer: Peer) returns (o: Outcome)
      modifies x`input, peer
      ensures ReceivedAs(Messages.DecPayload(maxSegSize, 10, old(x.input)), x, peer, old(peer.calls), o)
    {
      var dataSeg := ReadDataSeg(x, maxSegSize);
      if dataSeg.Fail? {
        return dataSeg.outcome;
      }
      peer.Handle(Messages.RecvDataSeg(dataSeg.value));
      o := Done;
    }

    method ProcessTracker(x: Xprt, peer: Peer) returns (o: Outcome)
      modifies x`input, peer
      ensures ReceivedAs(Messages.DecPayload(maxSegSize, 2, old(x.input)), x, peer, old(peer.calls), o)
    {
      var infos := ReadInfos(x);
      if infos.Fail? {
        return infos.outcome;
      }
      var tracker := TrackerFrom(infos.value, delay);
      peer.Handle(Messages.RecvTracker(tracker.Value()));
      o := Done;
    }

    method Dispatch(id: u16, x: Xprt, peer: Peer) returns (o: Outcome)
      modifies x`input, peer
      ensures ReceivedAs(Messages.DecPayload(maxSegSize, id, old(x.input)), x, peer, old(peer.calls), o)
    {
      match id
      case 1 => o := ProcessSrvrInfo(x, peer);
      case 2 => o := ProcessTracker(x, peer);
      case 3 => o := ProcessSrvrNotice(x, peer);
      case 4 => o := ProcessProdNotice(x, peer);
      case 5 => o := ProcessSegNotice(x, peer);
      case 6 => o := ProcessHaveProds(x, peer);
      case 7 => o := ProcessProdRequest(x, peer);
      case 8 => o := ProcessSegRequest(x, peer);
      case 9 => o := ProcessProdInfo(x, peer);
      case 10 => o := ProcessDataSeg(x, peer);
      case 11 => o := Done;
      case _ => o := Threw;
    }

    method Recv(x: Xprt, peer: Peer) returns (o: Outcome)
      modifies x`input, peer
      ensures ReceivedAs(Messages.Recv(maxSegSize, old(x.input)), x, peer, old(peer.calls), o)
    {
      var id := x.ReadU16();
      if id.Fail? {
        return id.outcome;
      }
      o := Dispatch(id.value, x, peer);
    }

    /** Receives until the connection is lost or an exception is thrown. */
    method RunReader(x: Xprt, peer: Peer) returns (threw: bool)
      modifies x`input, peer
      ensures var (calls, thrown) := Messages.RunReader(maxSegSize, old(x.input));
                peer.calls == old(peer.calls) + calls && threw == thrown
    {
      threw := RunWith(x, peer, Messages.Receiver(maxSegSize));
    }

    /** `recv` is the function of a reception. */
    method RecvAs(x: Xprt, peer: Peer, ghost recv: Bytes -> Parse<seq<Messages.Call>>) returns (o: Outcome)
      requires forall s {:trigger Messages.Recv(maxSegSize, s)} :: recv(s) == Messages.Recv(maxSegSize, s)
      modifies x`input, peer
      ensures ReceivedAs(recv(old(x.input)), x, peer, old(peer.calls), o)
    {
      o := Recv(x, peer);
    }

    method RunWith(x: Xprt, peer: Peer, ghost recv: Bytes -> Parse<seq<Messages.Call>>) returns (threw: bool)
      requires Messages.Consumes(recv)
      requires forall s {:trigger Messages.Recv(maxSegSize, s)} :: recv(s) == Messages.Recv(maxSegSize, s)
      modifies x`input, peer
      ensures var (calls, thrown) := Messages.Read(recv, old(x.input));
                peer.calls == old(peer.calls) + calls && threw == thrown
    {
      ghost var all := Messages.Read(recv, x.input);
      var o := Done;
      while o == Done
        invariant var (more, later) := Messages.Read(recv, x.input);
                    if o == Done then all.1 == later && peer.calls + more == old(peer.calls) + all.0
                    else peer.calls == old(peer.calls) + all.0 && all.1 == (o == Threw)
        decreases o == Done, |x.input|
      {
        o := RecvAs(x, peer, recv);
      }
      threw := o == Threw;
    }

    /** A run over one connection: units of any of the eleven kinds are sent on one machine and what gets
        through is read on another. The calls are those of the units that got through whole, in order;
        when all the bytes got through they are those of all units, and the reader ends without an
        exception. */
    method Transmit(x: Xprt, pdus: seq<Messages.Pdu>, rmtHost: Host, rmtDelay: int, peer: Peer)
        returns (o: Outcome, threw: bool)
      requires Wire.AllSendable(maxSegSize, pdus) && x.sent == []
      modifies x`sent, peer
      ensures Wrote([], Wire.EncAll(maxSegSize, pdus), x.sent, o)
      ensures peer.calls == old(peer.calls) +
                Wire.Flat(Wire.Meanings(pdus)[..Wire.Whole(Wire.Codes(maxSegSize, pdus), |x.sent|)])
      ensures o == Done ==> peer.calls == old(peer.calls) + Wire.Flat(Wire.Meanings(pdus)) && !threw
    {
      o := SendAll(x, pdus);
      Delivered(maxSegSize, pdus, x.sent, o);
      var y := new Xprt(rmtHost, None, x.sent);
      var remote := new Rpc(maxSegSize, rmtDelay);
      threw := remote.RunReader(y, peer);
    }
  }
}
