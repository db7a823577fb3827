/** A subscriber's bookkeeper: which remote peers have offered which datum, in order of offer. */
module Bookkeeper {
  import opened Common
  import opened Address
  import opened RequestQueue

  /** The peers that offered a datum, kept twice: for membership and for order. */
  datatype Candidates = Candidates(members: set<SockAddr>, order: seq<SockAddr>) {
    ghost predicate Valid() {
      NoDup(order) && members == Elems(order)
    }
  }

  type Index = map<Request, Candidates>

  /** Every entry lists each of its peers once. */
  ghost predicate ValidIndex(index: Index) {
    forall d :: d in index ==> index[d].Valid()
  }

  function Offered(index: Index, addr: SockAddr, d: Request): (r: Candidates) {
    var old' := if d in index then index[d] else Candidates({}, []);
    if addr in old'.members then old'
    else Candidates(old'.members + {addr}, old'.order + [addr])
  }

  /** Whether the offer of `d` by `addr` is the first, and the index with the offer recorded. */
  function ShouldRequest(index: Index, addr: SockAddr, d: Request): (bool, Index) {
    (d !in index, index[d := Offered(index, addr, d)])
  }

  /** The entry of `d` without `addr` in its members and without `addr` at its front. */
  function Declined(c: Candidates, addr: SockAddr): Candidates {
    Candidates(c.members - {addr},
               if c.order != [] && c.order[0] == addr then c.order[1..] else c.order)
  }

  /** The next candidate for `d` once `addr` has failed to supply it. */
  function AltPeer(index: Index, addr: SockAddr, d: Request): (Option<SockAddr>, Index) {
    if d !in index then (None, index)
    else
      var c := Declined(index[d], addr);
      (if c.order == [] then None else Some(c.order[0]), index[d := c])
  }

  lemma OfferedValid(index: Index, addr: SockAddr, d: Request)
    requires ValidIndex(index)
    ensures Offered(index, addr, d).Valid()
    ensures d !in index ==> Offered(index, addr, d).order == [addr]
    ensures d in index && addr in index[d].order ==> Offered(index, addr, d) == index[d]
    ensures d in index && addr !in index[d].order ==> Offered(index, addr, d).order == index[d].order + [addr]
    ensures ValidIndex(ShouldRequest(index, addr, d).1)
  {
    var old' := if d in index then index[d] else Candidates({}, []);
    if addr !in old'.members {
      NoDupAppend(old'.order, addr);
    }
  }

  /** A front candidate declines: it leaves the entry altogether, and everybody else moves up. */
  lemma FrontDeclines(index: Index, addr: SockAddr, d: Request)
    requires ValidIndex(index) && d in index && index[d].order != [] && index[d].order[0] == addr
    ensures ValidIndex(AltPeer(index, addr, d).1)
    ensures AltPeer(index, addr, d).1 == index[d := Declined(index[d], addr)]
    ensures index[d].order == [addr] + Declined(index[d], addr).order
    ensures addr !in Declined(index[d], addr).order
  {
    NoDupTail(index[d].order);
  }

  /** Asking on behalf of any other peer of the entry splits membership from order: the entry
      stays consistent exactly when the peer is at the front or is no candidate. */
  lemma DeclineConsistentIff(c: Candidates, addr: SockAddr)
    requires c.Valid()
    ensures Declined(c, addr).Valid() <==> addr !in c.order || c.order[0] == addr
  {
    if addr !in c.order {
      assert c.members - {addr} == c.members;
    } else if c.order[0] == addr {
      NoDupTail(c.order);
    } else {
      assert addr in Elems(Declined(c, addr).order);
    }
  }

  datatype PeerInfo = PeerInfo(rating: u64, notices: set<Request>, isClient: bool)

  /** The largest rating, of the 64-bit type. */
  const MAX_RATING: u64 := 0xFFFF_FFFF_FFFF_FFFF

  function Incremented(rating: u64): (r: u64)
    ensures rating < MAX_RATING ==> r == rating + 1
  {
    if rating == MAX_RATING then 0 else rating + 1
  }

  class SubBookkeeper {
    var peerToInfo: map<SockAddr, PeerInfo>
    var noticeToPeers: Index

    constructor ()
      ensures peerToInfo == map[] && noticeToPeers == map[]
    {
      peerToInfo, noticeToPeers := map[], map[];
    }

    method Add(rmtAddr: SockAddr, isClient: bool) returns (added: bool)
      modifies this`peerToInfo
      ensures added <==> rmtAddr !in old(peerToInfo)
      ensures peerToInfo == if added then old(peerToInfo)[rmtAddr := PeerInfo(0, {}, isClient)]
                            else old(peerToInfo)
    {
      added := rmtAddr !in peerToInfo;
      if added {
        peerToInfo := peerToInfo[rmtAddr := PeerInfo(0, {}, isClient)];
      }
    }

    /** `None` is the source's exception about an unknown peer. */
    method RequestOnNotice(rmtAddr: SockAddr, notice: Request) returns (should: Option<bool>)
      modifies this`noticeToPeers
      ensures should.None? <==> rmtAddr !in peerToInfo
      ensures should.None? ==> noticeToPeers == old(noticeToPeers)
      ensures should.Some? ==>
                && should.value == (notice !in old(noticeToPeers)) && notice in noticeToPeers
                && noticeToPeers == old(noticeToPeers)[notice := noticeToPeers[notice]]
                && (should.value ==> noticeToPeers[notice] == Candidates({rmtAddr}, [rmtAddr]))
                && (!should.value ==>
                      var was := old(noticeToPeers)[notice];
                      noticeToPeers[notice] == if rmtAddr in was.members then was
                                               else Candidates(was.members + {rmtAddr}, was.order + [rmtAddr]))
      ensures should.Some? ==>
                (should.value, noticeToPeers) == ShouldRequest(old(noticeToPeers), rmtAddr, notice)
    {
      if rmtAddr !in peerToInfo {
        return None;
      }
      should := Some(notice !in noticeToPeers);
      if notice !in noticeToPeers {
        noticeToPeers := noticeToPeers[notice := Candidates({}, [])];
      }
      var datumPeers := noticeToPeers[notice];
      if rmtAddr !in datumPeers.members {
        datumPeers := Candidates(datumPeers.members + {rmtAddr}, datumPeers.order + [rmtAddr]);
      }
      noticeToPeers := noticeToPeers[notice := datumPeers];
      assert datumPeers == Offered(old(noticeToPeers), rmtAddr, notice);
      assert noticeToPeers == old(noticeToPeers)[notice := datumPeers];
    }

    /** Credits the peer when it is among the datum's candidates. */
    method Received(rmtAddr: SockAddr, notice: Request) returns (success: Option<bool>)
      modifies this`peerToInfo
      ensures success.None? <==> rmtAddr !in old(peerToInfo)
      ensures success.Some? ==>
                success.value == (notice in noticeToPeers && rmtAddr in noticeToPeers[notice].members)
      ensures success == Some(true) ==>
                && rmtAddr in peerToInfo
                && peerToInfo[rmtAddr].rating ==
                     if old(peerToInfo)[rmtAddr].rating == MAX_RATING then 0
                     else old(peerToInfo)[rmtAddr].rating + 1
      ensures peerToInfo == if success == Some(true)
                            then var i := old(peerToInfo)[rmtAddr];
                              old(peerToInfo)[rmtAddr := i.(rating := Incremented(i.rating))]
                            else old(peerToInfo)
    {
      if rmtAddr !in peerToInfo {
        return None;
      }
      success := Some(false);
      if notice in noticeToPeers && rmtAddr in noticeToPeers[notice].members {
        var i := peerToInfo[rmtAddr];
        peerToInfo := peerToInfo[rmtAddr := i.(rating := Incremented(i.rating))];
        success := Some(true);
      }
    }

    /** Forgets a datum. The lookup of each listed peer throws at a peer that has been removed;
        the entry then stays (`done` is false). */
    method EraseDatum(notice: Request) returns (done: bool)
      requires forall a :: a in peerToInfo ==> peerToInfo[a].notices == {}
      modifies this
      ensures peerToInfo == old(peerToInfo)
      ensures done <==> (notice in old(noticeToPeers) ==>
                           forall a :: a in old(noticeToPeers)[notice].order ==> a in peerToInfo)
      ensures noticeToPeers == if done then old(noticeToPeers) - {notice} else old(noticeToPeers)
    {
      if notice in noticeToPeers {
        var order := noticeToPeers[notice].order;
        for i := 0 to |order|
          invariant peerToInfo == old(peerToInfo) && noticeToPeers == old(noticeToPeers)
          invariant forall k :: 0 <= k < i ==> order[k] in peerToInfo
        {
          if order[i] !in peerToInfo {
            return false;
          }
          var info := peerToInfo[order[i]];
          peerToInfo := peerToInfo[order[i] := info.(notices := info.notices - {notice})];
          assert info.notices - {notice} == info.notices;
        }
        noticeToPeers := noticeToPeers - {notice};
      }
      done := true;
    }

    method GetAltPeer(rmtAddr: SockAddr, notice: Request) returns (alt: Option<SockAddr>)
      requires forall a :: a in peerToInfo ==> peerToInfo[a].notices == {}
      modifies this
      ensures peerToInfo == old(peerToInfo)
      ensures (alt, noticeToPeers) == AltPeer(old(noticeToPeers), rmtAddr, notice)
    {
      if rmtAddr in peerToInfo {
        var info := peerToInfo[rmtAddr];
        peerToInfo := peerToInfo[rmtAddr := info.(notices := info.notices - {notice})];
        assert info.notices - {notice} == info.notices;
      }
      alt := None;
      if notice in noticeToPeers {
        var c := noticeToPeers[notice];
        var members, peers := c.members - {rmtAddr}, c.order;
        if |peers| > 0 {
          if peers[0] == rmtAddr {
            peers := peers[1..];
          }
          if |peers| > 0 {
            alt := Some(peers[0]);
          }
        }
        noticeToPeers := noticeToPeers[notice := Candidates(members, peers)];
      }
    }

    /** Removes a peer. Because no notice is ever recorded in a peer's own set, the peer stays in
        every candidate list that names it. */
    method ErasePeer(rmtAddr: SockAddr) returns (existed: bool)
      requires forall a :: a in peerToInfo ==> peerToInfo[a].notices == {}
      modifies this`peerToInfo
      ensures existed <==> rmtAddr in old(peerToInfo)
      ensures peerToInfo == old(peerToInfo) - {rmtAddr}
    {
      existed := rmtAddr in peerToInfo;
      peerToInfo := peerToInfo - {rmtAddr};
    }

    /** A client-side peer with the least rating. There is none when every client-side rating is zero
        or every one is the largest, with which the scan starts. */
    method GetWorstPeer() returns (worst: Option<SockAddr>)
      ensures worst.None? <==>
                || (forall a :: a in peerToInfo && peerToInfo[a].isClient ==> peerToInfo[a].rating == 0)
                || (forall a :: a in peerToInfo && peerToInfo[a].isClient ==> peerToInfo[a].rating == MAX_RATING)
      ensures worst.Some? ==> worst.value in peerToInfo && peerToInfo[worst.value].isClient
      ensures worst.Some? ==> forall a :: a in peerToInfo && peerToInfo[a].isClient ==>
                peerToInfo[worst.value].rating <= peerToInfo[a].rating
    {
      var rmtAddr: Option<SockAddr> := None;
      var minRating := MAX_RATING;
      var valid := false;
      var todo := peerToInfo.Keys;
      while todo != {}
        invariant todo <= peerToInfo.Keys
        invariant rmtAddr.None? ==>
                    minRating == MAX_RATING
                    && forall a :: a in peerToInfo && a !in todo && peerToInfo[a].isClient ==>
                         peerToInfo[a].rating == MAX_RATING
        invariant rmtAddr.Some? ==>
                    rmtAddr.value in peerToInfo && peerToInfo[rmtAddr.value].isClient
                    && rmtAddr.value !in todo && minRating == peerToInfo[rmtAddr.value].rating < MAX_RATING
        invariant forall a :: a in peerToInfo && a !in todo && peerToInfo[a].isClient ==>
                    minRating <= peerToInfo[a].rating
        invariant valid <==>
                    exists a :: a in peerToInfo && a !in todo && peerToInfo[a].isClient && peerToInfo[a].rating != 0
      {
        var a :| a in todo;
        todo := todo - {a};
        if peerToInfo[a].isClient {
          var rating := peerToInfo[a].rating;
          if rating != 0 {
            valid := true;
          }
          if rating < minRating {
            minRating := rating;
            rmtAddr := Some(a);
          }
        }
      }
      worst := if valid then rmtAddr else None;
    }
  }
}
