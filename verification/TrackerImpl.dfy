/** The tracker as the object that it is. */
module TrackerImpl {
  import opened Common
  import opened Address
  import opened SrvrInfo
  import opened Tracker
  import opened TrackerRuns
  import opened TrackerMerge

  class Impl {
    const capacity: nat
    const delay: int
    var srvrInfos: Infos
    var srvrQueue: seq<SockAddr>
    var delayQueue: multiset<DelayElt>
    var done: bool

    function Value(): State
      reads this
    {
      State(srvrInfos, srvrQueue, delayQueue)
    }

    ghost predicate Ok()
      reads this
    {
      Inv(Config(capacity, delay), Value())
    }

    constructor (capacity: nat, delay: int)
      requires capacity > 0
      ensures Ok() && Value() == EMPTY && !done && this.capacity == capacity && this.delay == delay
    {
      this.capacity, this.delay := capacity, delay;
      srvrInfos, srvrQueue, delayQueue, done := map[], [], multiset{}, false;
    }

    method Update(info: P2pSrvrInfo)
      requires Valid(Value())
      modifies this
      ensures Value() == Tracker.Update(old(Value()), info) && done == old(done)
    {
      var a := info.srvrAddr;
      if a in srvrInfos {
        srvrQueue := Tracker.Erase(srvrInfos, srvrQueue, a);
      }
      srvrInfos := srvrInfos[a := info];
      srvrQueue := Tracker.Insert(srvrInfos, srvrQueue, a);
    }

    method Remove(a: SockAddr)
      requires Valid(Value()) && (srvrQueue != [] ==> a in srvrInfos)
      modifies this
      ensures Value() == Tracker.Remove(old(Value()), a) && done == old(done)
    {
      srvrQueue := Tracker.Erase(srvrInfos, srvrQueue, a);
      srvrInfos := srvrInfos - {a};
    }

    method TryAdd(info: P2pSrvrInfo) returns (success: bool)
      requires Ok() && CanAdd(Value(), capacity, info)
      modifies this
      ensures Ok() && Value() == Tracker.TryAdd(old(Value()), capacity, info) && done == old(done)
      ensures success <==> info.srvrAddr !in old(srvrInfos) || info.valid > old(srvrInfos)[info.srvrAddr].valid
      ensures success ==> srvrInfos[info.srvrAddr] == info
      ensures srvrInfos == InfosAdded(old(Value()), capacity, info)
      ensures info.srvrAddr !in old(srvrInfos) && |old(srvrInfos)| >= capacity ==>
                forall b :: b in old(srvrQueue) ==>
                  b in old(srvrInfos)
                  && AtLeastAsGood(old(srvrInfos)[b], old(srvrInfos)[old(srvrQueue)[|old(srvrQueue)| - 1]])
    {
      TryAddValid(Value(), capacity, info);
      TryAddInfos(Value(), capacity, info);
      var a := info.srvrAddr;
      if a !in srvrInfos {
        if |srvrInfos| >= capacity {
          var worst := srvrQueue[|srvrQueue| - 1];
          RemoveValid(Value(), worst);
          Remove(worst);
        }
        UpdateValid(Value(), info);
        Update(info);
        success := true;
      } else {
        success := info.valid > srvrInfos[a].valid;
        if success {
          if Tracker.Count(srvrInfos, srvrQueue, a) == 0 {
            srvrInfos := srvrInfos[a := info];
          } else {
            UpdateValid(Value(), info);
            Update(info);
          }
        }
      }
    }

    /** Adds another tracker's records in an arbitrary order. `ok` is false when eviction's
        assertion fails on the way, which it does not when the servers of both fit. */
    method InsertAll(other: Impl) returns (ok: bool, ghost order: seq<P2pSrvrInfo>)
      requires Ok() && (forall a :: a in other.srvrInfos ==> other.srvrInfos[a].srvrAddr == a)
      modifies this
      ensures Ok() && done == old(done)
      ensures other == this ==> ok && Value() == old(Value())
      ensures other != this && ok ==>
                Lists(order, other.srvrInfos) && AddAll(old(Value()), capacity, order) == Some(Value())
      ensures !ok ==>
                AddAll(old(Value()), capacity, order).None? && forall i :: i in order ==> i in other.srvrInfos.Values
      ensures |old(srvrInfos).Keys + old(other.srvrInfos).Keys| <= capacity ==>
                ok && srvrInfos == Merged(old(srvrInfos), old(other.srvrInfos))
    {
      order := [];
      if other == this {
        MergedIdempotent(srvrInfos, srvrInfos);
        return true, order;
      }
      ghost var before, union := Value(), srvrInfos.Keys + other.srvrInfos.Keys;
      var theirs := other.srvrInfos;
      var todo := theirs.Keys;
      while todo != {}
        invariant Ok() && todo <= theirs.Keys && done == old(done)
        invariant AddAll(before, capacity, order) == Some(Value())
        invariant Lists(order, theirs - todo)
        decreases todo
      {
        var a :| a in todo;
        AddAllSnoc(before, capacity, order, theirs[a]);
        ListsOneMore(order, theirs, todo, a);
        order, todo := order + [theirs[a]], todo - {a};
        if !CanAdd(Value(), capacity, theirs[a]) {
          if |union| <= capacity {
            AddAllMerges(before, capacity, order, union);
          }
          return false, order;
        }
        var success := TryAdd(theirs[a]);
      }
      assert theirs - todo == theirs;
      if |union| <= capacity {
        MergeIsLastWriterWinsIff(before, capacity, order, theirs);
      }
      ok := true;
    }

    /** `None` once the tracker has been halted; blocks, hence is not called, while there is no
        server to hand out. */
    method GetNextAddr() returns (addr: Option<SockAddr>)
      requires Ok() && (srvrQueue != [] || done)
      modifies this
      ensures Ok() && done == old(done)
      ensures done ==> addr.None? && Value() == old(Value())
      ensures !done ==> addr == Some(old(srvrQueue)[0]) && Value() == Next(old(Value()))
      ensures !done ==> addr.value in srvrInfos && srvrInfos == old(srvrInfos)
      ensures !done ==> forall b :: b in old(srvrQueue) ==>
                b in srvrInfos && AtLeastAsGood(srvrInfos[addr.value], srvrInfos[b])
    {
      if done {
        return None;
      }
      NextValid(Value());
      forall b | b in srvrQueue
        ensures b in srvrInfos && AtLeastAsGood(srvrInfos[srvrQueue[0]], srvrInfos[b])
      {
        EndsOfQueue(Value(), b);
      }
      addr := Some(srvrQueue[0]);
      srvrQueue := srvrQueue[1..];
    }

    method Disconnected(a: SockAddr, wasClient: bool, now: i64) returns (known: bool)
      requires Ok()
      modifies this
      ensures Ok() && done == old(done) && known == (a in old(srvrInfos))
      ensures Value() == Tracker.Disconnected(old(Value()), a, wasClient, now, delay)
      ensures known ==> srvrInfos[a].valid == now && srvrInfos[a].tier == old(srvrInfos)[a].tier
      ensures known && wasClient && old(srvrInfos)[a].tier >= 0 && 0 <= old(srvrInfos)[a].numAvail < 0x7FFF ==>
                srvrInfos[a].numAvail == old(srvrInfos)[a].numAvail + 1
      ensures known && !wasClient ==> srvrInfos[a].numAvail == old(srvrInfos)[a].numAvail
    {
      StepInv(Config(capacity, delay), Value(), Disconnect(a, wasClient, now));
      if a !in srvrInfos {
        return false;
      }
      srvrQueue := Tracker.Erase(srvrInfos, srvrQueue, a);
      var i := srvrInfos[a];
      if wasClient {
        i := i.(numAvail := if i.ValidMetrics() then ToI16(i.numAvail + 1) else 1);
      }
      i := i.(valid := now);
      srvrInfos := srvrInfos[a := i];
      delayQueue := delayQueue + multiset{DelayElt(a, now + delay)};
      known := true;
    }

    /** One turn of the thread that ends delays, at time `now`. */
    method EndDelay(now: i64) returns (e: DelayElt)
      requires Ok() && exists d :: CanReveal(Value(), d, now)
      modifies this
      ensures Ok() && done == old(done)
      ensures CanReveal(old(Value()), e, now) && Value() == Reveal(old(Value()), e)
    {
      e :| CanReveal(Value(), e, now);
      RevealValid(Value(), e);
      var a := e.srvrAddr;
      if a in srvrInfos {
        srvrQueue := Tracker.Erase(srvrInfos, srvrQueue, a);
        srvrQueue := Tracker.Insert(srvrInfos, srvrQueue, a);
      }
      delayQueue := delayQueue - multiset{e};
    }

    /** Replaces the contents by the records of a stream. */
    method ReadFrom(infos: seq<P2pSrvrInfo>)
      requires Ok()
      modifies this
      ensures Ok() && done == old(done)
      ensures AddAll(EMPTY, capacity, infos) == Some(Value())
      ensures Elems(srvrQueue) == srvrInfos.Keys
    {
      ReadQueuesAll(Config(capacity, delay), Value(), infos);
      delayQueue, srvrQueue, srvrInfos := multiset{}, [], map[];
      for i := 0 to |infos|
        invariant Ok() && done == old(done)
        invariant AddAll(Value(), capacity, infos[i..]) == AddAll(EMPTY, capacity, infos)
      {
        assert infos[i..][0] == infos[i] && infos[i..][1..] == infos[i + 1..];
        var success := TryAdd(infos[i]);
      }
    }
  }
}
