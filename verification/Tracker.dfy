/** The pool of known P2P servers: an ordered set of addresses whose order is looked up in a table
    that changes, a queue of servers to be made available again later, and a capacity. */
module Tracker {
  import opened Common
  import opened Address
  import opened SrvrInfo

  type Infos = map<SockAddr, P2pSrvrInfo>

  // The comparator of the ordered set

  predicate Before(infos: Infos, a: SockAddr, b: SockAddr)
    requires a in infos && b in infos
  {
    var i, j := infos[a], infos[b];
    if i.ValidMetrics() != j.ValidMetrics() then i.ValidMetrics()
    else if i.tier != j.tier then i.tier < j.tier
    else if i.numAvail != j.numAvail then i.numAvail > j.numAvail
    else if i.valid != j.valid then i.valid > j.valid
    else SockLess(a, b)
  }

  /** Addresses that the comparator does not order are the same. */
  lemma BeforeTotal(infos: Infos, a: SockAddr, b: SockAddr)
    requires a in infos && b in infos
    ensures a == b <==> !Before(infos, a, b) && !Before(infos, b, a)
    ensures !(Before(infos, a, b) && Before(infos, b, a))
  {
    SockLessTotal(a, b);
  }

  /** Whether one server is at least as good as another: with valid metrics if the other has them; then by
      the number of hops to the publisher, the fewer the better; by the number of free places, the more the
      better; by the time of the information, the later the better; and by address. */
  ghost predicate AtLeastAsGood(i: P2pSrvrInfo, j: P2pSrvrInfo) {
    var valid, valid' := i.tier >= 0 && i.numAvail >= 0, j.tier >= 0 && j.numAvail >= 0;
    && (valid' ==> valid)
    && (valid == valid' ==>
          && i.tier <= j.tier
          && (i.tier == j.tier ==> i.numAvail >= j.numAvail)
          && (i.tier == j.tier && i.numAvail == j.numAvail ==> i.valid >= j.valid)
          && (i.tier == j.tier && i.numAvail == j.numAvail && i.valid == j.valid ==>
                i.srvrAddr == j.srvrAddr || SockLess(i.srvrAddr, j.srvrAddr)))
  }

  /** That is what the comparator decides between servers that are known under their own addresses. */
  lemma BeforeIsBetter(infos: Infos, a: SockAddr, b: SockAddr)
    requires a in infos && b in infos && infos[a].srvrAddr == a && infos[b].srvrAddr == b
    ensures Before(infos, a, b) <==> a != b && AtLeastAsGood(infos[a], infos[b])
  {
    SockLessTotal(a, b);
  }

  lemma BeforeTransitive(infos: Infos, a: SockAddr, b: SockAddr, c: SockAddr)
    requires a in infos && b in infos && c in infos
    requires Before(infos, a, b) && Before(infos, b, c)
    ensures Before(infos, a, c)
  {
    if SockLess(a, b) && SockLess(b, c) {
      SockLessTransitive(a, b, c);
    }
  }

  // The ordered set, as operations on its elements in order. Like the library's tree, they find
  // their place and recognize equal elements by means of the comparator alone.

  ghost predicate Known(infos: Infos, q: seq<SockAddr>) {
    forall a :: a in q ==> a in infos
  }

  ghost predicate Sorted(infos: Infos, q: seq<SockAddr>)
    requires Known(infos, q)
  {
    forall i, j :: 0 <= i < j < |q| ==> Before(infos, q[i], q[j])
  }

  function Insert(infos: Infos, q: seq<SockAddr>, a: SockAddr): seq<SockAddr>
    requires Known(infos, q) && a in infos
  {
    if q == [] then [a]
    else if Before(infos, a, q[0]) then [a] + q
    else if Before(infos, q[0], a) then [q[0]] + Insert(infos, q[1..], a)
    else q
  }

  function Erase(infos: Infos, q: seq<SockAddr>, a: SockAddr): (r: seq<SockAddr>)
    requires Known(infos, q) && (q != [] ==> a in infos)
    ensures forall b :: b in r ==> b in q
  {
    if q == [] then []
    else if Before(infos, a, q[0]) then q
    else if Before(infos, q[0], a) then [q[0]] + Erase(infos, q[1..], a)
    else q[1..]
  }

  function Count(infos: Infos, q: seq<SockAddr>, a: SockAddr): nat
    requires Known(infos, q) && (q != [] ==> a in infos)
  {
    if q == [] || Before(infos, a, q[0]) then 0
    else if Before(infos, q[0], a) then Count(infos, q[1..], a)
    else 1
  }

  lemma SortedTail(infos: Infos, q: seq<SockAddr>)
    requires Known(infos, q) && q != [] && Sorted(infos, q)
    ensures Known(infos, q[1..]) && Sorted(infos, q[1..])
    ensures q == [q[0]] + q[1..]
    ensures forall b :: b in q[1..] ==> b in infos && Before(infos, q[0], b)
  {
  }

  lemma SortedCons(infos: Infos, a: SockAddr, q: seq<SockAddr>)
    requires Known(infos, q) && Sorted(infos, q) && a in infos
    requires forall b :: b in q ==> b in infos && Before(infos, a, b)
    ensures Known(infos, [a] + q) && Sorted(infos, [a] + q)
  {
  }

  lemma SortedNoDup(infos: Infos, q: seq<SockAddr>)
    requires Known(infos, q) && Sorted(infos, q)
    ensures NoDup(q)
  {
    forall i, j | 0 <= i < j < |q|
      ensures q[i] != q[j]
    {
      BeforeTotal(infos, q[i], q[j]);
    }
  }

  /** What is before the first element is not an element. */
  lemma BeforeFirst(infos: Infos, q: seq<SockAddr>, a: SockAddr)
    requires Known(infos, q) && Sorted(infos, q) && q != [] && a in infos && Before(infos, a, q[0])
    ensures a !in q && forall b :: b in q ==> b in infos && Before(infos, a, b)
  {
    SortedTail(infos, q);
    forall b | b in q
      ensures Before(infos, a, b)
    {
      if b != q[0] {
        BeforeTransitive(infos, a, q[0], b);
      }
    }
    BeforeTotal(infos, a, a);
  }

  lemma {:induction false} InsertSorts(infos: Infos, q: seq<SockAddr>, a: SockAddr)
    requires Known(infos, q) && Sorted(infos, q) && a in infos
    ensures Known(infos, Insert(infos, q, a)) && Sorted(infos, Insert(infos, q, a))
    ensures forall b :: b in Insert(infos, q, a) <==> b in q || b == a
  {
    if q != [] {
      SortedTail(infos, q);
      BeforeTotal(infos, a, q[0]);
      if Before(infos, a, q[0]) {
        BeforeFirst(infos, q, a);
        SortedCons(infos, a, q);
      } else if Before(infos, q[0], a) {
        InsertSorts(infos, q[1..], a);
        SortedCons(infos, q[0], Insert(infos, q[1..], a));
      }
    }
  }

  lemma {:induction false} EraseSorts(infos: Infos, q: seq<SockAddr>, a: SockAddr)
    requires Known(infos, q) && Sorted(infos, q) && (q != [] ==> a in infos)
    ensures Known(infos, Erase(infos, q, a)) && Sorted(infos, Erase(infos, q, a))
    ensures forall b :: b in Erase(infos, q, a) <==> b in q && b != a
  {
    if q != [] {
      SortedTail(infos, q);
      BeforeTotal(infos, a, q[0]);
      if Before(infos, a, q[0]) {
        BeforeFirst(infos, q, a);
      } else if Before(infos, q[0], a) {
        EraseSorts(infos, q[1..], a);
        SortedCons(infos, q[0], Erase(infos, q[1..], a));
      } else {
        BeforeTotal(infos, a, a);
      }
    }
  }

  lemma {:induction false} CountCounts(infos: Infos, q: seq<SockAddr>, a: SockAddr)
    requires Known(infos, q) && Sorted(infos, q) && (q != [] ==> a in infos)
    ensures Count(infos, q, a) == if a in q then 1 else 0
  {
    if q != [] {
      SortedTail(infos, q);
      BeforeTotal(infos, a, q[0]);
      if Before(infos, a, q[0]) {
        BeforeFirst(infos, q, a);
      } else if Before(infos, q[0], a) {
        CountCounts(infos, q[1..], a);
      }
    }
  }

  /** Information about servers that are out of the queue may change freely. */
  lemma SortedElsewhere(infos: Infos, infos': Infos, q: seq<SockAddr>)
    requires Known(infos, q) && Sorted(infos, q)
    requires forall a :: a in q ==> a in infos' && infos'[a] == infos[a]
    ensures Known(infos', q) && Sorted(infos', q)
  {
    forall i, j | 0 <= i < j < |q|
      ensures Before(infos', q[i], q[j])
    {
      assert Before(infos, q[i], q[j]) && q[i] in q && q[j] in q;
    }
  }

  // The tracker

  datatype DelayElt = DelayElt(srvrAddr: SockAddr, revealTime: int)

  datatype State = State(infos: Infos, queue: seq<SockAddr>, delays: multiset<DelayElt>)

  ghost predicate Valid(s: State) {
    && Known(s.infos, s.queue) && Sorted(s.infos, s.queue)
    && forall a :: a in s.infos ==> s.infos[a].srvrAddr == a
  }

  /** The first of the queue is the best server in it, and the last one the worst. */
  lemma EndsOfQueue(s: State, b: SockAddr)
    requires Valid(s) && b in s.queue
    ensures b in s.infos && s.queue[0] in s.infos && s.queue[|s.queue| - 1] in s.infos
    ensures AtLeastAsGood(s.infos[s.queue[0]], s.infos[b])
    ensures AtLeastAsGood(s.infos[b], s.infos[s.queue[|s.queue| - 1]])
  {
    var first, last := s.queue[0], s.queue[|s.queue| - 1];
    BeforeIsBetter(s.infos, first, b);
    BeforeIsBetter(s.infos, b, last);
  }

  /** Replaces what is known about a server and puts the server where it now belongs. */
  function Update(s: State, info: P2pSrvrInfo): State
    requires Valid(s)
  {
    var a := info.srvrAddr;
    var q := if a in s.infos then Erase(s.infos, s.queue, a) else s.queue;
    var infos := s.infos[a := info];
    State(infos, Insert(infos, q, a), s.delays)
  }

  function Remove(s: State, a: SockAddr): State
    requires Valid(s) && (s.queue != [] ==> a in s.infos)
  {
    State(s.infos - {a}, Erase(s.infos, s.queue, a), s.delays)
  }

  lemma UpdateValid(s: State, info: P2pSrvrInfo)
    requires Valid(s)
    ensures var s' := Update(s, info);
      && Valid(s') && s'.infos == s.infos[info.srvrAddr := info] && s'.delays == s.delays
      && forall b :: b in s'.queue <==> b in s.queue || b == info.srvrAddr
  {
    var a := info.srvrAddr;
    var q := if a in s.infos then Erase(s.infos, s.queue, a) else s.queue;
    if a in s.infos {
      EraseSorts(s.infos, s.queue, a);
    }
    var infos := s.infos[a := info];
    SortedElsewhere(s.infos, infos, q);
    InsertSorts(infos, q, a);
  }

  lemma RemoveValid(s: State, a: SockAddr)
    requires Valid(s) && (s.queue != [] ==> a in s.infos)
    ensures var s' := Remove(s, a);
      && Valid(s') && s'.infos == s.infos - {a} && s'.delays == s.delays
      && forall b :: b in s'.queue <==> b in s.queue && b != a
  {
    EraseSorts(s.infos, s.queue, a);
    SortedElsewhere(s.infos, s.infos - {a}, Erase(s.infos, s.queue, a));
  }

  /** The assertion that guards eviction: a full tracker has a server in its queue. */
  predicate CanAdd(s: State, capacity: nat, info: P2pSrvrInfo) {
    info.srvrAddr !in s.infos && |s.infos| >= capacity ==> s.queue != []
  }

  function TryAdd(s: State, capacity: nat, info: P2pSrvrInfo): State
    requires Valid(s) && CanAdd(s, capacity, info)
  {
    var a := info.srvrAddr;
    if a !in s.infos then
      if |s.infos| >= capacity then
        var worst := s.queue[|s.queue| - 1];
        RemoveValid(s, worst);
        Update(Remove(s, worst), info)
      else Update(s, info)
    else if info.valid > s.infos[a].valid then
      if Count(s.infos, s.queue, a) == 0 then s.(infos := s.infos[a := info]) else Update(s, info)
    else s
  }

  function Disconnected(s: State, a: SockAddr, wasClient: bool, now: i64, delay: int): State
    requires Valid(s)
  {
    if a !in s.infos then s
    else
      var q := Erase(s.infos, s.queue, a);
      var i := s.infos[a];
      var numAvail := if !wasClient then i.numAvail
                      else if i.ValidMetrics() then ToI16(i.numAvail + 1) else 1;
      State(s.infos[a := i.(numAvail := numAvail, valid := now)], q,
            s.delays + multiset{DelayElt(a, now + delay)})
  }

  /** The queue of delays gives up an element with the earliest time, once that time has come. */
  predicate CanReveal(s: State, e: DelayElt, now: i64) {
    e in s.delays && e.revealTime <= now && forall f :: f in s.delays ==> e.revealTime <= f.revealTime
  }

  function Reveal(s: State, e: DelayElt): State
    requires Valid(s)
  {
    var a := e.srvrAddr;
    var s1 := s.(delays := s.delays - multiset{e});
    if a !in s.infos then s1
    else s1.(queue := Insert(s.infos, Erase(s.infos, s.queue, a), a))
  }

  /** The best server and the queue without it. */
  function Next(s: State): State
    requires s.queue != []
  {
    s.(queue := s.queue[1..])
  }

  /** What is known after an addition: a new server, for which a full tracker gives up the worst one of its
      queue; or later information on a known server. */
  ghost function InfosAdded(s: State, capacity: nat, info: P2pSrvrInfo): Infos
    requires CanAdd(s, capacity, info)
  {
    var a := info.srvrAddr;
    if a in s.infos then if info.valid > s.infos[a].valid then s.infos[a := info] else s.infos
    else if |s.infos| < capacity then s.infos[a := info]
    else (s.infos - {s.queue[|s.queue| - 1]})[a := info]
  }

  lemma TryAddValid(s: State, capacity: nat, info: P2pSrvrInfo)
    requires Valid(s) && CanAdd(s, capacity, info) && |s.infos| <= capacity && capacity > 0
    ensures var s' := TryAdd(s, capacity, info);
      && Valid(s') && |s'.infos| <= capacity && s'.delays == s.delays
      && info.srvrAddr in s'.infos
      && (forall b :: b in s'.queue ==> b in s.queue || (b == info.srvrAddr && b !in s.infos))
      && (forall b :: b in s.infos && b !in s.queue ==> b in s'.infos && b !in s'.queue)
      && (forall b :: b in s'.infos ==> b in s.infos || b == info.srvrAddr)
      && (info.srvrAddr !in s.infos ==> info.srvrAddr in s'.queue)
      && (forall b :: b in s.queue && b in s'.infos ==> b in s'.queue)
  {
    var a := info.srvrAddr;
    if a !in s.infos {
      if |s.infos| >= capacity {
        var worst := s.queue[|s.queue| - 1];
        RemoveValid(s, worst);
        assert |s.infos - {worst}| == |s.infos| - 1 by {
          assert (s.infos - {worst}).Keys == s.infos.Keys - {worst};
          assert |s.infos| == |s.infos.Keys| && |s.infos - {worst}| == |(s.infos - {worst}).Keys|;
        }
        UpdateValid(Remove(s, worst), info);
        AddOne(Remove(s, worst).infos, a, info);
      } else {
        UpdateValid(s, info);
        AddOne(s.infos, a, info);
      }
    } else {
      CountCounts(s.infos, s.queue, a);
      UpdateValid(s, info);
      AddOne(s.infos, a, info);
      if a !in s.queue {
        SortedElsewhere(s.infos, s.infos[a := info], s.queue);
      }
    }
  }

  /** What becomes known and what is forgotten: a full tracker forgets a server of its queue than which no
      other in it is worse. */
  lemma TryAddInfos(s: State, capacity: nat, info: P2pSrvrInfo)
    requires Valid(s) && CanAdd(s, capacity, info)
    ensures TryAdd(s, capacity, info).infos == InfosAdded(s, capacity, info)
    ensures info.srvrAddr !in s.infos && |s.infos| >= capacity ==>
              forall b :: b in s.queue ==>
                b in s.infos && AtLeastAsGood(s.infos[b], s.infos[s.queue[|s.queue| - 1]])
  {
    forall b | b in s.queue
      ensures b in s.infos && AtLeastAsGood(s.infos[b], s.infos[s.queue[|s.queue| - 1]])
    {
      EndsOfQueue(s, b);
    }
    if info.srvrAddr !in s.infos && |s.infos| >= capacity {
      RemoveValid(s, s.queue[|s.queue| - 1]);
      UpdateValid(Remove(s, s.queue[|s.queue| - 1]), info);
    } else {
      UpdateValid(s, info);
    }
  }

  lemma AddOne(infos: Infos, a: SockAddr, info: P2pSrvrInfo)
    ensures |infos[a := info]| == if a in infos then |infos| else |infos| + 1
  {
    assert infos[a := info].Keys == infos.Keys + {a};
    assert |infos| == |infos.Keys| && |infos[a := info]| == |infos[a := info].Keys|;
  }

  lemma DisconnectedValid(s: State, a: SockAddr, wasClient: bool, now: i64, delay: int)
    requires Valid(s)
    ensures var s' := Disconnected(s, a, wasClient, now, delay);
      && Valid(s') && s'.infos.Keys == s.infos.Keys
      && (forall b :: b in s'.queue <==> b in s.queue && b != a)
      && (forall b :: b in s.infos && b != a ==> s'.infos[b] == s.infos[b])
    ensures a in s.infos ==>
              var i, i' := s.infos[a], Disconnected(s, a, wasClient, now, delay).infos[a];
              && i'.valid == now && i'.tier == i.tier
              && (!wasClient ==> i'.numAvail == i.numAvail)
              && (wasClient && i.tier >= 0 && 0 <= i.numAvail < 0x7FFF ==> i'.numAvail == i.numAvail + 1)
              && (wasClient && i.tier >= 0 && i.numAvail == 0x7FFF ==> i'.numAvail == -0x8000)
              && (wasClient && (i.tier < 0 || i.numAvail < 0) ==> i'.numAvail == 1)
    ensures Disconnected(s, a, wasClient, now, delay).delays ==
              if a in s.infos then s.delays + multiset{DelayElt(a, now + delay)} else s.delays
  {
    if a in s.infos {
      EraseSorts(s.infos, s.queue, a);
      var s' := Disconnected(s, a, wasClient, now, delay);
      SortedElsewhere(s.infos, s'.infos, s'.queue);
    }
  }

  lemma RevealValid(s: State, e: DelayElt)
    requires Valid(s)
    ensures var s' := Reveal(s, e);
      && Valid(s') && s'.infos == s.infos && s'.delays == s.delays - multiset{e}
      && forall b :: b in s'.queue <==> b in s.queue || (b == e.srvrAddr && b in s.infos)
  {
    if e.srvrAddr in s.infos {
      EraseSorts(s.infos, s.queue, e.srvrAddr);
      InsertSorts(s.infos, Erase(s.infos, s.queue, e.srvrAddr), e.srvrAddr);
    }
  }

  lemma NextValid(s: State)
    requires Valid(s) && s.queue != []
    ensures Valid(Next(s)) && forall b :: b in Next(s).queue <==> b in s.queue && b != s.queue[0]
  {
    SortedTail(s.infos, s.queue);
    SortedNoDup(s.infos, s.queue);
  }

  /** All records of a stream, one after the other; `None` when eviction's assertion fails. */
  function AddAll(s: State, capacity: nat, infos: seq<P2pSrvrInfo>): (r: Option<State>)
    requires Valid(s) && |s.infos| <= capacity && capacity > 0
    ensures r.Some? ==> Valid(r.value) && |r.value.infos| <= capacity
    decreases |infos|
  {
    if infos == [] then Some(s)
    else if !CanAdd(s, capacity, infos[0]) then None
    else
      TryAddValid(s, capacity, infos[0]);
      AddAll(TryAdd(s, capacity, infos[0]), capacity, infos[1..])
  }

  const EMPTY := State(map[], [], multiset{})
}
