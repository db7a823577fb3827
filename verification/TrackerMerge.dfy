/** Merging the records of one tracker into another. */
module TrackerMerge {
  import opened Common
  import opened Address
  import opened SrvrInfo
  import opened Tracker

  function Newer(x: P2pSrvrInfo, y: P2pSrvrInfo): P2pSrvrInfo {
    if y.valid > x.valid then y else x
  }

  /** For every server the record that became valid last; the first map's upon a tie. */
  function Merged(m: Infos, n: Infos): Infos {
    map a | a in m.Keys + n.Keys ::
      if a !in n then m[a] else if a !in m then n[a] else Newer(m[a], n[a])
  }

  /** A merge knows what either knows; of two records on one server it has the later one, or its own upon a
      tie. */
  lemma MergedIsLatest(m: Infos, n: Infos, a: SockAddr)
    ensures a in Merged(m, n) <==> a in m || a in n
    ensures a in m ==> Merged(m, n)[a].valid >= m[a].valid
    ensures a in n ==> Merged(m, n)[a].valid >= n[a].valid
    ensures a in m && Merged(m, n)[a].valid == m[a].valid ==> Merged(m, n)[a] == m[a]
    ensures a in n && Merged(m, n)[a] != n[a] ==> a in m && Merged(m, n)[a] == m[a]
  {
  }

  lemma MergedIdempotent(m: Infos, n: Infos)
    ensures Merged(m, m) == m
    ensures Merged(Merged(m, n), n) == Merged(m, n)
  {
  }

  lemma MergedAssociative(m: Infos, n: Infos, o: Infos)
    ensures Merged(Merged(m, n), o) == Merged(m, Merged(n, o))
  {
    assert Merged(Merged(m, n), o).Keys == Merged(m, Merged(n, o)).Keys;
  }

  /** Merging commutes exactly when records of one server with one time are one record. */
  lemma MergedCommutesIff(m: Infos, n: Infos)
    ensures Merged(m, n) == Merged(n, m) <==>
              forall a :: a in m && a in n && m[a].valid == n[a].valid ==> m[a] == n[a]
  {
    assert Merged(m, n).Keys == Merged(n, m).Keys;
    if Merged(m, n) == Merged(n, m) {
      forall a | a in m && a in n && m[a].valid == n[a].valid
        ensures m[a] == n[a]
      {
        assert Merged(m, n)[a] == m[a] && Merged(n, m)[a] == n[a];
      }
    }
  }

  /** The records `infos`, repeated or not, are those of `n`. */
  ghost predicate Lists(infos: seq<P2pSrvrInfo>, n: Infos) {
    && (forall i :: i in infos ==> i.srvrAddr in n && n[i.srvrAddr] == i)
    && (forall a :: a in n ==> n[a] in infos && n[a].srvrAddr == a)
  }

  lemma ListsOneMore(infos: seq<P2pSrvrInfo>, n: Infos, todo: set<SockAddr>, a: SockAddr)
    requires Lists(infos, n - todo) && a in todo && a in n && n[a].srvrAddr == a
    ensures Lists(infos + [n[a]], n - (todo - {a}))
  {
    var more, n' := infos + [n[a]], n - (todo - {a});
    forall b | b in n'
      ensures n'[b] in more && n'[b].srvrAddr == b
    {
      if b == a {
        assert more[|infos|] == n[a];
      } else {
        assert b in n - todo && (n - todo)[b] in infos;
      }
    }
  }

  /** One record added to a map without a bound. */
  function MergeOne(m: Infos, i: P2pSrvrInfo): Infos {
    var a := i.srvrAddr;
    if a in m && !(i.valid > m[a].valid) then m else m[a := i]
  }

  function MergeAll(m: Infos, infos: seq<P2pSrvrInfo>): Infos
    decreases |infos|
  {
    if infos == [] then m else MergeAll(MergeOne(m, infos[0]), infos[1..])
  }

  lemma {:induction false} AddAllSnoc(s: State, capacity: nat, infos: seq<P2pSrvrInfo>, i: P2pSrvrInfo)
    requires Valid(s) && |s.infos| <= capacity && capacity > 0
    requires AddAll(s, capacity, infos).Some?
    ensures var r := AddAll(s, capacity, infos).value;
      AddAll(s, capacity, infos + [i]) == if CanAdd(r, capacity, i) then Some(TryAdd(r, capacity, i)) else None
    decreases |infos|
  {
    if infos == [] {
      assert [i][1..] == [];
      if CanAdd(s, capacity, i) {
        TryAddValid(s, capacity, i);
        assert AddAll(TryAdd(s, capacity, i), capacity, []) == Some(TryAdd(s, capacity, i));
      }
    } else {
      TryAddValid(s, capacity, infos[0]);
      AddAllSnoc(TryAdd(s, capacity, infos[0]), capacity, infos[1..], i);
      assert (infos + [i])[1..] == infos[1..] + [i];
    }
  }

  /** The effect of adding records, seen at one server: it depends neither on their order nor on
      repetitions. */
  lemma {:induction false} MergeAllAt(m: Infos, infos: seq<P2pSrvrInfo>, a: SockAddr, r: P2pSrvrInfo)
    requires forall i :: i in infos && i.srvrAddr == a ==> i == r
    requires r.srvrAddr == a
    ensures var m' := MergeAll(m, infos);
      if r in infos then a in m' && m'[a] == (if a in m then Newer(m[a], r) else r)
      else (a in m' <==> a in m) && (a in m ==> m'[a] == m[a])
    decreases |infos|
  {
    if infos != [] {
      assert infos == [infos[0]] + infos[1..];
      MergeAllAt(MergeOne(m, infos[0]), infos[1..], a, r);
    }
  }

  lemma MergeAllIsMerged(m: Infos, infos: seq<P2pSrvrInfo>, n: Infos)
    requires Lists(infos, n)
    ensures MergeAll(m, infos) == Merged(m, n)
  {
    var m' := MergeAll(m, infos);
    forall a
      ensures a in m' <==> a in Merged(m, n)
      ensures a in m' ==> m'[a] == Merged(m, n)[a]
    {
      if a in n {
        MergeAllAt(m, infos, a, n[a]);
      } else {
        var r := P2pSrvrInfo(0, a, 0, 0);
        assert r !in infos;
        MergeAllAt(m, infos, a, r);
      }
    }
  }

  lemma TryAddMerges(s: State, capacity: nat, i: P2pSrvrInfo)
    requires Valid(s) && (i.srvrAddr !in s.infos ==> |s.infos| < capacity)
    ensures TryAdd(s, capacity, i).infos == MergeOne(s.infos, i)
  {
    UpdateValid(s, i);
  }

  lemma {:induction false} AddAllMerges(s: State, capacity: nat, infos: seq<P2pSrvrInfo>, union: set<SockAddr>)
    requires Valid(s) && |s.infos| <= capacity && capacity > 0
    requires s.infos.Keys <= union && |union| <= capacity
    requires forall i :: i in infos ==> i.srvrAddr in union
    ensures AddAll(s, capacity, infos).Some?
    ensures AddAll(s, capacity, infos).value.infos == MergeAll(s.infos, infos)
    decreases |infos|
  {
    if infos != [] {
      var i := infos[0];
      RoomForOne(s.infos, union, i.srvrAddr, capacity);
      TryAddValid(s, capacity, i);
      TryAddMerges(s, capacity, i);
      AddAllMerges(TryAdd(s, capacity, i), capacity, infos[1..], union);
    }
  }

  lemma RoomForOne(m: Infos, union: set<SockAddr>, a: SockAddr, capacity: nat)
    requires m.Keys <= union && a in union && |union| <= capacity
    ensures a !in m ==> |m| < capacity
  {
    if a !in m {
      SubsetCard(m.Keys + {a}, union);
      assert |m.Keys| == |m|;
    }
  }

  lemma SubsetCard<T>(s: set<T>, t: set<T>)
    requires s <= t
    ensures |s| <= |t|
  {
    assert t == s + (t - s);
  }

  /** In whatever order another tracker's records are added, the result is, for every server, the
      record that became valid last if and only if all the servers fit. */
  lemma MergeIsLastWriterWinsIff(s: State, capacity: nat, infos: seq<P2pSrvrInfo>, n: Infos)
    requires Valid(s) && |s.infos| <= capacity && capacity > 0 && Lists(infos, n)
    ensures AddAll(s, capacity, infos).Some? && AddAll(s, capacity, infos).value.infos == Merged(s.infos, n)
            <==> |s.infos.Keys + n.Keys| <= capacity
  {
    if |s.infos.Keys + n.Keys| <= capacity {
      AddAllMerges(s, capacity, infos, s.infos.Keys + n.Keys);
      MergeAllIsMerged(s.infos, infos, n);
    } else {
      assert Merged(s.infos, n).Keys == s.infos.Keys + n.Keys;
      assert |Merged(s.infos, n)| == |Merged(s.infos, n).Keys|;
    }
  }
}
