/** A queue of distinct values kept as a hash table of links: a doubly linked list whose nodes are
    found by value and whose ends are marked by the default value. */
module HashSetQueue {
  import opened Common

  datatype Links<V> = Links(prev: V, next: V)

  /** Position `i` of `s`, or the default value outside of it. */
  function At<V>(s: seq<V>, i: int, unset: V): V {
    if 0 <= i < |s| then s[i] else unset
  }

  /** The variables of a queue. */
  datatype Table<V> = Table(links: map<V, Links<V>>, head: V, tail: V)

  /** The links of `t` are those of the list `s`, in both directions. */
  ghost predicate Linked<V>(t: Table<V>, s: seq<V>, unset: V) {
    && NoDup(s)
    && t.links.Keys == Elems(s)
    && t.head == At(s, 0, unset)
    && t.tail == At(s, |s| - 1, unset)
    && forall i {:trigger t.links[s[i]]} :: 0 <= i < |s| ==>
         s[i] in t.links && t.links[s[i]] == Links(At(s, i - 1, unset), At(s, i + 1, unset))
  }

  /** With the default value not in the queue, the default value marks the two ends, and an empty
      queue, and nothing else. */
  lemma SentinelsMarkTheEnds<V>(t: Table<V>, s: seq<V>, unset: V, v: V)
    requires Linked(t, s, unset) && unset !in s
    ensures t.head == unset <==> s == []
    ensures t.tail == unset <==> s == []
    ensures v in t.links ==> (t.links[v].prev == unset <==> v == t.head) && (t.links[v].next == unset <==> v == t.tail)
    ensures v in t.links && v != t.tail ==> t.links[v].next in t.links && t.links[t.links[v].next].prev == v
    ensures v in t.links && v != t.head ==> t.links[v].prev in t.links && t.links[t.links[v].prev].next == v
  {
    if v in t.links {
      var i :| 0 <= i < |s| && s[i] == v;
      assert t.links[s[i]].prev == At(s, i - 1, unset);
      if i > 0 {
        assert s[i - 1] in t.links && t.links[s[i - 1]].next == At(s, i, unset);
      }
      if i + 1 < |s| {
        assert s[i + 1] in t.links && t.links[s[i + 1]].prev == At(s, i, unset);
      }
    }
  }

  /** The table after the unlinking and removal of the value at position `k`. */
  function Unlinked<V(==)>(t: Table<V>, v: V): Table<V>
    requires v in t.links
    requires v != t.head ==> t.links[v].prev in t.links
    requires v != t.tail ==> t.links[v].next in t.links
  {
    var l := t.links[v];
    var links1 := if v == t.head then t.links else t.links[l.prev := t.links[l.prev].(next := l.next)];
    var links2 := if v == t.tail then links1 else links1[l.next := links1[l.next].(prev := l.prev)];
    Table(links2 - {v}, if v == t.head then l.next else t.head, if v == t.tail then l.prev else t.tail)
  }

  lemma NeighboursExist<V>(t: Table<V>, s: seq<V>, unset: V, k: nat)
    requires Linked(t, s, unset) && k < |s|
    ensures s[k] in t.links && t.links[s[k]] == Links(At(s, k - 1, unset), At(s, k + 1, unset))
    ensures s[k] == t.head <==> k == 0
    ensures s[k] == t.tail <==> k == |s| - 1
    ensures k > 0 ==> s[k - 1] in t.links
    ensures k < |s| - 1 ==> s[k + 1] in t.links
  {
  }

  /** The links of one value after removal of another one. */
  lemma UnlinkedLinks<V>(t: Table<V>, s: seq<V>, unset: V, k: nat, j: nat)
    requires Linked(t, s, unset) && k < |s| && j < |s| && j != k
    ensures (NeighboursExist(t, s, unset, k); s[j] in Unlinked(t, s[k]).links)
    ensures (NeighboursExist(t, s, unset, k); Unlinked(t, s[k]).links[s[j]]) ==
              Links(At(s, if j - 1 == k then k - 1 else j - 1, unset),
                    At(s, if j + 1 == k then k + 1 else j + 1, unset))
  {
    NeighboursExist(t, s, unset, k);
    NeighboursExist(t, s, unset, j);
  }

  /** Positions close up where a value is taken out. */
  lemma AtWithout<V>(s: seq<V>, unset: V, k: nat, i: int)
    requires NoDup(s) && k < |s|
    ensures At(Without(s, s[k]), i, unset) == At(s, if i < k then i else i + 1, unset)
    ensures |Without(s, s[k])| == |s| - 1
  {
    WithoutAt(s, s[k], k);
  }

  lemma UnlinkedAt<V>(t: Table<V>, s: seq<V>, unset: V, k: nat, i: nat)
    requires Linked(t, s, unset) && k < |s| && i < |s| - 1
    ensures |Without(s, s[k])| == |s| - 1
    ensures (NeighboursExist(t, s, unset, k);
             var u, r := Unlinked(t, s[k]), Without(s, s[k]);
             r[i] in u.links && u.links[r[i]] == Links(At(r, i - 1, unset), At(r, i + 1, unset)))
  {
    AtWithout(s, unset, k, i - 1);
    AtWithout(s, unset, k, i);
    AtWithout(s, unset, k, i + 1);
    UnlinkedLinks(t, s, unset, k, if i < k then i else i + 1);
  }

  lemma UnlinkedEnds<V>(t: Table<V>, s: seq<V>, unset: V, k: nat)
    requires Linked(t, s, unset) && k < |s|
    ensures (NeighboursExist(t, s, unset, k);
             var u, r := Unlinked(t, s[k]), Without(s, s[k]);
             && NoDup(r) && u.links.Keys == Elems(r)
             && u.head == At(r, 0, unset) && u.tail == At(r, |r| - 1, unset))
  {
    NeighboursExist(t, s, unset, k);
    AtWithout(s, unset, k, 0);
    AtWithout(s, unset, k, |s| - 2);
    WithoutAt(s, s[k], k);
    assert Unlinked(t, s[k]).links.Keys == t.links.Keys - {s[k]};
  }

  /** Unlinking a value from anywhere leaves the list without it. */
  lemma UnlinkedLinked<V>(t: Table<V>, s: seq<V>, unset: V, k: nat)
    requires Linked(t, s, unset) && k < |s|
    ensures (NeighboursExist(t, s, unset, k); Linked(Unlinked(t, s[k]), Without(s, s[k]), unset))
  {
    UnlinkedEnds(t, s, unset, k);
    AtWithout(s, unset, k, 0);
    forall i | 0 <= i < |s| - 1
      ensures (NeighboursExist(t, s, unset, k);
               var u, r := Unlinked(t, s[k]), Without(s, s[k]);
               r[i] in u.links && u.links[r[i]] == Links(At(r, i - 1, unset), At(r, i + 1, unset)))
    {
      UnlinkedAt(t, s, unset, k, i);
    }
  }

  /** The table after removal of its first value. */
  function Popped<V(==)>(t: Table<V>, unset: V): Table<V>
    requires t.head in t.links && (t.head != t.tail ==> t.links[t.head].next in t.links)
  {
    var next, rest := t.links[t.head].next, t.links - {t.head};
    if rest == map[] then Table(rest, next, unset)
    else if next in rest then Table(rest[next := rest[next].(prev := unset)], next, t.tail)
    else Table(rest, next, t.tail)
  }

  lemma PoppedMany<V>(t: Table<V>, unset: V, next: V)
    requires t.head in t.links && t.links[t.head] == Links(unset, next)
    requires t.head != t.tail && next in t.links && next != t.head
    ensures t.links - {t.head} != map[] && next in t.links - {t.head}
    ensures Popped(t, unset) == Unlinked(t, t.head)
  {
    assert next in t.links - {t.head};
    assert Popped(t, unset).links == Unlinked(t, t.head).links;
  }

  lemma PoppedOne<V>(t: Table<V>, unset: V)
    requires t.head in t.links && t.links[t.head] == Links(unset, unset)
    requires t.head == t.tail && t.links.Keys == {t.head}
    ensures t.links - {t.head} == map[]
    ensures Popped(t, unset) == Unlinked(t, t.head)
  {
    assert (t.links - {t.head}).Keys == {};
  }

  /** Removing the first value as `pop` does is unlinking it. */
  lemma PoppedIsUnlinked<V>(t: Table<V>, s: seq<V>, unset: V)
    requires Linked(t, s, unset) && s != []
    ensures t.head == s[0] && t.head in t.links
    ensures t.links - {t.head} == map[] || t.links[t.head].next in t.links - {t.head}
    ensures t.head != t.tail ==> t.links[t.head].next in t.links
    ensures Linked(Popped(t, unset), s[1..], unset)
  {
    NeighboursExist(t, s, unset, 0);
    UnlinkedLinked(t, s, unset, 0);
    assert Without(s, s[0]) == s[1..] by {
      WithoutAt(s, s[0], 0);
      assert s[..0] + s[1..] == s[1..];
    }
    if |s| == 1 {
      assert Elems(s) == {s[0]};
      PoppedOne(t, unset);
    } else {
      assert s[0] != s[1];
      PoppedMany(t, unset, s[1]);
    }
  }

  /** The table after a value that is not in it was linked in at the back. */
  function Appended<V(==)>(t: Table<V>, v: V, unset: V): Table<V>
    requires t.links != map[] ==> t.tail in t.links
  {
    if t.links == map[] then Table(map[v := Links(t.tail, unset)], v, v)
    else Table(t.links[v := Links(t.tail, unset)][t.tail := t.links[t.tail].(next := v)], t.head, v)
  }

  lemma AppendedLinked<V>(t: Table<V>, s: seq<V>, unset: V, v: V)
    requires Linked(t, s, unset) && v !in s
    ensures t.links == map[] <==> s == []
    ensures t.links != map[] ==> t.tail in t.links
    ensures Linked(Appended(t, v, unset), s + [v], unset)
  {
    assert s != [] ==> s[|s| - 1] in t.links;
    assert s == [] ==> t.links.Keys == {};
    NoDupAppend(s, v);
    var u, r := Appended(t, v, unset), s + [v];
    assert u.links.Keys == t.links.Keys + {v};
    forall i | 0 <= i < |r|
      ensures r[i] in u.links && u.links[r[i]] == Links(At(r, i - 1, unset), At(r, i + 1, unset))
    {
      if i < |s| {
        NeighboursExist(t, s, unset, i);
      }
    }
  }

  class HashSetQueue<V(==)> {
    const unset: V
    var linksMap: map<V, Links<V>>
    var head: V
    var tail: V
    ghost var contents: seq<V>

    function State(): Table<V>
      reads this
    {
      Table(linksMap, head, tail)
    }

    ghost predicate Valid()
      reads this
    {
      Linked(State(), contents, unset)
    }

    constructor (unset: V)
      ensures Valid() && contents == [] && this.unset == unset
    {
      this.unset, head, tail := unset, unset, unset;
      linksMap, contents := map[], [];
    }

    function Empty(): (r: bool)
      requires Valid()
      reads this
      ensures r <==> contents == []
    {
      assert contents != [] ==> contents[0] in linksMap;
      linksMap == map[]
    }

    function Size(): (n: nat)
      requires Valid()
      reads this
      ensures n == |contents|
    {
      NoDupCard(contents);
      |linksMap.Keys|
    }

    /** Adds a value at the back unless it is in the queue already. */
    method Push(value: V) returns (added: bool)
      requires Valid()
      modifies this
      ensures Valid()
      ensures added <==> value !in old(contents)
      ensures contents == if added then old(contents) + [value] else old(contents)
    {
      if value in linksMap {
        return false;
      }
      AppendedLinked(State(), contents, unset, value);
      var wasEmpty := Empty();
      linksMap := linksMap[value := Links(tail, unset)];
      if wasEmpty {
        head := value;
      } else {
        linksMap := linksMap[tail := linksMap[tail].(next := value)];
      }
      tail := value;
      assert State() == Appended(old(State()), value, unset);
      contents := contents + [value];
      added := true;
    }

    /** `None` is the source's exception on an empty queue. */
    function Front(): (r: Option<V>)
      requires Valid()
      reads this
      ensures r == if contents == [] then None else Some(contents[0])
    {
      if Empty() then None else Some(head)
    }

    /** Removes the first value; `ok` is false for the source's exception on an empty queue. */
    method Pop() returns (ok: bool)
      requires Valid()
      modifies this
      ensures Valid()
      ensures ok <==> old(contents) != []
      ensures contents == if ok then old(contents)[1..] else []
    {
      if Empty() {
        return false;
      }
      PoppedIsUnlinked(State(), contents, unset);
      var next := linksMap[head].next;
      linksMap := linksMap - {head};
      head := next;
      if linksMap == map[] {
        tail := unset;
      } else {
        linksMap := linksMap[head := linksMap[head].(prev := unset)];
      }
      contents := contents[1..];
      assert State() == Popped(old(State()), unset);
      ok := true;
    }

    /** Removes a value from wherever it is. */
    method Erase(value: V) returns (existed: bool)
      requires Valid()
      modifies this
      ensures Valid()
      ensures existed <==> value in old(contents)
      ensures contents == Without(old(contents), value)
    {
      if value !in linksMap {
        WithoutAbsent(contents, value);
        return false;
      }
      ghost var k :| 0 <= k < |contents| && contents[k] == value;
      NeighboursExist(State(), contents, unset, k);
      UnlinkedLinked(State(), contents, unset, k);
      var links := linksMap[value];
      var first, last := head == value, tail == value;
      if first {
        head := links.next;
      } else {
        linksMap := linksMap[links.prev := linksMap[links.prev].(next := links.next)];
      }
      if last {
        tail := links.prev;
      } else {
        linksMap := linksMap[links.next := linksMap[links.next].(prev := links.prev)];
      }
      linksMap := linksMap - {value};
      assert State() == Unlinked(old(State()), value);
      contents := Without(contents, value);
      existed := true;
    }
  }

  /** `s` without the occurrences of `v`. */
  function Without<V(==)>(s: seq<V>, v: V): seq<V> {
    if s == [] then []
    else if s[0] == v then Without(s[1..], v)
    else [s[0]] + Without(s[1..], v)
  }

  lemma {:induction false} WithoutAbsent<V>(s: seq<V>, v: V)
    requires v !in s
    ensures Without(s, v) == s
  {
    if s != [] {
      WithoutAbsent(s[1..], v);
    }
  }

  lemma {:induction false} WithoutAt<V>(s: seq<V>, v: V, k: nat)
    requires NoDup(s) && k < |s| && s[k] == v
    ensures Without(s, v) == s[..k] + s[k + 1..]
    ensures NoDup(s[..k] + s[k + 1..]) && Elems(s[..k] + s[k + 1..]) == Elems(s) - {v}
  {
    if k == 0 {
      NoDupTail(s);
      WithoutAbsent(s[1..], v);
    } else {
      NoDupTail(s);
      WithoutAt(s[1..], v, k - 1);
      assert s[..k] == [s[0]] + s[1..][..k - 1] && s[1..][k..] == s[k + 1..];
    }
    assert forall x :: x in s <==> x in s[..k] + s[k + 1..] || x == v by {
      assert s == s[..k] + [v] + s[k + 1..];
    }
  }
}
