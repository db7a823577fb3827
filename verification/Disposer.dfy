/** The disposer's cache of persistent actions: those used most recently stay open. */
module Disposer {
  import opened Common
  import opened HashSetQueue

  /** The identity of an action: its kind and arguments. */
  datatype Action = NoAction | Action(id: nat)

  /** One reified action and whether it is to persist. */
  datatype Use = Use(action: Action, persist: bool)

  /** The last `n` elements, or all if there are fewer. */
  function Last<T>(s: seq<T>, n: nat): seq<T> {
    if |s| <= n then s else s[|s| - n..]
  }

  function Touched(q: seq<Action>, a: Action): seq<Action> {
    Without(q, a) + [a]
  }

  /** The queue after a use. */
  function AfterUse(q: seq<Action>, u: Use, bound: nat): seq<Action> {
    if u.persist then Last(Touched(q, u.action), bound) else q
  }

  /** The queue after all uses, starting from an empty one. */
  function AfterUses(uses: seq<Use>, bound: nat): seq<Action> {
    if uses == [] then []
    else AfterUse(AfterUses(uses[..|uses| - 1], bound), uses[|uses| - 1], bound)
  }

  /** All persistent actions ever used, in order of last use. */
  function ByLastUse(uses: seq<Use>): seq<Action> {
    if uses == [] then []
    else
      var u := uses[|uses| - 1];
      var before := ByLastUse(uses[..|uses| - 1]);
      if u.persist then Touched(before, u.action) else before
  }

  /** Position `i` is the last persistent use of `a`. */
  ghost predicate IsLastUse(uses: seq<Use>, a: Action, i: int) {
    && 0 <= i < |uses| && uses[i] == Use(a, true)
    && forall j :: i < j < |uses| ==> uses[j] != Use(a, true)
  }

  lemma {:induction false} WithoutConcat<T>(s: seq<T>, t: seq<T>, v: T)
    ensures Without(s + t, v) == Without(s, v) + Without(t, v)
  {
    if s == [] {
      assert s + t == t;
    } else {
      assert (s + t)[1..] == s[1..] + t;
      WithoutConcat(s[1..], t, v);
    }
  }

  lemma {:induction false} WithoutKeeps<T>(s: seq<T>, v: T)
    ensures forall x :: x in Without(s, v) <==> x in s && x != v
    ensures NoDup(s) ==> NoDup(Without(s, v))
    ensures NoDup(s) ==> |Without(s, v)| == if v in s then |s| - 1 else |s|
  {
    if s != [] {
      assert s == [s[0]] + s[1..];
      WithoutKeeps(s[1..], v);
      if NoDup(s) {
        NoDupTail(s);
        var r := Without(s[1..], v);
        if s[0] != v {
          assert forall i, j :: 0 <= i < j < |[s[0]] + r| ==> ([s[0]] + r)[i] != ([s[0]] + r)[j];
        }
      }
    }
  }

  /** `ByLastUse` does what its name says: it holds each persistently used action once, and earlier
      positions were last used earlier. */
  lemma {:induction false} ByLastUseMeaning(uses: seq<Use>)
    ensures NoDup(ByLastUse(uses))
    ensures forall a :: a in ByLastUse(uses) <==> Use(a, true) in uses
    ensures forall i, j, m, n ::
              (0 <= i < j < |ByLastUse(uses)|
               && IsLastUse(uses, ByLastUse(uses)[i], m) && IsLastUse(uses, ByLastUse(uses)[j], n))
              ==> m < n
  {
    if uses != [] {
      var k := |uses| - 1;
      var before, u := uses[..k], uses[k];
      ByLastUseMeaning(before);
      assert uses == before + [u];
      var q, r := ByLastUse(before), ByLastUse(uses);
      WithoutKeeps(q, u.action);
      if u.persist {
        NoDupAppend(Without(q, u.action), u.action);
      }
      forall i, j, m, n | 0 <= i < j < |r| && IsLastUse(uses, r[i], m) && IsLastUse(uses, r[j], n)
        ensures m < n
      {
        LastUseBefore(uses, r[i], m);
        LastUseBefore(uses, r[j], n);
        if u.persist {
          assert r[i] in Without(q, u.action);
          if j < |r| - 1 {
            WithoutOrder(q, u.action, i, j);
          }
        }
      }
    }
  }

  lemma LastUseBefore(uses: seq<Use>, a: Action, m: int)
    requires uses != [] && IsLastUse(uses, a, m)
    ensures m < |uses| - 1 ==> IsLastUse(uses[..|uses| - 1], a, m)
    ensures uses[|uses| - 1] == Use(a, true) ==> m == |uses| - 1
  {
  }

  /** `x` occurs before `y` in `s`. */
  ghost predicate Precedes<T>(s: seq<T>, x: T, y: T) {
    exists i, j :: 0 <= i < j < |s| && s[i] == x && s[j] == y
  }

  lemma PrecedesLater<T>(s: seq<T>, x: T, y: T)
    requires s != [] && Precedes(s[1..], x, y)
    ensures Precedes(s, x, y)
  {
    var i, j :| 0 <= i < j < |s[1..]| && s[1..][i] == x && s[1..][j] == y;
    assert s[i + 1] == x && s[j + 1] == y;
  }

  lemma WithoutMember<T>(s: seq<T>, v: T, x: T)
    requires x in Without(s, v)
    ensures x in s
  {
    WithoutKeeps(s, v);
  }

  /** Removal keeps the order of what is left. */
  lemma {:induction false} WithoutOrder<T>(s: seq<T>, v: T, i: nat, j: nat)
    requires i < j < |Without(s, v)|
    ensures Precedes(s, Without(s, v)[i], Without(s, v)[j])
  {
    var r, t := Without(s, v), Without(s[1..], v);
    if s[0] == v {
      WithoutOrder(s[1..], v, i, j);
      PrecedesLater(s, r[i], r[j]);
    } else if i == 0 {
      assert r == [s[0]] + t;
      assert r[j] == t[j - 1] && t[j - 1] in t;
      WithoutMember(s[1..], v, r[j]);
      var j' :| 0 <= j' < |s[1..]| && s[1..][j'] == r[j];
      assert s[0] == r[0] && s[j' + 1] == r[j];
    } else {
      WithoutOrder(s[1..], v, i - 1, j - 1);
      PrecedesLater(s, r[i], r[j]);
    }
  }

  lemma LastOfConcat<T>(s: seq<T>, t: seq<T>, n: nat)
    requires n <= |t|
    ensures Last(s + t, n) == Last(t, n)
  {
  }

  /** Cutting to the bound before a use loses nothing that cutting after it would keep. */
  lemma TouchLast(q: seq<Action>, a: Action, bound: nat)
    requires NoDup(q)
    ensures Last(Touched(Last(q, bound), a), bound) == Last(Touched(q, a), bound)
  {
    if |q| > bound {
      var pre, v := q[..|q| - bound], Last(q, bound);
      assert q == pre + v;
      WithoutConcat(pre, v, a);
      WithoutKeeps(v, a);
      assert Touched(q, a) == Without(pre, a) + Touched(v, a);
      LastOfConcat(Without(pre, a), Touched(v, a), bound);
    }
  }

  /** After any trace of uses the cache holds the most recently used persistent actions, in order of
      last use and as many as the bound allows. */
  lemma {:induction false} CacheIsLru(uses: seq<Use>, bound: nat)
    ensures AfterUses(uses, bound) == Last(ByLastUse(uses), bound)
  {
    if uses != [] {
      var before, u := uses[..|uses| - 1], uses[|uses| - 1];
      CacheIsLru(before, bound);
      ByLastUseMeaning(before);
      if u.persist {
        TouchLast(ByLastUse(before), u.action, bound);
      }
    }
  }

  lemma LastLast<T>(s: seq<T>, n: nat)
    requires n < |s|
    ensures |Last(s, n)| == n
    ensures Last(Last(s, n + 1), n) == Last(s, n)
  {
  }

  lemma LastCapped<T>(s: seq<T>, n: nat, bound: nat)
    requires n == if |s| <= bound then |s| else bound
    ensures Last(s, n) == Last(s, bound)
  {
  }

  lemma LastKeepsEnd<T>(s: seq<T>, n: nat)
    requires n > 0 && s != []
    ensures Last(s, n) != [] && Last(s, n)[|Last(s, n)| - 1] == s[|s| - 1]
  {
  }

  lemma UsedStays(q: seq<Action>, u: Use, bound: nat, held: seq<Action>, n: nat)
    requires u.persist && bound >= 1 && held == AfterUse(q, u, bound)
    ensures |held| > 0
    ensures n > 0 ==> Last(held, n) != [] && Last(held, n)[|Last(held, n)| - 1] == u.action
  {
    LastKeepsEnd(Touched(q, u.action), bound);
    if n > 0 {
      LastKeepsEnd(held, n);
    }
  }

  lemma TouchedIsQueue(q: seq<Action>, a: Action)
    requires NoDup(q)
    ensures NoDup(Touched(q, a)) && Elems(Touched(q, a)) == Elems(q) + {a}
    ensures |Elems(Touched(q, a))| == |Touched(q, a)|
    ensures a !in q ==> Without(q, a) == q
    ensures a in q ==> Elems(Touched(q, a)) == Elems(q)
    ensures a !in Without(q, a)
  {
    WithoutKeeps(q, a);
    NoDupAppend(Without(q, a), a);
    NoDupCard(Touched(q, a));
    if a !in q {
      WithoutAbsent(q, a);
    }
  }

  class Disposer {
    const maxPersistent: i32
    var actionSet: set<Action>
    const actionQueue: HashSetQueue<Action>

    ghost predicate Valid()
      reads this, actionQueue
    {
      && actionQueue.Valid()
      && actionSet == Elems(actionQueue.contents)
      && |actionSet| == |actionQueue.contents|
    }

    constructor (maxPersistent: i32)
      ensures Valid() && actionQueue.contents == [] && this.maxPersistent == maxPersistent && fresh(actionQueue)
    {
      this.maxPersistent := maxPersistent;
      actionQueue := new HashSetQueue<Action>(NoAction);
      actionSet := {};
    }

    /** Gives up the least recently used action; what is left of any queue `was` that the present
        one is the end of is one shorter. */
    method EraseLru(ghost was: seq<Action>)
      requires Valid() && actionQueue.contents != []
      requires |actionQueue.contents| <= |was| && actionQueue.contents == Last(was, |actionQueue.contents|)
      modifies this, actionQueue
      ensures Valid() && |actionQueue.contents| == |old(actionQueue.contents)| - 1
      ensures actionQueue.contents == Last(was, |actionQueue.contents|)
    {
      LastLast(was, |actionQueue.contents| - 1);
      var lru := actionQueue.Front();
      NoDupTail(actionQueue.contents);
      NoDupCard(actionQueue.contents[1..]);
      actionSet := actionSet - {lru.value};
      var ok := actionQueue.Pop();
    }

    /** Makes an action the last one of the queue. */
    method Touch(action: Action)
      requires Valid()
      modifies this, actionQueue
      ensures Valid() && actionQueue.contents == Touched(old(actionQueue.contents), action)
    {
      ghost var q := actionQueue.contents;
      TouchedIsQueue(q, action);
      if action in actionSet {
        var existed := actionQueue.Erase(action);
      } else {
        actionSet := actionSet + {action};
      }
      assert actionSet == Elems(Touched(q, action));
      var added := actionQueue.Push(action);
      assert actionQueue.contents == Touched(q, action);
    }

    /** Gives up the least recently used actions until there are no more than the bound. */
    method Evict()
      requires Valid()
      modifies this, actionQueue
      ensures Valid() && actionQueue.contents == Last(old(actionQueue.contents), ToSize(maxPersistent))
      ensures maxPersistent >= 0 ==> actionQueue.contents == Last(old(actionQueue.contents), maxPersistent)
    {
      ghost var q, n := actionQueue.contents, |actionSet|;
      var bound := ToSize(maxPersistent);
      while |actionSet| > bound
        invariant Valid() && |actionSet| == n <= |q|
        invariant actionQueue.contents == Last(q, n)
        invariant n == |q| || n >= bound
        decreases n
      {
        EraseLru(q);
        n := n - 1;
      }
      LastCapped(q, n, bound);
    }

    /** The action to use; afterwards it is in the cache if it persists and the bound is positive. */
    method GetAction(u: Use) returns (action: Action)
      requires Valid()
      modifies this, actionQueue
      ensures Valid() && action == u.action
      ensures actionQueue.contents == AfterUse(old(actionQueue.contents), u, ToSize(maxPersistent))
    {
      action := u.action;
      if u.persist {
        Touch(action);
        Evict();
      }
    }

    /** Performs an action that succeeds on its `tries`-th attempt, counted from zero, or never.
        While it fails for lack of resources, the least recently used actions are given up, except
        for the last one. */
    method Process(tries: Option<nat>) returns (success: bool)
      requires Valid()
      modifies this, actionQueue
      ensures Valid()
      ensures success <==> tries.Some? && (tries.value == 0 || tries.value < |old(actionQueue.contents)|)
      ensures actionQueue.contents == Last(old(actionQueue.contents), |actionQueue.contents|)
      ensures |actionQueue.contents| ==
                if success then |old(actionQueue.contents)| - tries.value
                else if |old(actionQueue.contents)| == 0 then 0 else 1
    {
      ghost var q, n := actionQueue.contents, |actionQueue.contents|;
      var failures := 0;
      success := tries == Some(failures);
      var more := HasMoreThanOne();
      while !success && more
        invariant Valid() && |actionQueue.contents| == n && n + failures == |q|
        invariant actionQueue.contents == Last(q, n)
        invariant (failures == 0 || n > 0) && (more <==> n > 1)
        invariant success <==> tries == Some(failures)
        invariant tries.Some? ==> failures <= tries.value
        decreases n
      {
        EraseLru(q);
        failures, n := failures + 1, n - 1;
        success := tries == Some(failures);
        more := HasMoreThanOne();
      }
    }

    method HasMoreThanOne() returns (more: bool)
      requires Valid()
      ensures more <==> |actionQueue.contents| > 1
    {
      more := actionQueue.Size() > 1;
    }

    /** Gets and performs an action: while it is performed, a persistent action is never given up
        when the bound allows one. */
    method Dispose(u: Use, tries: Option<nat>) returns (success: bool)
      requires Valid()
      modifies this, actionQueue
      ensures Valid()
      ensures u.persist && maxPersistent >= 1 ==>
                actionQueue.contents != [] && actionQueue.contents[|actionQueue.contents| - 1] == u.action
    {
      ghost var q := actionQueue.contents;
      var action := GetAction(u);
      ghost var held := actionQueue.contents;
      success := Process(tries);
      if u.persist && maxPersistent >= 1 {
        UsedStays(q, u, maxPersistent, held, |actionQueue.contents|);
      }
    }

    /** All uses of a trace, one after the other. A negative bound is none for as many actions as there
        can be. */
    method UseAll(uses: seq<Use>)
      requires Valid() && actionQueue.contents == []
      modifies this, actionQueue
      ensures Valid()
      ensures actionQueue.contents == Last(ByLastUse(uses), ToSize(maxPersistent))
      ensures maxPersistent >= 0 ==> actionQueue.contents == Last(ByLastUse(uses), maxPersistent)
      ensures maxPersistent < 0 && |ByLastUse(uses)| < 0x8000_0000_0000_0000 ==>
                actionQueue.contents == ByLastUse(uses)
    {
      for i := 0 to |uses|
        invariant Valid() && actionQueue.contents == AfterUses(uses[..i], ToSize(maxPersistent))
      {
        var action := GetAction(uses[i]);
        assert uses[..i + 1][..i] == uses[..i];
      }
      assert uses[..|uses|] == uses;
      CacheIsLru(uses, ToSize(maxPersistent));
    }
  }
}
