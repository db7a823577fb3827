/** The queue of unanswered requests that a subscriber's peer keeps: a linked list threaded
    through a hash table, with the unset request as its end marker. */
module RequestQueue {
  import opened Common

  datatype DataSegId = DataSegId(prodId: u64, offset: u32)

  /** Tagged union of the identifiers that can be requested. */
  datatype Request = Unset | Prod(prodId: u64) | Seg(segId: DataSegId)

  /** The three variables of the queue. */
  datatype Links = Links(next: map<Request, Request>, head: Request, tail: Request)

  /** `l` is a singly linked, null-terminated list of the distinct requests `s`. */
  ghost predicate Represents(l: Links, s: seq<Request>) {
    && NoDup(s)
    && Unset !in s
    && l.next.Keys == Elems(s)
    && l.head == (if s == [] then Unset else s[0])
    && l.tail == (if s == [] then Unset else s[|s| - 1])
    && forall i {:trigger l.next[s[i]]} :: 0 <= i < |s| ==>
         s[i] in l.next && l.next[s[i]] == if i + 1 < |s| then s[i + 1] else Unset
  }

  /** The effect of the assignments in `push`. An existing entry is not replaced by `emplace`. */
  function Pushed(l: Links, r: Request): Links {
    var emplaced := if r in l.next then l.next else l.next[r := Unset];
    var linked := if l.tail != Unset then emplaced[l.tail := r] else emplaced;
    Links(linked, if l.head == Unset then r else l.head, r)
  }

  /** A list has one reading only. */
  lemma {:induction false} RepresentsUnique(l: Links, s: seq<Request>, t: seq<Request>)
    requires Represents(l, s) && Represents(l, t)
    ensures s == t
  {
    NoDupCard(s);
    NoDupCard(t);
    var i := 0;
    while i < |s|
      invariant 0 <= i <= |s|
      invariant s[..i] == t[..i]
    {
      if i > 0 {
        assert s[i - 1] == t[i - 1] by { assert s[..i][i - 1] == t[..i][i - 1]; }
        assert l.next[s[i - 1]] == s[i];
        assert l.next[t[i - 1]] == t[i];
      }
      assert s[..i + 1] == s[..i] + [s[i]] && t[..i + 1] == t[..i] + [t[i]];
      i := i + 1;
    }
  }

  lemma LastLinksNowhere(l: Links, s: seq<Request>)
    requires Represents(l, s) && l.tail != Unset
    ensures l.tail in l.next && l.next[l.tail] == Unset
  {
    assert s[|s| - 1] in l.next;
  }

  lemma RepeatedPushLinksOn(l: Links, s: seq<Request>, r: Request)
    requires Represents(l, s) && r in s
    ensures Pushed(l, r).tail == r && r in Pushed(l, r).next && Pushed(l, r).next[r] != Unset
  {
    var i :| 0 <= i < |s| && s[i] == r;
    if i + 1 < |s| {
      assert l.next[s[i]] == s[i + 1];
    }
  }

  /** Pushing keeps the structure a list if and only if the request is absent; then it appends. */
  lemma PushKeepsListIffAbsent(l: Links, s: seq<Request>, r: Request)
    requires Represents(l, s) && r != Unset
    ensures r !in s ==> Represents(Pushed(l, r), s + [r])
    ensures r in s ==> !exists t :: Represents(Pushed(l, r), t)
  {
    var p := Pushed(l, r);
    if r !in s {
      NoDupAppend(s, r);
      var t := s + [r];
      forall i | 0 <= i < |t|
        ensures t[i] in p.next && p.next[t[i]] == if i + 1 < |t| then t[i + 1] else Unset
      {
        if i < |s| {
          assert t[i] == s[i];
        }
      }
    } else {
      RepeatedPushLinksOn(l, s, r);
      forall t
        ensures !Represents(p, t)
      {
        if Represents(p, t) {
          LastLinksNowhere(p, t);
        }
      }
    }
  }

  /** The request that `n` link steps reach from the head. */
  function Walk(l: Links, n: nat): Request {
    if n == 0 then l.head
    else
      var r := Walk(l, n - 1);
      if r in l.next then l.next[r] else Unset
  }

  /** A repeated push closes a cycle: a loop that follows links until the end marker, as the one
      that drains the queue does, never sees it. */
  lemma {:induction false} RepeatedPushNeverDrains(l: Links, s: seq<Request>, r: Request, n: nat)
    requires Represents(l, s) && r in s
    ensures Walk(Pushed(l, r), n) != Unset && Walk(Pushed(l, r), n) in s
  {
    var p := Pushed(l, r);
    if n == 0 {
      assert s[0] in s;
    } else {
      RepeatedPushNeverDrains(l, s, r, n - 1);
      var x := Walk(p, n - 1);
      var i :| 0 <= i < |s| && s[i] == x;
      assert s[|s| - 1] in l.next;
      if i + 1 < |s| {
        assert s[i] != s[|s| - 1];
        assert p.next[x] == l.next[x] == s[i + 1];
      } else {
        assert p.next[x] == r;
      }
    }
  }

  /** After a push of an absent request the same walk visits each request once, in order, and
      then stops. */
  lemma {:induction false} WalkVisits(l: Links, s: seq<Request>, n: nat)
    requires Represents(l, s) && n <= |s|
    ensures Walk(l, n) == if n < |s| then s[n] else Unset
  {
    if n > 0 {
      WalkVisits(l, s, n - 1);
    }
  }

  class RequestQ {
    var requests: map<Request, Request>
    var head: Request
    var tail: Request
    /** The requests in the order in which they were pushed. */
    ghost var contents: seq<Request>

    function State(): Links
      reads this
    {
      Links(requests, head, tail)
    }

    ghost predicate Valid()
      reads this
    {
      Represents(State(), contents)
    }

    constructor ()
      ensures Valid() && contents == []
    {
      requests, head, tail, contents := map[], Unset, Unset, [];
    }

    method Push(request: Request) returns (n: nat)
      requires Valid() && request != Unset
      modifies this
      ensures request !in old(contents) ==>
                Valid() && contents == old(contents) + [request] && n == |contents|
      ensures request in old(contents) ==>
                contents == old(contents) && !exists t :: Represents(State(), t)
    {
      PushKeepsListIffAbsent(State(), contents, request);
      if request !in requests {
        requests := requests[request := Unset];
      }
      if tail != Unset {
        requests := requests[tail := request];
      }
      if head == Unset {
        head := request;
      }
      tail := request;
      assert State() == Pushed(old(State()), request);
      n := |requests|;
      if request !in contents {
        contents := contents + [request];
        NoDupCard(contents);
        assert |requests.Keys| == |requests|;
      }
    }

    /** Number of entries for a request: zero or one. */
    function Count(request: Request): (n: nat)
      requires Valid()
      reads this
      ensures n == if request in contents then 1 else 0
    {
      if request in requests then 1 else 0
    }

    /** Removes the head. On an empty queue the lookup of the unset head inserts an entry that is
        erased at once, so that the unset request is returned and nothing changes. */
    method RemoveHead() returns (oldHead: Request)
      requires Valid()
      modifies this
      ensures Valid()
      ensures old(contents) == [] ==> oldHead == Unset && contents == []
      ensures old(contents) != [] ==>
                oldHead != Unset && old(contents) == [oldHead] + contents
    {
      oldHead := head;
      if head !in requests {
        requests := requests[head := Unset];
      }
      var newHead := requests[head];
      requests := requests - {head};
      head := newHead;
      if head == Unset {
        tail := head;
      }
      if contents != [] {
        NoDupTail(contents);
        contents := contents[1..];
        assert forall i :: 0 <= i < |contents| ==> contents[i] == old(contents)[i + 1];
      }
    }
  }

  /** A call that the subscriber's manager received from a peer. */
  datatype Call = Missed(request: Request) | Received(request: Request)

  /** The calls, followed by reports of the first `n` requests of `s` as missed, in order. */
  function AndMisses(calls: seq<Call>, s: seq<Request>, n: nat): (r: seq<Call>)
    requires n <= |s|
    ensures |r| == |calls| + n && calls <= r
    ensures forall i :: 0 <= i < n ==> r[|calls| + i] == Missed(s[i])
  {
    if n == 0 then calls else AndMisses(calls, s, n - 1) + [Missed(s[n - 1])]
  }

  /** The subscriber's manager as a peer sees it: the calls it received, in order. Reporting some
      requests as missed throws, and so may receiving a datum; both calls count as received. */
  class SubMgr {
    const throwing: set<Request>
    const dataThrows: bool
    var calls: seq<Call>

    constructor (throwing: set<Request>, dataThrows: bool)
      ensures calls == [] && this.throwing == throwing && this.dataThrows == dataThrows
    {
      this.throwing, this.dataThrows, calls := throwing, dataThrows, [];
    }

    method OnMissed(request: Request) returns (ok: bool)
      modifies this
      ensures calls == old(calls) + [Missed(request)]
      ensures ok <==> request !in throwing
    {
      calls := calls + [Missed(request)];
      ok := request !in throwing;
    }

    method OnReceived(request: Request) returns (ok: bool)
      modifies this
      ensures calls == old(calls) + [Received(request)]
      ensures ok <==> !dataThrows
    {
      calls := calls + [Received(request)];
      ok := !dataThrows;
    }
  }

  /** How the processing of a datum ends: it was not requested; reporting an earlier request threw;
      delivering the datum threw; or all went well. Only the last one is not an exception. */
  datatype Outcome = NotRequested | MissThrew | DataThrew | Processed

  lemma PlaceOf(s: seq<Request>, r: Request) returns (p: nat)
    requires NoDup(s) && r in s
    ensures p < |s| && s[p] == r && s[0..] == s
    ensures forall i {:trigger s[i]} :: 0 <= i < |s| && s[i] == r ==> i == p
  {
    p :| 0 <= p < |s| && s[p] == r;
  }

  lemma HeadAndRest(s: seq<Request>, n: nat, head: Request, rest: seq<Request>)
    requires n < |s| && s[n..] == [head] + rest
    ensures head == s[n] && rest == s[n + 1..]
  {
    assert head == s[n..][0] && rest == s[n..][1..];
  }

  /** A subscriber's peer, reduced to its queue of unanswered requests. */
  class SubPeer {
    const subMgr: SubMgr
    const requested: RequestQ

    constructor (subMgr: SubMgr)
      ensures this.subMgr == subMgr && fresh(requested)
      ensures requested.Valid() && requested.contents == []
    {
      this.subMgr := subMgr;
      requested := new RequestQ();
    }

    /** Removes the head of what is left of the queue `was` after its first `n` requests. */
    method TakeHead(ghost was: seq<Request>, ghost n: nat) returns (head: Request)
      requires requested.Valid() && n < |was| && requested.contents == was[n..]
      modifies requested
      ensures requested.Valid() && head == was[n] && head != Unset && requested.contents == was[n + 1..]
    {
      head := requested.RemoveHead();
      HeadAndRest(was, n, head, requested.contents);
    }

    /** Handles a datum from the remote peer. If its request is the one with index `p`, then those
        before it are reported as missed, in order, the datum is delivered once, and those after it
        stay; unless reporting the one with index `n`, the first for which that throws, puts an end to
        it: then all later ones stay. */
    method ProcessDatum(request: Request) returns (outcome: Outcome, ghost p: nat, ghost n: nat)
      requires requested.Valid() && request != Unset
      modifies requested, subMgr
      ensures requested.Valid()
      ensures outcome == NotRequested <==> request !in old(requested.contents)
      ensures outcome == NotRequested ==>
                requested.contents == old(requested.contents) && subMgr.calls == old(subMgr.calls)
      ensures outcome != NotRequested ==>
                && n <= p < |old(requested.contents)| && old(requested.contents)[p] == request
                && (forall i :: 0 <= i < n ==> old(requested.contents)[i] !in subMgr.throwing)
                && requested.contents == old(requested.contents)[n + 1..]
      ensures outcome == MissThrew ==>
                && n < p && old(requested.contents)[n] in subMgr.throwing
                && subMgr.calls == AndMisses(old(subMgr.calls), old(requested.contents), n + 1)
      ensures outcome == DataThrew || outcome == Processed ==>
                && n == p && (outcome == DataThrew <==> subMgr.dataThrows)
                && subMgr.calls == AndMisses(old(subMgr.calls), old(requested.contents), p) + [Received(request)]
    {
      p, n := 0, 0;
      if requested.Count(request) == 0 {
        return NotRequested, p, n;
      }
      p := PlaceOf(requested.contents, request);
      outcome, n := Search(request, requested.contents, p);
    }

    /** The loop of it, over the queue `was`. */
    method Search(request: Request, ghost was: seq<Request>, ghost p: nat) returns (outcome: Outcome, ghost n: nat)
      requires requested.Valid() && requested.contents == was && was[0..] == was
      requires p < |was| && was[p] == request
      requires forall i {:trigger was[i]} :: 0 <= i < |was| && was[i] == request ==> i == p
      modifies requested, subMgr
      ensures requested.Valid() && outcome != NotRequested && n <= p && requested.contents == was[n + 1..]
      ensures forall i :: 0 <= i < n ==> was[i] !in subMgr.throwing
      ensures if outcome == MissThrew
              then n < p && was[n] in subMgr.throwing && subMgr.calls == AndMisses(old(subMgr.calls), was, n + 1)
              else
                && n == p && (outcome == DataThrew <==> subMgr.dataThrows)
                && subMgr.calls == AndMisses(old(subMgr.calls), was, p) + [Received(request)]
    {
      ghost var log := subMgr.calls;
      n := 0;
      var head := TakeHead(was, 0);
      while head != Unset
        invariant requested.Valid() && n <= p
        invariant head != Unset && head == was[n] && requested.contents == was[n + 1..]
        invariant forall i :: 0 <= i < n ==> was[i] !in subMgr.throwing
        invariant subMgr.calls == AndMisses(log, was, n)
        decreases |was| - n
      {
        if head == request {
          var received := subMgr.OnReceived(request);
          return if received then Processed else DataThrew, n;
        }
        var reported := subMgr.OnMissed(head);
        if !reported {
          return MissThrew, n;
        }
        n := n + 1;
        head := TakeHead(was, n);
      }
      assert false;
    }

    /** Reports every request, oldest first, and clears the queue. If reporting throws (`ok` is false)
        at the request with index `n`, then the table is not cleared although the head has moved: what
        is left is a list only if it was the first request. */
    method DrainPending() returns (ok: bool, ghost n: nat)
      requires requested.Valid()
      modifies requested, subMgr
      ensures n <= |old(requested.contents)| && (ok <==> n == |old(requested.contents)|)
      ensures forall i :: 0 <= i < n ==> old(requested.contents)[i] !in subMgr.throwing
      ensures ok ==> requested.Valid() && requested.contents == []
      ensures ok ==> subMgr.calls == AndMisses(old(subMgr.calls), old(requested.contents), n)
      ensures !ok ==>
                && old(requested.contents)[n] in subMgr.throwing
                && subMgr.calls == AndMisses(old(subMgr.calls), old(requested.contents), n + 1)
                && requested.State() == old(requested.State()).(head := old(requested.contents)[n])
                && (requested.Valid() <==> n == 0)
    {
      ghost var was, log := requested.contents, subMgr.calls;
      n := 0;
      while requested.head != Unset
        invariant n <= |was|
        invariant requested.requests == old(requested.requests) && requested.tail == old(requested.tail)
        invariant requested.contents == was
        invariant requested.head == if n < |was| then was[n] else Unset
        invariant forall i :: 0 <= i < n ==> was[i] !in subMgr.throwing
        invariant subMgr.calls == AndMisses(log, was, n)
        decreases |was| - n
      {
        var reported := subMgr.OnMissed(requested.head);
        if !reported {
          return false, n;
        }
        requested.head := requested.requests[requested.head];
        n := n + 1;
      }
      requested.requests := map[];
      requested.tail := requested.head;
      requested.contents := [];
      ok := true;
    }
  }
}
