/** The objects behind the life of a request: the subscriber's manager with its bookkeeper and the
    linked queues of its peers, and how the transition system describes their calls. */
module RequestMgr {
  import opened Common
  import opened Address
  import opened RequestQueue
  import opened Bookkeeper
  import opened RequestLifecycle

  /** What the objects hold: the queues of unanswered requests, the candidates, and the data. */
  datatype View = View(queues: map<SockAddr, seq<Request>>, index: Index, have: set<Request>, stopping: bool)

  function ViewOf(s: State): View {
    View(map a | a in s.peers :: s.peers[a].queue, s.index, s.have, s.stopping)
  }

  // The calls

  /** A peer asks about a datum: whether it is to request it. */
  function Noticed(v: View, a: SockAddr, d: Request): (bool, View) {
    if a !in v.queues then (false, v)
    else
      var (should, index) := ShouldRequest(v.index, a, d);
      (should, v.(index := index))
  }

  function PushedAt(v: View, a: SockAddr, d: Request): View
    requires a in v.queues
  {
    v.(queues := v.queues[a := v.queues[a] + [d]])
  }

  function PoppedAt(v: View, a: SockAddr): View
    requires a in v.queues
  {
    if v.queues[a] == [] then v else v.(queues := v.queues[a := v.queues[a][1..]])
  }

  /** The candidate to which a missed request moves; it might have been removed. */
  function Alternative(v: View, a: SockAddr, d: Request): Option<SockAddr> {
    if v.stopping || a !in v.queues then None else AltPeer(v.index, a, d).0
  }

  function Reassigned(v: View, a: SockAddr, d: Request): View {
    if v.stopping || a !in v.queues then v
    else
      var (alt, index) := AltPeer(v.index, a, d);
      var v1 := v.(index := index);
      if alt.Some? && alt.value in v.queues then PushedAt(v1, alt.value, d) else v1
  }

  predicate Expected(v: View, a: SockAddr, d: Request) {
    !v.stopping && a in v.queues && d in v.index && a in v.index[d].members
  }

  predicate AllKnown(v: View, order: seq<SockAddr>) {
    forall b :: b in order ==> b in v.queues
  }

  function Forgotten(v: View, d: Request): View
    requires d in v.index
  {
    if AllKnown(v, v.index[d].order) then v.(index := v.index - {d}) else v
  }

  /** Unless saving throws, the datum is saved and, unless something else throws, its candidates are
      forgotten. */
  function Saved(v: View, d: Request, fault: Fault): View
    requires d in v.index
  {
    if fault == SaveThrows then v
    else
      var saved := v.(have := v.have + {d});
      if fault == NotifyThrows then saved else Forgotten(saved, d)
  }

  /** A datum arrives. */
  function Delivered(v: View, a: SockAddr, d: Request, fault: Fault): View {
    if Expected(v, a, d) then Saved(v, d, fault) else v
  }

  lemma PopFact(s: seq<Request>, head: Request, rest: seq<Request>)
    requires s == [head] + rest
    ensures s != [] && s[0] == head && s[1..] == rest
  {
  }

  // The steps of the transition system are these calls

  lemma NoticedSimulates(s: State, a: SockAddr)
    requires Enabled(s, AskManager(a))
    ensures var d, s' := s.peers[a].notice.d, Apply(s, AskManager(a));
      && ViewOf(s') == Noticed(ViewOf(s), a, d).1
      && (Noticed(ViewOf(s), a, d).0 <==> s'.peers[a].notice == Granted(d))
  {
    var s' := Apply(s, AskManager(a));
    assert ViewOf(s').queues == ViewOf(s).queues;
  }

  /** A granted request is pushed; in a reachable state the queue lacks it. */
  lemma PushSimulates(s: State, a: SockAddr)
    requires Reachable(s) && Enabled(s, Own(a, PushGranted))
    ensures var d, v := s.peers[a].notice.d, ViewOf(s);
      ViewOf(Apply(s, Own(a, PushGranted))) == PushedAt(v, a, d) && d !in v.queues[a]
  {
    ReachableInv(s);
    assert Distinct(s.peers[a]);
    assert ViewOf(Apply(s, Own(a, PushGranted))).queues == PushedAt(ViewOf(s), a, s.peers[a].notice.d).queues;
  }

  lemma PopSimulates(s: State, a: SockAddr)
    requires Enabled(s, Own(a, TakeHead))
    ensures ViewOf(Apply(s, Own(a, TakeHead))) == PoppedAt(ViewOf(s), a)
  {
    assert ViewOf(Apply(s, Own(a, TakeHead))).queues == PoppedAt(ViewOf(s), a).queues;
  }

  /** A miss that leads nowhere is one step. */
  lemma GiveUpSimulates(s: State, a: SockAddr)
    requires Enabled(s, ReportMissed(a)) && Apply(s, ReportMissed(a)).pending.None?
    ensures var d, v := s.peers[a].activity.d, ViewOf(s);
      ViewOf(Apply(s, ReportMissed(a))) == Reassigned(v, a, d)
      && (Alternative(v, a, d).Some? ==> Alternative(v, a, d).value !in v.queues)
  {
    assert ViewOf(Apply(s, ReportMissed(a))).queues == ViewOf(s).queues;
  }

  lemma PendingSimulates(s: State, sendThrows: bool)
    requires Reachable(s) && Enabled(s, PushPending(sendThrows))
    ensures var p, v := s.pending.value, ViewOf(s);
      ViewOf(Apply(s, PushPending(sendThrows))) == PushedAt(v, p.alt, p.d) && p.d !in v.queues[p.alt]
  {
    ReachableInv(s);
    assert ViewOf(Apply(s, PushPending(sendThrows))).queues ==
           PushedAt(ViewOf(s), s.pending.value.alt, s.pending.value.d).queues;
  }

  lemma ReassignBegins(s: State, a: SockAddr)
    requires Enabled(s, ReportMissed(a)) && Apply(s, ReportMissed(a)).pending.Some?
    ensures var d, s1 := s.peers[a].activity.d, Apply(s, ReportMissed(a));
      && s1.pending.value.d == d && Alternative(ViewOf(s), a, d) == Some(s1.pending.value.alt)
      && ViewOf(s1) == ViewOf(s).(index := AltPeer(s.index, a, d).1)
  {
    assert ViewOf(Apply(s, ReportMissed(a))).queues == ViewOf(s).queues;
  }

  /** A miss that finds another candidate is two steps, once that candidate's lock is free; in a
      reachable state its queue lacks the request. Whether sending the request throws makes no
      difference to what the objects hold. */
  lemma MissSimulates(s: State, a: SockAddr, sendThrows: bool)
    requires Reachable(s) && Enabled(s, ReportMissed(a))
    requires var s1 := Apply(s, ReportMissed(a)); s1.pending.Some? && Enabled(s1, PushPending(sendThrows))
    ensures var d, v := s.peers[a].activity.d, ViewOf(s);
      ViewOf(Apply(Apply(s, ReportMissed(a)), PushPending(sendThrows))) == Reassigned(v, a, d)
      && Alternative(v, a, d).Some? && Alternative(v, a, d).value in v.queues
      && d !in v.queues[Alternative(v, a, d).value]
  {
    Extend(s, ReportMissed(a));
    ReassignBegins(s, a);
    PendingSimulates(Apply(s, ReportMissed(a)), sendThrows);
  }

  /** A delivery, which in a reachable state answers a request that is expected. */
  lemma DeliverSimulates(s: State, a: SockAddr, fault: Fault)
    requires Reachable(s) && Enabled(s, Deliver(a, fault))
    ensures var d, v := s.peers[a].activity.d, ViewOf(s);
      ViewOf(Apply(s, Deliver(a, fault))) == Delivered(v, a, d, fault)
      && (!s.stopping ==> Expected(v, a, d))
  {
    AnswersAreExpected(s, a);
    assert ViewOf(Apply(s, Deliver(a, fault))).queues == ViewOf(s).queues;
  }

  // The objects

  class SubP2pMgr {
    const bookkeeper: SubBookkeeper
    var queues: map<SockAddr, RequestQ>
    var have: set<Request>
    var stopping: bool
    /** The contents of the queues. */
    ghost var contents: map<SockAddr, seq<Request>>

    ghost predicate QueuesValid()
      reads this`queues, this`contents, queues.Values
    {
      && queues.Keys == contents.Keys
      && (forall a, b :: a in queues && b in queues && a != b ==> queues[a] != queues[b])
      && (forall a {:trigger queues[a].Valid()} :: a in queues ==> queues[a].Valid())
      && (forall a {:trigger queues[a].contents} :: a in queues ==> queues[a].contents == contents[a])
    }

    ghost predicate BooksValid()
      reads this`contents, bookkeeper
    {
      && bookkeeper.peerToInfo.Keys == contents.Keys
      && (forall a :: a in bookkeeper.peerToInfo ==> bookkeeper.peerToInfo[a].notices == {})
    }

    ghost predicate Valid()
      reads this, bookkeeper, queues.Values
    {
      QueuesValid() && BooksValid()
    }

    ghost function Value(): View
      reads this, bookkeeper
    {
      View(contents, bookkeeper.noticeToPeers, have, stopping)
    }

    constructor ()
      ensures Valid() && Value() == ViewOf(INIT) && fresh(bookkeeper)
    {
      bookkeeper := new SubBookkeeper();
      queues, have, stopping, contents := map[], {}, false, map[];
    }

    /** A new peer. If another one has its address, then it takes that one's place, and the
        bookkeeper's refusal (`added` is false) fails an assertion. */
    method AddPeer(a: SockAddr) returns (added: bool)
      requires Valid()
      modifies this, bookkeeper
      ensures Valid() && Value() == old(Value()).(queues := old(Value()).queues[a := []])
      ensures added <==> a !in old(queues)
    {
      added := bookkeeper.Add(a, true);
      var q := new RequestQ();
      Install(a, q);
    }

    method Install(a: SockAddr, q: RequestQ)
      requires QueuesValid() && q.Valid() && q.contents == [] && q !in queues.Values
      modifies this`queues, this`contents
      ensures QueuesValid() && queues == old(queues)[a := q] && contents == old(contents)[a := []]
    {
      queues, contents := queues[a := q], contents[a := []];
    }

    /** Removes a peer, which the candidate lists go on naming. */
    method RemovePeer(a: SockAddr)
      requires Valid()
      modifies this, bookkeeper
      ensures Valid() && Value() == old(Value()).(queues := old(Value()).queues - {a})
    {
      var existed := bookkeeper.ErasePeer(a);
      queues, contents := queues - {a}, contents - {a};
    }

    method RecvNotice(a: SockAddr, d: Request) returns (grant: bool)
      requires Valid()
      modifies bookkeeper
      ensures Valid() && (grant, Value()) == Noticed(old(Value()), a, d)
      ensures grant <==> a in queues && d !in old(bookkeeper.noticeToPeers)
      ensures a !in queues ==> Value() == old(Value())
      ensures a in queues ==> d in bookkeeper.noticeToPeers && a in bookkeeper.noticeToPeers[d].members
      ensures a in queues && d in old(bookkeeper.noticeToPeers) ==>
                var was := old(bookkeeper.noticeToPeers)[d];
                bookkeeper.noticeToPeers[d].order ==
                  if a in was.members then was.order else was.order + [a]
    {
      grant := false;
      if a in queues {
        var should := bookkeeper.RequestOnNotice(a, d);
        grant := should.value;
      }
    }

    method PushRequest(a: SockAddr, d: Request)
      requires Valid() && a in queues && d != Unset && d !in contents[a]
      modifies this`contents, queues[a]
      ensures Valid() && Value() == PushedAt(old(Value()), a, d)
    {
      var n := queues[a].Push(d);
      contents := contents[a := contents[a] + [d]];
    }

    method TakeOldest(a: SockAddr) returns (head: Request)
      requires Valid() && a in queues
      modifies this`contents, queues[a]
      ensures Valid() && Value() == PoppedAt(old(Value()), a)
      ensures head == if old(contents)[a] == [] then Unset else old(contents)[a][0]
    {
      head := queues[a].RemoveHead();
      if contents[a] != [] {
        PopFact(contents[a], head, queues[a].contents);
        contents := contents[a := contents[a][1..]];
      }
    }

    /** `threw` is the exception about a candidate that was removed, or that of sending the request to
        the candidate's remote peer. */
    method MissedBy(a: SockAddr, d: Request, sendThrows: bool) returns (threw: bool)
      requires Valid() && d != Unset
      requires forall alt :: Alternative(Value(), a, d) == Some(alt) && alt in contents ==> d !in contents[alt]
      modifies this`contents, bookkeeper, queues.Values
      ensures Valid() && Value() == Reassigned(old(Value()), a, d)
      ensures threw <==>
                var alt := Alternative(old(Value()), a, d);
                alt.Some? && (sendThrows || alt.value !in contents)
    {
      threw := false;
      if !stopping && a in queues {
        var alt := bookkeeper.GetAltPeer(a, d);
        if alt.Some? {
          threw := sendThrows;
          if alt.value in queues {
            PushRequest(alt.value, d);
          } else {
            threw := true;
          }
        }
      }
    }

    /** Forgets the candidates for a datum, unless one of them has been removed. */
    method ForgetDatum(d: Request) returns (done: bool)
      requires BooksValid() && d in bookkeeper.noticeToPeers
      modifies bookkeeper
      ensures BooksValid() && Value() == Forgotten(old(Value()), d)
      ensures done <==> AllKnown(old(Value()), old(Value()).index[d].order)
    {
      done := bookkeeper.EraseDatum(d);
    }

    method Credit(a: SockAddr, d: Request) returns (expected: bool)
      requires BooksValid() && a in contents
      modifies bookkeeper`peerToInfo
      ensures BooksValid()
      ensures expected <==> d in bookkeeper.noticeToPeers && a in bookkeeper.noticeToPeers[d].members
    {
      var received := bookkeeper.Received(a, d);
      expected := received.value;
    }

    /** `threw` is the exception of saving, of notifying, or about a candidate that was removed. */
    method RecvData(a: SockAddr, d: Request, fault: Fault) returns (expected: bool, threw: bool)
      requires Valid()
      modifies this`have, bookkeeper
      ensures Valid() && Value() == Delivered(old(Value()), a, d, fault)
      ensures expected <==> Expected(old(Value()), a, d)
      ensures threw <==>
                expected && (fault != NoFault || !AllKnown(old(Value()), old(Value()).index[d].order))
    {
      expected, threw := false, false;
      if !stopping && a in queues {
        expected := Credit(a, d);
        if expected {
          threw := Save(d, fault);
        }
      }
    }

    method Save(d: Request, fault: Fault) returns (threw: bool)
      requires BooksValid() && d in bookkeeper.noticeToPeers
      modifies this`have, bookkeeper
      ensures BooksValid() && Value() == Saved(old(Value()), d, fault)
      ensures threw <==> fault != NoFault || !AllKnown(old(Value()), old(Value()).index[d].order)
    {
      threw := true;
      if fault != SaveThrows {
        have := have + {d};
        if fault != NotifyThrows {
          var done := ForgetDatum(d);
          threw := !done;
        }
      }
    }
  }
}
