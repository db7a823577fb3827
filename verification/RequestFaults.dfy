/** What can go wrong in the life of a request: data that are never requested again, requests that
    are never answered, locks that are never released, and the end of the process. */
module RequestFaults {
  import opened Common
  import opened Address
  import opened RequestQueue
  import opened Bookkeeper
  import opened RequestLifecycle

  // Requests that are never made again

  /** The datum has an entry in the index but no outstanding request. */
  ghost predicate Orphaned(s: State, d: Request) {
    d in s.index && d !in Outstanding(s)
  }

  /** Whatever peers announce afterwards, an orphaned datum is never requested again: its entry
      makes every later notice a mere candidate. */
  lemma {:induction false} OrphanedForever(s: State, steps: seq<Step>, s': State, d: Request)
    requires Inv(s) && Run(s, steps, s') && Orphaned(s, d)
    ensures Orphaned(s', d) && forall a :: !Holds(s', a, d)
    decreases |steps|
  {
    if steps == [] {
      OutstandingIsHeld(s, d);
    } else {
      StepInv(s, steps[0]);
      OrphanedForever(Apply(s, steps[0]), steps[1..], s', d);
    }
  }

  /** Exactly when a missed request is orphaned: the manager is stopping, no other candidate is
      listed, or the next candidate is no longer an active peer. */
  lemma MissOrphansIff(s: State, a: SockAddr)
    requires Inv(s) && Enabled(s, ReportMissed(a))
    ensures IsFront(s, a, s.peers[a].activity.d)
    ensures var d := s.peers[a].activity.d;
      Orphaned(Apply(s, ReportMissed(a)), d) <==>
        (s.stopping || |s.index[d].order| == 1 || s.index[d].order[1] !in s.peers)
  {
    var d, s' := s.peers[a].activity.d, Apply(s, ReportMissed(a));
    ReporterIsFront(s, a);
    FrontDeclines(s.index, a, d);
    if s'.pending.None? {
      ReportGivesUpInv(s, a);
    } else {
      ReportMovesInv(s, a);
      assert Holds(s', s'.pending.value.alt, d);
    }
  }

  /** Exactly when a delivered datum is saved, and exactly when it stays orphaned in the index: the
      manager is stopping, saving or notifying throws, or some candidate is no longer active. */
  lemma DeliveryOrphansIff(s: State, a: SockAddr, fault: Fault)
    requires Inv(s) && Enabled(s, Deliver(a, fault))
    ensures var d, s' := s.peers[a].activity.d, Apply(s, Deliver(a, fault));
      && d in s.index
      && (d in s'.have <==> d in s.have || (!s.stopping && fault != SaveThrows))
      && (Orphaned(s', d) <==> s.stopping || fault != NoFault || !AllActive(s, d))
  {
    var d := s.peers[a].activity.d;
    DeliverInv(s, a, fault);
    assert Holds(s, a, d);
    assert IsFront(s, a, d);
    assert s.index[d].Valid();
  }

  // Requests that are never answered

  /** The peer's queue has been drained, nobody works on it, and yet it holds the request. */
  ghost predicate Late(s: State, a: SockAddr, d: Request) {
    && a in s.peers && d in s.peers[a].queue
    && s.peers[a].phase == Drained && s.peers[a].activity == Idle && ReadersDone(s.peers[a])
  }

  /** The removal of a peer orphans what is left in its queue. */
  lemma RemovalOrphans(s: State, a: SockAddr, d: Request)
    requires Inv(s) && Enabled(s, RemovePeer(a)) && d in s.peers[a].queue
    ensures Orphaned(Apply(s, RemovePeer(a)), d)
  {
    assert Holds(s, a, d);
    assert IsFront(s, a, d);
    RemovePeerInv(s, a);
  }

  lemma LateStep(s: State, a: SockAddr, d: Request, step: Step)
    requires Inv(s) && Enabled(s, step) && Late(s, a, d)
    ensures if step == RemovePeer(a) then Orphaned(Apply(s, step), d) else Late(Apply(s, step), a, d)
  {
    if step == RemovePeer(a) {
      RemovalOrphans(s, a, d);
    }
  }

  /** A request that reaches a peer after the peer's queue was drained is never answered or
      reassigned, in any run: it waits until the peer is removed and is orphaned from then on. */
  lemma {:induction false} LatePushIsLost(s: State, a: SockAddr, d: Request, steps: seq<Step>, s': State)
    requires Inv(s) && Run(s, steps, s') && Late(s, a, d)
    ensures if RemovePeer(a) in steps then Orphaned(s', d) else Late(s', a, d)
    decreases |steps|
  {
    if steps != [] {
      assert steps == [steps[0]] + steps[1..];
      var s1 := Apply(s, steps[0]);
      StepInv(s, steps[0]);
      LateStep(s, a, d, steps[0]);
      if steps[0] == RemovePeer(a) {
        OrphanedForever(s1, steps[1..], s', d);
      } else {
        LatePushIsLost(s1, a, d, steps[1..], s');
      }
    }
  }

  // The end of the process

  /** Exactly the steps that end the process: a thread that drains a queue, where nothing catches an
      exception, looks up a removed candidate, or fails to send a reassigned request. */
  lemma CrashIff(s: State, step: Step)
    requires Inv(s) && Enabled(s, step)
    ensures Apply(s, step).crashed <==>
      || (step.ReportMissed? && !s.stopping && s.peers[step.a].activity.target.None?
          && s.peers[step.a].activity.d in s.index
          && var order := s.index[s.peers[step.a].activity.d].order; |order| > 1 && order[1] !in s.peers)
      || (step.PushPending? && step.sendThrows && s.peers[s.pending.value.caller].activity.target.None?)
  {
    if step.ReportMissed? {
      ReporterIsFront(s, step.a);
      FrontDeclines(s.index, step.a, s.peers[step.a].activity.d);
    }
  }

  // All of this does happen

  /** A peer is granted an unknown datum. */
  lemma Grants(s: State, a: SockAddr, d: Request) returns (s': State)
    requires Reachable(s) && !s.crashed && s.pending.None? && d !in s.have && d !in s.index
    requires a in s.peers && s.peers[a].phase == Running && s.peers[a].notice == NoNotice
    ensures Reachable(s')
    ensures s' == Set(s, a, s.peers[a].(notice := Granted(d)))
                    .(index := s.index[d := Candidates({a}, [a])], granted := s.granted + 1)
  {
    var s1 := Apply(s, Own(a, ReadNotice(d)));
    Extend(s, Own(a, ReadNotice(d)));
    Extend(s1, AskManager(a));
    s' := Apply(s1, AskManager(a));
    assert Offered(s.index, a, d) == Candidates({a}, [a]);
    assert s'.peers == s.peers[a := s.peers[a].(notice := Granted(d))];
  }

  /** A notice of an unknown datum takes three steps to become a queued request. */
  lemma Announce(s: State, a: SockAddr, d: Request) returns (s': State)
    requires Reachable(s) && !s.crashed && s.pending.None? && d !in s.have && d !in s.index
    requires a in s.peers && s.peers[a].phase == Running
    requires s.peers[a].notice == NoNotice && s.peers[a].activity == Idle
    ensures Reachable(s')
    ensures s' == Set(s, a, s.peers[a].(queue := s.peers[a].queue + [d]))
                    .(index := s.index[d := Candidates({a}, [a])], granted := s.granted + 1)
  {
    var s1 := Grants(s, a, d);
    Extend(s1, Own(a, PushGranted));
    s' := Apply(s1, Own(a, PushGranted));
    assert s'.peers == s.peers[a := s.peers[a].(queue := s.peers[a].queue + [d])];
  }

  /** A notice of a datum that somebody else was asked for makes a further candidate. */
  lemma Offer(s: State, b: SockAddr, d: Request, a: SockAddr) returns (s': State)
    requires Reachable(s) && !s.crashed && s.pending.None? && d !in s.have
    requires d in s.index && s.index[d] == Candidates({a}, [a]) && a != b
    requires b in s.peers && s.peers[b].phase == Running && s.peers[b].notice == NoNotice
    ensures Reachable(s')
    ensures s' == s.(index := s.index[d := Candidates({a, b}, [a, b])])
  {
    Extend(s, Own(b, ReadNotice(d)));
    var s1 := Apply(s, Own(b, ReadNotice(d)));
    Extend(s1, AskManager(b));
    s' := Apply(s1, AskManager(b));
    assert {a} + {b} == {a, b} && [a] + [b] == [a, b];
    assert Offered(s.index, b, d) == Candidates({a, b}, [a, b]);
    assert s'.peers == s.peers;
  }

  /** A peer on which nobody works stops. */
  lemma Stop(s: State, b: SockAddr) returns (s': State)
    requires Reachable(s) && !s.crashed && b in s.peers && s.peers[b].phase == Running
    requires s.peers[b].activity == Idle && ReadersDone(s.peers[b])
    ensures Reachable(s') && s' == Set(s, b, s.peers[b].(reader := Ended, phase := Stopped))
  {
    Extend(s, Own(b, BeginStop));
    var s1 := Apply(s, Own(b, BeginStop));
    Extend(s1, Own(b, EndStop));
    s' := Apply(s1, Own(b, EndStop));
    assert s'.peers == s.peers[b := s.peers[b].(reader := Ended, phase := Stopped)];
  }

  /** A peer whose queue is empty stops and is drained. */
  lemma Drain(s: State, b: SockAddr) returns (s': State)
    requires Reachable(s) && !s.crashed && !s.stopping && b in s.peers && s.peers[b] == FRESH
    ensures Reachable(s') && s' == Set(s, b, FRESH.(reader := Ended, phase := Drained))
  {
    var s1 := Stop(s, b);
    Extend(s1, Own(b, BeginDrain));
    var s2 := Apply(s1, Own(b, BeginDrain));
    Extend(s2, Own(b, TakeHead));
    s' := Apply(s2, Own(b, TakeHead));
    assert s'.peers == s.peers[b := FRESH.(reader := Ended, phase := Drained)];
  }

  /** A datum that was requested arrives, and the search for its request takes the oldest one. */
  lemma Answer(s: State, a: SockAddr, d: Request) returns (s': State)
    requires Reachable(s) && !s.crashed && a in s.peers && s.peers[a].phase == Running
    requires s.peers[a].activity == Idle && s.peers[a].reader == AtRest && d in s.peers[a].queue
    ensures Reachable(s')
    ensures var q := s.peers[a].queue;
      s' == Set(s, a, s.peers[a].(queue := q[1..], reader := Handling(d),
                                  activity := if q[0] == d then Delivering(d) else Missing(Some(d), q[0])))
  {
    Extend(s, Own(a, ReadDatum(d)));
    var s1 := Apply(s, Own(a, ReadDatum(d)));
    Extend(s1, Own(a, Process));
    var s2 := Apply(s1, Own(a, Process));
    Extend(s2, Own(a, TakeHead));
    s' := Apply(s2, Own(a, TakeHead));
    assert s'.peers == s.peers[a := s'.peers[a]];
  }

  /** Two peers, of which `a` was asked for `d` and then `d2`, and `b` is an alternative for `d`. */
  lemma TwoPeers(a: SockAddr, b: SockAddr, d: Request, d2: Request) returns (s: State)
    requires a != b && d != d2
    ensures Reachable(s) && !s.crashed && !s.stopping && s.pending.None? && s.have == {}
    ensures s.peers == map[a := Peer([d, d2], NoNotice, AtRest, Idle, Running), b := FRESH]
    ensures s.index == map[d := Candidates({a, b}, [a, b]), d2 := Candidates({a}, [a])]
  {
    assert Run(INIT, [], INIT);
    Extend(INIT, AddPeer(a));
    var s1 := Apply(INIT, AddPeer(a));
    Extend(s1, AddPeer(b));
    var s2 := Apply(s1, AddPeer(b));
    var s3 := Announce(s2, a, d);
    var s4 := Announce(s3, a, d2);
    assert [] + [d] + [d2] == [d, d2];
    assert s4.peers == map[a := Peer([d, d2], NoNotice, AtRest, Idle, Running), b := FRESH];
    s := Offer(s4, b, d, a);
  }

  /** The same after `b` was removed, which leaves it a candidate. */
  lemma StaleCandidate(a: SockAddr, b: SockAddr, d: Request, d2: Request) returns (s: State)
    requires a != b && d != d2
    ensures Reachable(s) && !s.crashed && !s.stopping && s.pending.None? && s.have == {}
    ensures s.peers == map[a := Peer([d, d2], NoNotice, AtRest, Idle, Running)]
    ensures s.index == map[d := Candidates({a, b}, [a, b]), d2 := Candidates({a}, [a])]
  {
    var s1 := TwoPeers(a, b, d, d2);
    var s2 := Drain(s1, b);
    Extend(s2, RemovePeer(b));
    s := Apply(s2, RemovePeer(b));
    assert s.peers == map[a := Peer([d, d2], NoNotice, AtRest, Idle, Running)];
  }

  /** A delivery that a removed candidate orphans, with nothing else going wrong. */
  lemma DeliveryOrphanReachable() returns (s: State, a: SockAddr, d: Request)
    ensures Reachable(s) && Enabled(s, Deliver(a, NoFault)) && s.peers[a].activity.d == d && !s.stopping
    ensures Orphaned(Apply(s, Deliver(a, NoFault)), d)
  {
    a, d := Sock(Inet4(1), 1), Prod(1);
    var s1 := StaleCandidate(a, Sock(Inet4(2), 2), d, Prod(2));
    s := Answer(s1, a, d);
    ReachableInv(s);
    assert s.index[d].order[1] !in s.peers;
    DeliveryOrphansIff(s, a, NoFault);
  }

  /** A delivery whose saving throws: the datum is neither had nor ever requested again. */
  lemma UnsavedOrphanReachable() returns (s: State, a: SockAddr, d: Request)
    ensures Reachable(s) && Enabled(s, Deliver(a, SaveThrows)) && s.peers[a].activity.d == d
    ensures d in s.index && AllActive(s, d)
    ensures var s' := Apply(s, Deliver(a, SaveThrows)); Orphaned(s', d) && d !in s'.have
  {
    a, d := Sock(Inet4(1), 1), Seg(DataSegId(1, 1));
    var s1 := TwoPeers(a, Sock(Inet4(2), 2), d, Prod(2));
    s := Answer(s1, a, d);
    ReachableInv(s);
    DeliveryOrphansIff(s, a, SaveThrows);
  }

  /** A miss that a removed candidate orphans. */
  lemma MissOrphanReachable() returns (s: State, a: SockAddr)
    ensures Reachable(s) && Enabled(s, ReportMissed(a)) && !s.stopping
    ensures var d := s.peers[a].activity.d;
      d in s.index && |s.index[d].order| > 1 && Orphaned(Apply(s, ReportMissed(a)), d)
  {
    a := Sock(Inet4(1), 1);
    var s1 := StaleCandidate(a, Sock(Inet4(2), 2), Prod(1), Prod(2));
    s := Answer(s1, a, Prod(2));
    ReachableInv(s);
    MissOrphansIff(s, a);
  }

  /** A stopped peer begins to be drained. */
  lemma DrainOne(s: State, a: SockAddr) returns (s': State)
    requires Reachable(s) && !s.crashed && !s.stopping
    requires a in s.peers && s.peers[a].phase == Stopped && s.peers[a].activity == Idle && s.peers[a].queue != []
    ensures Reachable(s')
    ensures var q := s.peers[a].queue;
      s' == Set(s, a, s.peers[a].(queue := q[1..], activity := Missing(None, q[0])))
  {
    Extend(s, Own(a, BeginDrain));
    var s1 := Apply(s, Own(a, BeginDrain));
    Extend(s1, Own(a, TakeHead));
    s' := Apply(s1, Own(a, TakeHead));
    assert s'.peers == s.peers[a := s'.peers[a]];
  }

  /** A drained queue whose first request has a removed candidate ends the process. */
  lemma CrashReachable() returns (s: State)
    ensures Reachable(s) && s.crashed
  {
    var a := Sock(Inet4(1), 1);
    var s1 := StaleCandidate(a, Sock(Inet4(2), 2), Prod(1), Prod(2));
    var s2 := Stop(s1, a);
    var s3 := DrainOne(s2, a);
    ReachableInv(s3);
    CrashIff(s3, ReportMissed(a));
    Extend(s3, ReportMissed(a));
    s := Apply(s3, ReportMissed(a));
  }

  /** `a` has taken the request for `d`, which it will not get. */
  lemma AboutToMiss(s: State, a: SockAddr, d: Request, d2: Request) returns (s': State)
    requires Reachable(s) && !s.crashed && a in s.peers && d != d2
    requires s.peers[a] == Peer([d, d2], NoNotice, AtRest, Idle, Running)
    ensures Reachable(s')
    ensures s' == Set(s, a, Peer([d2], NoNotice, Handling(d2), Missing(Some(d2), d), Running))
  {
    s' := Answer(s, a, d2);
    assert [d, d2][1..] == [d2];
  }

  /** `a` reports its request as missed, for which `b` is the alternative. */
  lemma MissWith(s: State, a: SockAddr, b: SockAddr) returns (s': State)
    requires Reachable(s) && !s.crashed && !s.stopping && s.pending.None?
    requires a in s.peers && b in s.peers && a != b && s.peers[a].activity.Missing?
    requires s.peers[a].activity.d in s.index && s.index[s.peers[a].activity.d] == Candidates({a, b}, [a, b])
    ensures Reachable(s') && s'.pending == Some(Pending(a, b, s.peers[a].activity.d))
    ensures var p := s.peers[a]; s'.peers == s.peers[a := p.(activity := Calling(p.activity.target))]
    ensures s'.crashed == s.crashed && s'.stopping == s.stopping
  {
    Extend(s, ReportMissed(a));
    s' := Apply(s, ReportMissed(a));
    assert [a, b][1..] == [b];
    assert AltPeer(s.index, a, s.peers[a].activity.d).0 == Some(b);
  }

  /** A request reaches a peer whose queue was drained but which was not removed yet. */
  lemma LatePushReachable() returns (s: State, b: SockAddr, d: Request)
    ensures Reachable(s) && !s.crashed && Late(s, b, d)
  {
    var a, d2 := Sock(Inet4(1), 1), Prod(2);
    b, d := Sock(Inet4(2), 2), Prod(1);
    var s1 := TwoPeers(a, b, d, d2);
    var s2 := Drain(s1, b);
    var s3 := AboutToMiss(s2, a, d, d2);
    var s4 := MissWith(s3, a, b);
    Extend(s4, PushPending(false));
    s := Apply(s4, PushPending(false));
  }
}
