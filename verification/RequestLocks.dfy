/** Which waits on the locks of manager and peers end: reassignments, the stop of a peer, and requests
    on their way out of a queue. */
module RequestLocks {
  import opened Common
  import opened Address
  import opened RequestQueue
  import opened Bookkeeper
  import opened RequestLifecycle
  import opened RequestFaults

  // What can be reached from a state

  ghost predicate Leads(s: State, s': State) {
    exists steps :: Run(s, steps, s')
  }

  lemma Stay(s: State)
    ensures Leads(s, s)
  {
    assert Run(s, [], s);
  }

  lemma Then(s0: State, s: State, step: Step)
    requires Leads(s0, s) && Enabled(s, step)
    ensures Leads(s0, Apply(s, step))
  {
    var steps :| Run(s0, steps, s);
    RunExtend(s0, steps, s, step);
  }

  // What each thread waits for

  /** A notice reader of a running peer can always go on, but for a lock: the manager's to tell it about a
      server or to ask it about a datum, the peer's to push a request or to store information. */
  lemma NoticeReaderWaits(s: State, a: SockAddr, d: Request)
    requires Reachable(s) && !s.crashed && a in s.peers && s.peers[a].phase == Running
    ensures match s.peers[a].notice
            case NoNotice =>
              && Enabled(s, Own(a, ReadNotice(d)))
              && Enabled(s, Own(a, ReadSrvrNotice)) && Apply(s, Own(a, ReadSrvrNotice)).peers[a].notice == Telling
              && Enabled(s, Own(a, ReadSrvrInfo)) && Apply(s, Own(a, ReadSrvrInfo)).peers[a].notice == Storing
            case Wanted(_) => Enabled(s, AskManager(a)) <==> s.pending.None?
            case Telling => Enabled(s, Own(a, TellManager)) <==> s.pending.None?
            case Granted(_) => Enabled(s, Own(a, PushGranted)) <==> s.peers[a].activity == Idle
            case Storing => Enabled(s, Own(a, StoreSrvrInfo)) <==> s.peers[a].activity == Idle
  {
  }

  /** So can a data reader until it ends: between data it takes any datum or ends; with a datum it waits for the
      peer's lock, and once it works on the queue it waits for the manager's only. */
  lemma DataReaderWaits(s: State, a: SockAddr, d: Request, fault: Fault)
    requires Reachable(s) && !s.crashed && a in s.peers && s.peers[a].phase == Running
    ensures match s.peers[a].reader
            case AtRest =>
              && Enabled(s, Own(a, ReadDatum(d))) && Apply(s, Own(a, ReadDatum(d))).peers[a].reader == Handling(d)
              && Enabled(s, Own(a, EndReader)) && Apply(s, Own(a, EndReader)).peers[a].reader == Ended
            case Handling(_) => Enabled(s, Own(a, Process)) <==> s.peers[a].activity == Idle
            case Ended => true
    ensures s.peers[a].activity.Seeking? ==> Enabled(s, Own(a, TakeHead))
    ensures s.peers[a].activity.Missing? ==> (Enabled(s, ReportMissed(a)) <==> s.pending.None?)
    ensures s.peers[a].activity.Delivering? ==> (Enabled(s, Deliver(a, fault)) <==> s.pending.None?)
  {
  }

  /** The report or the delivery throws: the next candidate for the missed request has been removed; or saving
      the datum, notifying a peer of it, or looking up a candidate throws. */
  predicate ThrowsIn(s: State, step: Step)
    requires Enabled(s, step)
  {
    && !s.stopping && (step.ReportMissed? || step.Deliver?)
    && s.peers[step.a].activity.d in s.index
    && var d := s.peers[step.a].activity.d;
      if step.ReportMissed? then |s.index[d].order| > 1 && s.index[d].order[1] !in s.peers
      else step.fault != NoFault || !AllActive(s, d)
  }

  /** The step makes the data reader of the peer throw: its datum was not requested; or its report or delivery,
      or sending a request that is reassigned on its behalf, throws. */
  predicate ThrowsAt(s: State, step: Step, a: SockAddr)
    requires Enabled(s, step) && a in s.peers && s.peers[a].reader.Handling?
  {
    || (step == Own(a, Process) && s.peers[a].reader.d !in s.peers[a].queue)
    || (step == PushPending(true) && s.pending.value.caller == a)
    || ((step.ReportMissed? || step.Deliver?) && step.a == a && ThrowsIn(s, step))
  }

  /** After a report the search goes on, unless a reassignment is under way or the lookup throws. */
  lemma AfterReport(s: State, a: SockAddr)
    requires Reachable(s) && Enabled(s, ReportMissed(a)) && s.peers[a].phase == Running
    ensures a in Apply(s, ReportMissed(a)).peers
    ensures var p, s' := s.peers[a], Apply(s, ReportMissed(a));
      if ThrowsIn(s, ReportMissed(a)) then s'.peers[a].reader == Ended && s'.peers[a].activity == Idle
      else
        && s'.peers[a].reader == p.reader
        && s'.peers[a].activity == if s'.pending.Some? then Calling(p.activity.target) else Seeking(p.activity.target)
  {
    ReachableInv(s);
    ReachableThreads(s);
    assert Orderly(s.peers[a]);
    ReporterIsFront(s, a);
    FrontDeclines(s.index, a, s.peers[a].activity.d);
  }

  /** After a reassignment the caller's search goes on, unless sending the request throws; and the
      alternative's readers do not notice. */
  lemma AfterPush(s: State, sendThrows: bool)
    requires Reachable(s) && Enabled(s, PushPending(sendThrows)) && s.peers[s.pending.value.caller].phase == Running
    ensures var q, s' := s.pending.value, Apply(s, PushPending(sendThrows));
      && q.caller in s'.peers && q.alt in s'.peers && q.alt != q.caller
      && s'.peers[q.alt].reader == s.peers[q.alt].reader
      && (if sendThrows then s'.peers[q.caller].reader == Ended && s'.peers[q.caller].activity == Idle
          else
            && s'.peers[q.caller].reader == s.peers[q.caller].reader
            && s'.peers[q.caller].activity == Seeking(s.peers[q.caller].activity.target))
  {
    ReachableInv(s);
    ReachableThreads(s);
    assert Orderly(s.peers[s.pending.value.caller]);
  }

  /** After a delivery nobody works on the queue, and the reader has ended or is at rest. */
  lemma AfterDelivery(s: State, a: SockAddr, fault: Fault)
    requires Reachable(s) && Enabled(s, Deliver(a, fault))
    ensures var s' := Apply(s, Deliver(a, fault));
      && a in s'.peers && s'.peers[a].activity == Idle
      && s'.peers[a].reader == if ThrowsIn(s, Deliver(a, fault)) then Ended else AtRest
  {
    AnswersAreExpected(s, a);
  }

  lemma OtherSteps(s: State, step: Step, a: SockAddr)
    requires Enabled(s, step) && a in s.peers && s.peers[a].phase == Running
    requires !step.PushPending? && !(step.Own? && step.a == a)
    requires step != ReportMissed(a) && !(step.Deliver? && step.a == a)
    ensures a in Apply(s, step).peers && Apply(s, step).peers[a].reader == s.peers[a].reader
  {
  }

  /** Exactly then the reader ends; and it gets back to rest exactly with a delivery that does not throw. */
  lemma ReaderEndsIff(s: State, step: Step, a: SockAddr)
    requires Reachable(s) && Enabled(s, step)
    requires a in s.peers && s.peers[a].phase == Running && s.peers[a].reader.Handling?
    ensures var s' := Apply(s, step);
      && a in s'.peers
      && (s'.peers[a].reader == Ended <==> ThrowsAt(s, step, a))
      && (s'.peers[a].reader == AtRest <==> step.Deliver? && step.a == a && !ThrowsAt(s, step, a))
  {
    ReachableThreads(s);
    assert Orderly(s.peers[a]);
    if step == ReportMissed(a) {
      AfterReport(s, a);
    } else if step.Deliver? && step.a == a {
      AfterDelivery(s, a, step.fault);
    } else if step.PushPending? {
      PushAndReaders(s, step.sendThrows, a);
    } else if step.Own? && step.a == a {
      OwnReader(s.peers[a], step.m, s.have);
    } else {
      OtherSteps(s, step, a);
    }
  }

  lemma PushAndReaders(s: State, sendThrows: bool, a: SockAddr)
    requires Reachable(s) && Enabled(s, PushPending(sendThrows)) && a in s.peers && s.peers[a].phase == Running
    ensures a in Apply(s, PushPending(sendThrows)).peers
    ensures Apply(s, PushPending(sendThrows)).peers[a].reader ==
              if sendThrows && s.pending.value.caller == a then Ended else s.peers[a].reader
  {
    ReachableInv(s);
    if s.pending.value.caller == a {
      AfterPush(s, sendThrows);
    }
  }

  lemma OwnReader(p: Peer, m: Move, have: set<Request>)
    requires Orderly(p) && CanMove(p, m) && p.reader.Handling?
    ensures Moved(p, m, have).reader == if m == Process && p.reader.d !in p.queue then Ended else p.reader
  {
  }

  /** A running peer is halted whenever its lock is free, and its stop ends when both readers are done. Then its
      queue is drained, unless the manager is stopping, and the peer is removed once the manager's lock is
      free. */
  lemma StopWaits(s: State, a: SockAddr)
    requires Reachable(s) && !s.crashed && a in s.peers
    ensures Enabled(s, Own(a, BeginStop)) <==> s.peers[a].phase == Running && s.peers[a].activity == Idle
    ensures s.peers[a].activity == Joining ==>
              (Enabled(s, Own(a, EndStop)) <==> s.peers[a].notice == NoNotice && !s.peers[a].reader.Handling?)
    ensures s.peers[a].phase == Stopped && s.peers[a].activity == Idle ==>
              if s.stopping then Enabled(s, RemovePeer(a)) else Enabled(s, Own(a, BeginDrain))
    ensures s.peers[a].phase == Stopped && !s.stopping ==> !Enabled(s, RemovePeer(a))
    ensures s.peers[a].phase == Drained ==> (Enabled(s, RemovePeer(a)) <==> s.pending.None?)
    ensures s.peers[a].phase == Running ==> !Enabled(s, RemovePeer(a))
  {
    ReachableThreads(s);
    assert Orderly(s.peers[a]);
  }

  /** Everything else waits for the manager's lock, or for nothing. */
  lemma OthersWait(s: State, a: SockAddr, d: Request)
    requires !s.crashed
    ensures Enabled(s, Multicast(d)) && Enabled(s, Forget(d))
    ensures Enabled(s, BeginStopping) <==> s.pending.None?
    ensures a !in s.peers && !s.stopping ==> (Enabled(s, AddPeer(a)) <==> s.pending.None?)
    ensures s.stopping ==> !Enabled(s, AddPeer(a))
  {
  }

  // The stop of a peer that never ends

  /** The thread that stops the peer holds the peer's lock and waits for a reader that waits for that
      lock: with a datum, a granted request, or information on the remote server. */
  predicate Hung(p: Peer) {
    p.activity == Joining && (p.reader.Handling? || p.notice.Granted? || p.notice == Storing)
  }

  /** A peer that is being stopped is left alone by all but its own threads. */
  lemma JoiningLeftAlone(s: State, step: Step, a: SockAddr)
    requires Enabled(s, step) && a in s.peers && s.peers[a].activity == Joining
    requires step != AskManager(a) && !(step.Own? && step.a == a)
    ensures a in Apply(s, step).peers && Apply(s, step).peers[a] == s.peers[a]
  {
  }

  /** What these do to it alone. */
  lemma JoiningMoves(p: Peer, m: Move, have: set<Request>)
    requires p.activity == Joining && CanMove(p, m)
    ensures var p' := Moved(p, m, have);
      && p'.queue == p.queue && (p'.activity != Joining ==> ReadersDone(p))
      && (p'.activity == Joining ==> p'.phase == p.phase)
      && (Hung(p) ==> p'.activity == Joining && Hung(p'))
      && (!Hung(p) ==> (Hung(p') <==> m.ReadDatum? || m == ReadSrvrInfo))
  {
  }

  lemma IdleStep(s: State, step: Step, a: SockAddr)
    requires Enabled(s, step) && a in s.peers && s.peers[a].activity != Joining
    ensures var s' := Apply(s, step);
      && (a in s'.peers && s'.peers[a].activity == Joining <==> step == Own(a, BeginStop))
      && (step == Own(a, BeginStop) ==> s'.peers[a] == s.peers[a].(activity := Joining))
  {
  }

  /** Exactly the steps that hang a peer: its stop begins while a reader is about to take the lock, or
      one gets there during the stop. */
  lemma HangsIff(s: State, step: Step, a: SockAddr)
    requires Enabled(s, step) && a in s.peers && !Hung(s.peers[a])
    ensures var p, s' := s.peers[a], Apply(s, step);
      (a in s'.peers && Hung(s'.peers[a])) <==>
        || (step == Own(a, BeginStop) && (p.reader.Handling? || p.notice.Granted? || p.notice == Storing))
        || (p.activity == Joining && (step == Own(a, ReadSrvrInfo) || (step.Own? && step.a == a && step.m.ReadDatum?)))
        || (p.activity == Joining && step == AskManager(a) && p.notice.d !in s.index)
  {
    if s.peers[a].activity != Joining {
      IdleStep(s, step, a);
    } else if step.Own? && step.a == a {
      JoiningMoves(s.peers[a], step.m, s.have);
    } else if step != AskManager(a) {
      JoiningLeftAlone(s, step, a);
    }
  }

  lemma HungStep(s: State, step: Step, a: SockAddr)
    requires Enabled(s, step) && a in s.peers && Hung(s.peers[a]) && s.peers[a].phase == Running
    ensures var s' := Apply(s, step);
      a in s'.peers && Hung(s'.peers[a]) && s'.peers[a].phase == Running && s'.peers[a].queue == s.peers[a].queue
  {
    if step.Own? && step.a == a {
      JoiningMoves(s.peers[a], step.m, s.have);
    } else if step != AskManager(a) {
      JoiningLeftAlone(s, step, a);
    }
  }

  /** A peer that hangs stays in the set of peers for ever, with all its requests, none of which is
      answered or reassigned. */
  lemma {:induction false} HungForever(s: State, a: SockAddr, steps: seq<Step>, s': State)
    requires Run(s, steps, s') && a in s.peers && Hung(s.peers[a]) && s.peers[a].phase == Running
    ensures a in s'.peers && Hung(s'.peers[a]) && s'.peers[a].phase == Running && s'.peers[a].queue == s.peers[a].queue
    decreases |steps|
  {
    if steps != [] {
      HungStep(s, steps[0], a);
      HungForever(Apply(s, steps[0]), a, steps[1..], s');
    }
  }

  // Reassignments that never end

  /** Nobody who needs the manager's lock keeps the peer's lock: it is free; or its queue was drained to
      the end; or the peer is being stopped and its readers are done. */
  predicate LetsIn(p: Peer) {
    || p.activity == Idle
    || (p.activity == Seeking(None) && p.queue == [])
    || (p.activity == Joining && ReadersDone(p))
  }

  /** A reassignment holds the manager's lock and waits for a peer whose lock's holder waits, or will
      wait, for the manager's lock or for a thread that waits for either. */
  predicate Deadlocked(s: State) {
    s.pending.Some? && s.pending.value.alt in s.peers && !LetsIn(s.peers[s.pending.value.alt])
  }

  /** What holds of the peer for which a reassignment waits: it is not the caller, hence not in a
      reassignment itself, and what it seeks is in its queue. */
  ghost predicate Stuck(s: State) {
    Deadlocked(s) && !s.peers[s.pending.value.alt].activity.Calling? && Finds(s.peers[s.pending.value.alt])
  }

  lemma DeadlockedIsStuck(s: State)
    requires Reachable(s) && Deadlocked(s)
    ensures Stuck(s)
  {
    ReachableInv(s);
    ReachableThreads(s);
    assert Orderly(s.peers[s.pending.value.alt]);
  }

  lemma StuckStep(s: State, step: Step)
    requires Stuck(s) && Enabled(s, step)
    ensures var s' := Apply(s, step);
      && Stuck(s') && s'.pending == s.pending && s'.index == s.index && s'.peers.Keys == s.peers.Keys
      && s'.granted == s.granted && s'.satisfied == s.satisfied && s'.abandoned == s.abandoned
  {
    var a := s.pending.value.alt;
    if step == Own(a, TakeHead) {
      assert s.peers[a].queue == [s.peers[a].queue[0]] + s.peers[a].queue[1..];
    }
  }

  lemma {:induction false} StuckForever(s: State, steps: seq<Step>, s': State)
    requires Stuck(s) && Run(s, steps, s')
    ensures Stuck(s') && s'.pending == s.pending && s'.index == s.index && s'.peers.Keys == s.peers.Keys
    ensures s'.granted == s.granted && s'.satisfied == s.satisfied && s'.abandoned == s.abandoned
    decreases |steps|
  {
    if steps != [] {
      StuckStep(s, steps[0]);
      StuckForever(Apply(s, steps[0]), steps[1..], s');
    }
  }

  /** From then on nothing is granted, satisfied or given up, no candidate is recorded, and no peer
      comes or goes. */
  lemma DeadlockIsPermanent(s: State, steps: seq<Step>, s': State)
    requires Reachable(s) && Deadlocked(s) && Run(s, steps, s')
    ensures Deadlocked(s') && s'.pending == s.pending && s'.index == s.index && s'.peers.Keys == s.peers.Keys
    ensures s'.granted == s.granted && s'.satisfied == s.satisfied && s'.abandoned == s.abandoned
  {
    DeadlockedIsStuck(s);
    StuckForever(s, steps, s');
  }

  /** Some run gets past the reassignment. */
  ghost predicate CanComplete(s: State) {
    exists s' :: Leads(s, s') && s'.pending.None?
  }

  /** The alternative's lock becomes free, and the request is pushed. */
  lemma Complete(s0: State, s: State) returns (s': State)
    requires Leads(s0, s) && Inv(s) && !s.crashed && s.pending.Some? && !Deadlocked(s)
    ensures Leads(s0, s') && s'.pending.None? && !s'.crashed && s'.stopping == s.stopping && s'.index == s.index
    ensures forall a :: a in s.peers && a != s.pending.value.caller && a != s.pending.value.alt ==>
              a in s'.peers && s'.peers[a] == s.peers[a]
  {
    var a := s.pending.value.alt;
    var s1 := s;
    if s.peers[a].activity != Idle {
      var step := Own(a, if s.peers[a].activity == Joining then EndStop else TakeHead);
      Then(s0, s, step);
      s1 := Apply(s, step);
    }
    Then(s0, s1, PushPending(false));
    s' := Apply(s1, PushPending(false));
  }

  /** Exactly when a reassignment can complete: the alternative's lock is free; or its queue is being
      drained and is empty; or it is being stopped and its readers are done. */
  lemma ReassignmentCompletesIff(s: State)
    requires Reachable(s) && !s.crashed && s.pending.Some?
    ensures s.pending.value.alt in s.peers
    ensures CanComplete(s) <==>
              var alt := s.peers[s.pending.value.alt];
              || alt.activity == Idle
              || (alt.activity == Seeking(None) && alt.queue == [])
              || (alt.activity == Joining && alt.notice == NoNotice && !alt.reader.Handling?)
  {
    ReachableInv(s);
    if Deadlocked(s) {
      forall s' | Leads(s, s')
        ensures s'.pending.Some?
      {
        var steps :| Run(s, steps, s');
        DeadlockIsPermanent(s, steps, s');
      }
    } else {
      Stay(s);
      var s' := Complete(s, s);
    }
  }

  // Stops that end

  /** Some run gets past the stop of the peer. */
  ghost predicate CanStop(s: State, a: SockAddr) {
    exists s' :: Leads(s, s') && a in s'.peers && s'.peers[a].phase == Stopped
  }

  predicate NeedsManager(p: Peer) {
    p.notice.Wanted? || p.notice == Telling
  }

  function NameLength(a: SockAddr): nat {
    if a.Sock? && a.inet.Name? then |a.inet.name| else 0
  }

  lemma Longest(s: set<SockAddr>) returns (n: nat)
    ensures forall a :: a in s ==> NameLength(a) <= n
    decreases s
  {
    n := 0;
    if a :| a in s {
      n := Longest(s - {a});
      n := if n < NameLength(a) then NameLength(a) else n;
    }
  }

  lemma NewAddr(s: set<SockAddr>) returns (a: SockAddr)
    ensures a !in s
  {
    var n := Longest(s);
    a := Sock(Name(seq(n + 1, _ => 0)), 0);
    assert NameLength(a) == n + 1;
  }

  /** A peer whose notice reader is free is offered the datum and makes its entry. */
  lemma Announces(s0: State, s: State, b: SockAddr, d: Request) returns (s': State)
    requires Leads(s0, s) && !s.crashed && s.pending.None? && d !in s.index
    requires b in s.peers && s.peers[b].phase == Running && s.peers[b].notice == NoNotice
    ensures Leads(s0, s') && !s'.crashed && s'.pending.None? && s'.stopping == s.stopping && d in s'.index
    ensures forall a :: a in s.peers && a != b ==> a in s'.peers && s'.peers[a] == s.peers[a]
  {
    Then(s0, s, Forget(d));
    var s1 := Apply(s, Forget(d));
    Then(s0, s1, Own(b, ReadNotice(d)));
    var s2 := Apply(s1, Own(b, ReadNotice(d)));
    Then(s0, s2, AskManager(b));
    s' := Apply(s2, AskManager(b));
  }

  /** While its peer's lock is free, a notice reader gets done with what it handles. */
  lemma FreeNotice(s0: State, s: State, a: SockAddr) returns (s': State)
    requires Leads(s0, s) && !s.crashed && s.pending.None? && a in s.peers && s.peers[a].activity == Idle
    ensures Leads(s0, s') && !s'.crashed && s'.pending.None? && s'.stopping == s.stopping && a in s'.peers
    ensures s'.peers[a] == s.peers[a].(notice := NoNotice, queue := s'.peers[a].queue)
    ensures s.peers[a].queue <= s'.peers[a].queue
    ensures s.peers[a].notice.Granted? ==> s.peers[a].notice.d in s'.peers[a].queue
    ensures forall e :: e in s'.index && e !in s.index ==> e in s'.peers[a].queue
    ensures forall b :: b in s.peers && b != a ==> b in s'.peers && s'.peers[b] == s.peers[b]
  {
    s' := s;
    if NeedsManager(s.peers[a]) {
      var step := if s.peers[a].notice == Telling then Own(a, TellManager) else AskManager(a);
      Then(s0, s, step);
      s' := Apply(s, step);
    }
    if s'.peers[a].notice != NoNotice {
      var step := Own(a, if s'.peers[a].notice == Storing then StoreSrvrInfo else PushGranted);
      Then(s0, s', step);
      s' := Apply(s', step);
    }
  }

  /** While the manager is stopping, the holder of a peer's lock gets done with the queue. */
  lemma {:induction false} GoIdle(s0: State, s: State, b: SockAddr) returns (s': State)
    requires Leads(s0, s) && !s.crashed && s.stopping && s.pending.None? && b in s.peers && Orderly(s.peers[b])
    requires s.peers[b].phase == Running && s.peers[b].activity != Joining && !s.peers[b].activity.Calling?
    ensures Leads(s0, s') && !s'.crashed && s'.stopping && s'.pending.None? && s'.index == s.index
    ensures b in s'.peers && s'.peers[b].phase == Running && s'.peers[b].activity == Idle
    ensures s'.peers[b].notice == s.peers[b].notice
    ensures forall a :: a in s.peers && a != b ==> a in s'.peers && s'.peers[a] == s.peers[a]
    decreases |s.peers[b].queue|, s.peers[b].activity.Missing?
  {
    match s.peers[b].activity
    case Idle => s' := s;
    case Delivering(_) =>
      Then(s0, s, Deliver(b, NoFault));
      s' := Apply(s, Deliver(b, NoFault));
    case Missing(_, _) =>
      Then(s0, s, ReportMissed(b));
      s' := GoIdle(s0, Apply(s, ReportMissed(b)), b);
    case Seeking(_) =>
      MoveKeepsOrder(s.peers[b], TakeHead, s.have);
      Then(s0, s, Own(b, TakeHead));
      s' := GoIdle(s0, Apply(s, Own(b, TakeHead)), b);
  }

  /** Peer `b` can come to be granted the datum that the notice reader of `a` is about to ask for: `b` is
      not being stopped; or its notice reader is free, or will be since it only tells the manager something
      or asks for a datum with an entry; or that reader asks for the same datum, or for one for which yet
      another peer asks. */
  ghost predicate Rival(s: State, a: SockAddr, b: SockAddr, d: Request) {
    && b != a && b in s.peers && s.peers[b].phase == Running
    && var p := s.peers[b];
      || p.activity != Joining || p.notice == NoNotice || p.notice == Telling
      || (p.notice.Wanted?
          && (p.notice.d == d || p.notice.d in s.index
              || exists c :: c != a && c != b && c in s.peers && s.peers[c].notice == p.notice))
  }

  /** A rival's notice reader becomes free, unless it has been granted the datum itself. */
  lemma RivalFrees(s0: State, s: State, a: SockAddr, b: SockAddr, d: Request) returns (s': State)
    requires Leads(s0, s) && !s.crashed && s.stopping && s.pending.None? && AllOrderly(s) && OneCaller(s)
    requires d !in s.index && a in s.peers && Rival(s, a, b, d)
    ensures Leads(s0, s') && !s'.crashed && s'.stopping && s'.pending.None?
    ensures a in s'.peers && s'.peers[a] == s.peers[a]
    ensures d in s'.index || (b in s'.peers && s'.peers[b].phase == Running && s'.peers[b].notice == NoNotice)
  {
    assert Orderly(s.peers[b]);
    if s.peers[b].activity != Joining {
      var s1 := GoIdle(s0, s, b);
      s' := FreeNotice(s0, s1, b);
    } else if s.peers[b].notice == Telling {
      Then(s0, s, Own(b, TellManager));
      s' := Apply(s, Own(b, TellManager));
    } else if s.peers[b].notice.Wanted? {
      s' := RivalAsks(s0, s, a, b, d);
    } else {
      s' := s;
    }
  }

  lemma RivalAsks(s0: State, s: State, a: SockAddr, b: SockAddr, d: Request) returns (s': State)
    requires Leads(s0, s) && !s.crashed && s.stopping && s.pending.None?
    requires a in s.peers && Rival(s, a, b, d) && s.peers[b].activity == Joining && s.peers[b].notice.Wanted?
    ensures Leads(s0, s') && !s'.crashed && s'.stopping && s'.pending.None?
    ensures a in s'.peers && s'.peers[a] == s.peers[a]
    ensures d in s'.index || (b in s'.peers && s'.peers[b].phase == Running && s'.peers[b].notice == NoNotice)
  {
    s' := s;
    if s.peers[b].notice.d != d && s.peers[b].notice.d !in s.index {
      var c :| c != a && c != b && c in s.peers && s.peers[c].notice == s.peers[b].notice;
      Then(s0, s, AskManager(c));
      s' := Apply(s, AskManager(c));
    }
    Then(s0, s', AskManager(b));
    s' := Apply(s', AskManager(b));
  }

  lemma RivalGets(s0: State, s: State, a: SockAddr, b: SockAddr, d: Request) returns (s': State)
    requires Leads(s0, s) && !s.crashed && s.stopping && s.pending.None? && AllOrderly(s) && OneCaller(s)
    requires d !in s.index && a in s.peers && Rival(s, a, b, d)
    ensures Leads(s0, s') && !s'.crashed && s'.stopping && s'.pending.None? && d in s'.index
    ensures a in s'.peers && s'.peers[a] == s.peers[a]
  {
    s' := RivalFrees(s0, s, a, b, d);
    if d !in s'.index {
      s' := Announces(s0, s', b, d);
    }
  }

  /** Somebody else is granted the datum that `a` is about to be granted. */
  lemma GrantElsewhere(s0: State, s: State, a: SockAddr, d: Request) returns (s': State)
    requires Leads(s0, s) && !s.crashed && s.pending.None? && AllOrderly(s) && OneCaller(s)
    requires d !in s.index && a in s.peers && (s.stopping ==> exists b :: Rival(s, a, b, d))
    ensures Leads(s0, s') && !s'.crashed && s'.stopping == s.stopping && s'.pending.None? && d in s'.index
    ensures a in s'.peers && s'.peers[a] == s.peers[a]
  {
    if s.stopping {
      var b :| Rival(s, a, b, d);
      s' := RivalGets(s0, s, a, b, d);
    } else {
      var b := NewAddr(s.peers.Keys);
      Then(s0, s, AddPeer(b));
      s' := Announces(s0, Apply(s, AddPeer(b)), b, d);
    }
  }

  /** While the manager is stopping, nobody else can come to be granted what the peer is about to be. */
  ghost predicate Alone(s: State, a: SockAddr) {
    && s.stopping && a in s.peers && s.peers[a].notice.Wanted? && s.peers[a].notice.d !in s.index
    && forall b :: !Rival(s, a, b, s.peers[a].notice.d)
  }

  /** Rivals come from rivals. */
  lemma RivalBefore(s: State, step: Step, a: SockAddr, b: SockAddr) returns (r: SockAddr)
    requires AllOrderly(s) && OneCaller(s) && Enabled(s, step) && s.stopping && step != AskManager(a)
    requires a in s.peers && s.peers[a].notice.Wanted? && Rival(Apply(s, step), a, b, s.peers[a].notice.d)
    ensures Rival(s, a, r, s.peers[a].notice.d)
  {
    var s', d := Apply(s, step), s.peers[a].notice.d;
    r := b;
    assert Orderly(s.peers[b]);
    if step.Own? && step.a != b && step.a != a && step.m.ReadNotice? {
      r := if Rival(s, a, b, d) then b else step.a;
    } else if step.AskManager? && step.a != b {
      assert s'.peers[b] == s.peers[b];
      assert Orderly(s.peers[step.a]);
    }
  }

  lemma AloneStep(s: State, step: Step, a: SockAddr)
    requires AllOrderly(s) && OneCaller(s) && Enabled(s, step) && Alone(s, a)
    requires s.peers[a].phase == Running && s.peers[a].activity == Joining
    ensures var s' := Apply(s, step);
      && a in s'.peers && s'.peers[a].phase == Running && s'.peers[a].activity == Joining
      && (Hung(s'.peers[a]) || Alone(s', a))
  {
    var s', d := Apply(s, step), s.peers[a].notice.d;
    if step != AskManager(a) {
      assert s'.peers[a].notice == Wanted(d);
      if step.AskManager? {
        assert Orderly(s.peers[step.a]) && !Rival(s, a, step.a, d);
      }
      if b :| Rival(s', a, b, d) {
        var r := RivalBefore(s, step, a, b);
      }
    }
  }

  lemma {:induction false} AloneForever(s: State, a: SockAddr, steps: seq<Step>, s': State)
    requires AllOrderly(s) && OneCaller(s) && Run(s, steps, s') && Alone(s, a)
    requires s.peers[a].phase == Running && s.peers[a].activity == Joining
    ensures a in s'.peers && s'.peers[a].phase == Running
    decreases |steps|
  {
    if steps != [] {
      var s1 := Apply(s, steps[0]);
      StepOrderly(s, steps[0]);
      StepOneCaller(s, steps[0]);
      AloneStep(s, steps[0], a);
      if Hung(s1.peers[a]) {
        HungForever(s1, a, steps[1..], s');
      } else {
        AloneForever(s1, a, steps[1..], s');
      }
    }
  }

  /** A peer that does not hang stops once the manager's lock is free. */
  lemma Stops(s0: State, s: State, a: SockAddr) returns (s': State)
    requires Leads(s0, s) && !s.crashed && s.pending.None? && AllOrderly(s) && OneCaller(s)
    requires a in s.peers && s.peers[a].activity == Joining && !Hung(s.peers[a]) && !Alone(s, a)
    ensures Leads(s0, s') && !s'.crashed && s'.pending.None? && s'.stopping == s.stopping
    ensures a in s'.peers && s'.peers[a] == Peer(s.peers[a].queue, NoNotice, Ended, Idle, Stopped)
  {
    s' := s;
    if s.peers[a].notice.Wanted? && s.peers[a].notice.d !in s.index {
      s' := GrantElsewhere(s0, s, a, s.peers[a].notice.d);
    }
    if s'.peers[a].notice != NoNotice {
      var step := if s'.peers[a].notice == Telling then Own(a, TellManager) else AskManager(a);
      Then(s0, s', step);
      s' := Apply(s', step);
    }
    Then(s0, s', Own(a, EndStop));
    s' := Apply(s', Own(a, EndStop));
  }

  /** A reader that waits for a manager that is deadlocked keeps its peer from stopping. */
  lemma {:induction false} JoinsForever(s: State, a: SockAddr, steps: seq<Step>, s': State)
    requires Stuck(s) && Run(s, steps, s')
    requires a in s.peers && s.peers[a].phase == Running && s.peers[a].activity == Joining && NeedsManager(s.peers[a])
    ensures a in s'.peers && s'.peers[a].phase == Running
    decreases |steps|
  {
    if steps != [] {
      StuckStep(s, steps[0]);
      JoinsForever(Apply(s, steps[0]), a, steps[1..], s');
    }
  }

  /** Exactly when the stop of a peer can end: it does not hang; no reader waits for a manager that is
      deadlocked; and, if the manager is stopping too, its notice reader is not about to be granted a datum
      that nobody else can come to be granted before. */
  lemma StopEndsIff(s: State, a: SockAddr)
    requires Reachable(s) && !s.crashed && a in s.peers && s.peers[a].activity == Joining
    ensures CanStop(s, a) <==>
              !Hung(s.peers[a]) && !(Deadlocked(s) && NeedsManager(s.peers[a])) && !Alone(s, a)
  {
    ReachableThreads(s);
    assert Orderly(s.peers[a]);
    if Hung(s.peers[a]) || (Deadlocked(s) && NeedsManager(s.peers[a])) || Alone(s, a) {
      forall s' | Leads(s, s')
        ensures a in s'.peers && s'.peers[a].phase == Running
      {
        var steps :| Run(s, steps, s');
        if Hung(s.peers[a]) {
          HungForever(s, a, steps, s');
        } else if Alone(s, a) {
          AloneForever(s, a, steps, s');
        } else {
          DeadlockedIsStuck(s);
          JoinsForever(s, a, steps, s');
        }
      }
    } else {
      StopEnds(s, a);
    }
  }

  lemma StopEnds(s: State, a: SockAddr)
    requires Reachable(s) && !s.crashed && a in s.peers && s.peers[a].activity == Joining
    requires !Hung(s.peers[a]) && !(Deadlocked(s) && NeedsManager(s.peers[a])) && !Alone(s, a)
    ensures CanStop(s, a)
  {
    ReachableInv(s);
    ReachableThreads(s);
    Stay(s);
    if s.peers[a].notice == NoNotice {
      Then(s, s, Own(a, EndStop));
      assert Apply(s, Own(a, EndStop)).peers[a].phase == Stopped;
    } else if s.pending.Some? {
      var s1 := Complete(s, s);
      LeadsThreads(s, s1);
      var s2 := Stops(s, s1, a);
    } else {
      var s1 := Stops(s, s, a);
    }
  }

  lemma LeadsThreads(s: State, s': State)
    requires AllOrderly(s) && OneCaller(s) && Leads(s, s')
    ensures AllOrderly(s') && OneCaller(s')
  {
    var steps :| Run(s, steps, s');
    RunThreads(s, steps, s');
  }

  // Requests that leave their queue

  /** Some run takes the request out of the peer's queue, to report it as missed or to deliver its datum. */
  ghost predicate CanTake(s: State, a: SockAddr, d: Request) {
    exists s' :: Leads(s, s') && Takes(s', a, d)
  }

  predicate Takes(s: State, a: SockAddr, d: Request) {
    Enabled(s, Own(a, TakeHead)) && s.peers[a].queue != [] && s.peers[a].queue[0] == d
  }

  /** While the manager is stopping, nothing keeps the holder of the peer's lock from going through the
      queue. */
  lemma {:induction false} TakeWhileStopping(s0: State, s: State, a: SockAddr, d: Request)
    requires Leads(s0, s) && !s.crashed && s.stopping && s.pending.None?
    requires a in s.peers && d in s.peers[a].queue && s.peers[a].activity.Seeking?
    requires s.peers[a].activity.target.Some? ==>
               s.peers[a].activity.target.value in s.peers[a].queue && s.peers[a].phase == Running
    ensures CanTake(s0, a, d)
    decreases |s.peers[a].queue|, 0
  {
    var p := s.peers[a];
    assert p.queue == [p.queue[0]] + p.queue[1..];
    if p.queue[0] != d {
      Then(s0, s, Own(a, TakeHead));
      var s1 := Apply(s, Own(a, TakeHead));
      if p.activity.target == Some(p.queue[0]) {
        Then(s0, s1, Deliver(a, NoFault));
        var s2 := Apply(s1, Deliver(a, NoFault));
        TakeAtRest(s0, s2, a, d);
      } else {
        Then(s0, s1, ReportMissed(a));
        TakeWhileStopping(s0, Apply(s1, ReportMissed(a)), a, d);
      }
    }
  }

  lemma {:induction false} TakeAtRest(s0: State, s: State, a: SockAddr, d: Request)
    requires Leads(s0, s) && !s.crashed && s.stopping && s.pending.None?
    requires a in s.peers && d in s.peers[a].queue
    requires s.peers[a].phase == Running && s.peers[a].activity == Idle && s.peers[a].reader == AtRest
    ensures CanTake(s0, a, d)
    decreases |s.peers[a].queue|, 1
  {
    Then(s0, s, Own(a, ReadDatum(d)));
    var s1 := Apply(s, Own(a, ReadDatum(d)));
    Then(s0, s1, Own(a, Process));
    TakeWhileStopping(s0, Apply(s1, Own(a, Process)), a, d);
  }

  lemma TakeStopped(s0: State, s: State, a: SockAddr, d: Request)
    requires Leads(s0, s) && !s.crashed && !s.stopping && s.pending.None?
    requires a in s.peers && d in s.peers[a].queue && s.peers[a].phase == Stopped && s.peers[a].activity == Idle
    ensures CanTake(s0, a, d)
  {
    Then(s0, s, Own(a, BeginDrain));
    var s1 := Apply(s, Own(a, BeginDrain));
    Then(s0, s1, BeginStopping);
    TakeWhileStopping(s0, Apply(s1, BeginStopping), a, d);
  }

  /** A peer whose data reader has ended stops and is drained. */
  lemma TakeEnded(s0: State, s: State, a: SockAddr, d: Request)
    requires Leads(s0, s) && !s.crashed && !s.stopping && s.pending.None?
    requires a in s.peers && d in s.peers[a].queue
    requires s.peers[a].phase == Running && s.peers[a].activity == Idle && s.peers[a].reader == Ended
    ensures CanTake(s0, a, d)
  {
    var s1 := FreeNotice(s0, s, a);
    Then(s0, s1, Own(a, BeginStop));
    var s2 := Apply(s1, Own(a, BeginStop));
    Then(s0, s2, Own(a, EndStop));
    TakeStopped(s0, Apply(s2, Own(a, EndStop)), a, d);
  }

  lemma TakeIdle(s0: State, s: State, a: SockAddr, d: Request)
    requires Leads(s0, s) && !s.crashed && !s.stopping && s.pending.None?
    requires a in s.peers && d in s.peers[a].queue && s.peers[a].phase == Running && s.peers[a].activity == Idle
    ensures CanTake(s0, a, d)
  {
    match s.peers[a].reader
    case Ended => TakeEnded(s0, s, a, d);
    case AtRest =>
      Then(s0, s, BeginStopping);
      TakeAtRest(s0, Apply(s, BeginStopping), a, d);
    case Handling(e) =>
      Then(s0, s, Own(a, Process));
      var s1 := Apply(s, Own(a, Process));
      if e in s.peers[a].queue {
        Then(s0, s1, BeginStopping);
        TakeWhileStopping(s0, Apply(s1, BeginStopping), a, d);
      } else {
        TakeEnded(s0, s1, a, d);
      }
  }

  /** The thread that works on the queue goes on. */
  lemma TakeBusy(s: State, a: SockAddr, d: Request)
    requires !s.crashed && s.pending.None? && a in s.peers && d in s.peers[a].queue && Orderly(s.peers[a])
    requires s.peers[a].activity.Seeking? || s.peers[a].activity.Missing? || s.peers[a].activity.Delivering?
    ensures CanTake(s, a, d)
  {
    Stay(s);
    Then(s, s, BeginStopping);
    var s1 := Apply(s, BeginStopping);
    match s.peers[a].activity
    case Seeking(_) => TakeWhileStopping(s, s1, a, d);
    case Missing(_, _) =>
      Then(s, s1, ReportMissed(a));
      TakeWhileStopping(s, Apply(s1, ReportMissed(a)), a, d);
    case Delivering(_) =>
      Then(s, s1, Deliver(a, NoFault));
      TakeAtRest(s, Apply(s1, Deliver(a, NoFault)), a, d);
  }

  lemma NeverTaken(s: State, a: SockAddr, d: Request)
    requires Reachable(s) && a in s.peers && d in s.peers[a].queue
    requires s.peers[a].phase == Drained || Hung(s.peers[a])
    ensures !CanTake(s, a, d)
  {
    ReachableInv(s);
    ReachableThreads(s);
    assert Orderly(s.peers[a]);
    forall s' | Leads(s, s')
      ensures !Takes(s', a, d)
    {
      var steps :| Run(s, steps, s');
      if Hung(s.peers[a]) {
        HungForever(s, a, steps, s');
      } else {
        LatePushIsLost(s, a, d, steps, s');
        RunInv(s, steps, s');
        if Orphaned(s', d) {
          OrphanedForever(s', [], s', d);
        }
        assert Takes(s', a, d) ==> Holds(s', a, d);
      }
    }
  }

  lemma TakenUnlessStopping(s: State, a: SockAddr, d: Request)
    requires Reachable(s) && !s.crashed && !s.stopping && s.pending.None?
    requires a in s.peers && d in s.peers[a].queue && s.peers[a].phase != Drained && !Hung(s.peers[a])
    ensures CanTake(s, a, d)
  {
    ReachableThreads(s);
    var p := s.peers[a];
    assert Orderly(p);
    Stay(s);
    if p.activity == Joining {
      var s1 := Stops(s, s, a);
      TakeStopped(s, s1, a, d);
    } else if p.activity != Idle {
      TakeBusy(s, a, d);
    } else if p.phase == Stopped {
      TakeStopped(s, s, a, d);
    } else {
      TakeIdle(s, s, a, d);
    }
  }

  /** While the manager is stopping, a peer's queue is no longer drained, and a reader that throws is not
      replaced: nobody goes through the queue unless somebody does already, or a datum can still arrive,
      or the one that has arrived was requested or can still be. */
  predicate Neglected(s: State, a: SockAddr)
    requires a in s.peers
  {
    var p := s.peers[a];
    || p.activity == Joining
    || (p.activity == Idle
        && (p.phase != Running || p.reader == Ended
            || (p.reader.Handling? && p.reader.d !in p.queue && p.notice != Granted(p.reader.d)
                && p.reader.d in s.index)))
  }

  lemma NeglectedStep(s: State, step: Step, a: SockAddr)
    requires Enabled(s, step) && s.stopping && AllOrderly(s) && OneCaller(s)
    requires a in s.peers && Neglected(s, a) && step != RemovePeer(a)
    ensures var s' := Apply(s, step);
      a in s'.peers && Neglected(s', a) && s.peers[a].queue <= s'.peers[a].queue && s'.stopping
  {
    assert Orderly(s.peers[a]);
  }

  lemma {:induction false} NeglectedForever(s: State, a: SockAddr, d: Request, steps: seq<Step>, s': State)
    requires Inv(s) && AllOrderly(s) && OneCaller(s) && s.stopping && Run(s, steps, s')
    requires a in s.peers && Neglected(s, a) && d in s.peers[a].queue
    ensures !Takes(s', a, d)
    decreases |steps|
  {
    if steps != [] {
      var s1 := Apply(s, steps[0]);
      StepInv(s, steps[0]);
      if steps[0] == RemovePeer(a) {
        RemovalOrphans(s, a, d);
        OrphanedForever(s1, steps[1..], s', d);
        assert !Holds(s', a, d);
      } else {
        StepOrderly(s, steps[0]);
        StepOneCaller(s, steps[0]);
        NeglectedStep(s, steps[0], a);
        NeglectedForever(s1, a, d, steps[1..], s');
      }
    }
  }

  lemma TakenWhenStopping(s: State, a: SockAddr, d: Request)
    requires Reachable(s) && !s.crashed && s.stopping
    requires a in s.peers && d in s.peers[a].queue && !Neglected(s, a)
    ensures CanTake(s, a, d)
  {
    ReachableThreads(s);
    assert Orderly(s.peers[a]);
    Stay(s);
    if s.peers[a].activity != Idle {
      TakeBusy(s, a, d);
    } else if s.peers[a].reader == AtRest {
      TakeAtRest(s, s, a, d);
    } else {
      var e := s.peers[a].reader.d;
      var s1 := s;
      if e !in s.peers[a].queue {
        s1 := FreeNotice(s, s, a);
      }
      if e !in s1.peers[a].queue {
        s1 := Requests(s, s1, a, e);
      }
      Then(s, s1, Own(a, Process));
      TakeWhileStopping(s, Apply(s1, Own(a, Process)), a, d);
    }
  }

  /** A peer requests a datum that nobody has asked for. */
  lemma Requests(s0: State, s: State, a: SockAddr, e: Request) returns (s': State)
    requires Leads(s0, s) && !s.crashed && s.pending.None? && e !in s.index
    requires a in s.peers && s.peers[a].phase == Running && s.peers[a].activity == Idle && s.peers[a].notice == NoNotice
    ensures Leads(s0, s') && !s'.crashed && s'.pending.None? && s'.stopping == s.stopping && a in s'.peers
    ensures s'.peers[a] == s.peers[a].(queue := s.peers[a].queue + [e])
  {
    Then(s0, s, Forget(e));
    var s1 := Apply(s, Forget(e));
    Then(s0, s1, Own(a, ReadNotice(e)));
    var s2 := Apply(s1, Own(a, ReadNotice(e)));
    Then(s0, s2, AskManager(a));
    var s3 := Apply(s2, AskManager(a));
    Then(s0, s3, Own(a, PushGranted));
    s' := Apply(s3, Own(a, PushGranted));
  }

  /** Exactly when a queued request can still be reported as missed or answered, between reassignments:
      its peer was not drained and does not hang; or, while the manager is stopping, somebody goes
      through the queue or can still come to do so. */
  lemma TakenIff(s: State, a: SockAddr, d: Request)
    requires Reachable(s) && !s.crashed && s.pending.None? && a in s.peers && d in s.peers[a].queue
    ensures CanTake(s, a, d) <==>
              if s.stopping then !Neglected(s, a) else s.peers[a].phase != Drained && !Hung(s.peers[a])
  {
    ReachableInv(s);
    ReachableThreads(s);
    if s.stopping && Neglected(s, a) {
      forall s' | Leads(s, s')
        ensures !Takes(s', a, d)
      {
        var steps :| Run(s, steps, s');
        NeglectedForever(s, a, d, steps, s');
      }
    } else if s.stopping {
      TakenWhenStopping(s, a, d);
    } else if s.peers[a].phase == Drained || Hung(s.peers[a]) {
      NeverTaken(s, a, d);
    } else {
      TakenUnlessStopping(s, a, d);
    }
  }

  /** Exactly when a reassigned request can be reported or answered after its push: sending it did not
      end the process, and the alternative's queue was not drained before. */
  lemma ReassignedIsTakenIff(s: State, sendThrows: bool)
    requires Reachable(s) && Enabled(s, PushPending(sendThrows))
    ensures var q, s' := s.pending.value, Apply(s, PushPending(sendThrows));
      CanTake(s', q.alt, q.d) <==> !s'.crashed && s.peers[q.alt].phase != Drained
  {
    var q, s' := s.pending.value, Apply(s, PushPending(sendThrows));
    ReachableInv(s);
    ReachableThreads(s);
    PendingIsFresh(s, sendThrows);
    if s'.crashed {
      forall s'' | Leads(s', s'')
        ensures !Takes(s'', q.alt, q.d)
      {
        var steps :| Run(s', steps, s'');
      }
    } else {
      Extend(s, PushPending(sendThrows));
      TakenIff(s', q.alt, q.d);
    }
  }

  // All of this does happen

  /** A datum arrives that answers the only request of a peer. */
  lemma Search(s: State, b: SockAddr, e: Request) returns (s': State)
    requires Reachable(s) && !s.crashed && b in s.peers && s.peers[b] == FRESH.(queue := [e])
    ensures Reachable(s') && s' == Set(s, b, Peer([e], NoNotice, Handling(e), Seeking(Some(e)), Running))
  {
    Extend(s, Own(b, ReadDatum(e)));
    var s1 := Apply(s, Own(b, ReadDatum(e)));
    Extend(s1, Own(b, Process));
    s' := Apply(s1, Own(b, Process));
    assert s'.peers == s.peers[b := s'.peers[b]];
  }

  /** Two peers, one with two requests outstanding of which the other is an alternative for the
      first, answer at the same time: the manager locks up for good. */
  lemma DeadlockReachable() returns (s: State)
    ensures Reachable(s) && !s.crashed && Deadlocked(s) && s.peers[s.pending.value.alt].activity.Seeking?
  {
    var a, b := Sock(Inet4(1), 1), Sock(Inet4(2), 2);
    var d, d2, e := Prod(1), Prod(2), Prod(3);
    var s1 := TwoPeers(a, b, d, d2);
    var s2 := Announce(s1, b, e);
    assert [] + [e] == [e];
    var s3 := AboutToMiss(s2, a, d, d2);
    var s4 := Search(s3, b, e);
    s := MissWith(s4, a, b);
  }

  /** A peer without requests is halted while it handles a notice. */
  lemma Halt(s: State, b: SockAddr, e: Request) returns (s': State)
    requires Reachable(s) && !s.crashed && e !in s.have && b in s.peers && s.peers[b] == FRESH
    ensures Reachable(s') && s' == Set(s, b, Peer([], Wanted(e), AtRest, Joining, Running))
  {
    Extend(s, Own(b, ReadNotice(e)));
    var s1 := Apply(s, Own(b, ReadNotice(e)));
    Extend(s1, Own(b, BeginStop));
    s' := Apply(s1, Own(b, BeginStop));
    assert s'.peers == s.peers[b := Peer([], Wanted(e), AtRest, Joining, Running)];
  }

  /** The alternative has no request outstanding but is halted while it handles a notice: the one who
      stops it waits for the reader, the reader for the manager, and the manager for the stop. */
  lemma StopDeadlockReachable() returns (s: State)
    ensures Reachable(s) && !s.crashed && Deadlocked(s)
    ensures var alt := s.peers[s.pending.value.alt]; alt.queue == [] && alt.activity == Joining && !Hung(alt)
  {
    var a, b := Sock(Inet4(1), 1), Sock(Inet4(2), 2);
    var s1 := TwoPeers(a, b, Prod(1), Prod(2));
    var s2 := Halt(s1, b, Prod(3));
    var s3 := AboutToMiss(s2, a, Prod(1), Prod(2));
    s := MissWith(s3, a, b);
  }

  /** A peer is halted while a request that it was granted is about to be pushed. */
  lemma HungNoticeReachable() returns (s: State, a: SockAddr)
    ensures Reachable(s) && !s.crashed && s.pending.None?
    ensures a in s.peers && Hung(s.peers[a]) && s.peers[a].notice.Granted? && s.peers[a].queue != []
  {
    a := Sock(Inet4(1), 1);
    var s1 := TwoPeers(a, Sock(Inet4(2), 2), Prod(1), Prod(2));
    var s2 := Grants(s1, a, Prod(3));
    Extend(s2, Own(a, BeginStop));
    s := Apply(s2, Own(a, BeginStop));
  }

  /** A peer is halted while information on the remote server is about to be stored. */
  lemma HungInfoReachable() returns (s: State, a: SockAddr)
    ensures Reachable(s) && !s.crashed && s.pending.None?
    ensures a in s.peers && Hung(s.peers[a]) && s.peers[a].notice == Storing && s.peers[a].queue != []
  {
    a := Sock(Inet4(1), 1);
    var s1 := TwoPeers(a, Sock(Inet4(2), 2), Prod(1), Prod(2));
    Extend(s1, Own(a, ReadSrvrInfo));
    var s2 := Apply(s1, Own(a, ReadSrvrInfo));
    Extend(s2, Own(a, BeginStop));
    s := Apply(s2, Own(a, BeginStop));
  }

  /** A peer is halted while a datum that it requested is about to be processed. */
  lemma HungDataReachable() returns (s: State, a: SockAddr)
    ensures Reachable(s) && !s.crashed && s.pending.None?
    ensures a in s.peers && Hung(s.peers[a]) && s.peers[a].reader.Handling? && s.peers[a].reader.d in s.peers[a].queue
  {
    a := Sock(Inet4(1), 1);
    var s1 := TwoPeers(a, Sock(Inet4(2), 2), Prod(1), Prod(2));
    Extend(s1, Own(a, ReadDatum(Prod(1))));
    var s2 := Apply(s1, Own(a, ReadDatum(Prod(1))));
    Extend(s2, Own(a, BeginStop));
    s := Apply(s2, Own(a, BeginStop));
  }
}
