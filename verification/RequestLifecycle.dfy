/** The life of a request for a datum, as a transition system over the atomic sections that the
    manager's lock and each peer's lock delimit.

    A peer's lock is held between steps while its `activity` is not `Idle`: a thread that processes a
    datum or drains the queue keeps it across its calls of the manager, and the thread that stops the
    peer keeps it while it joins the threads that read from the connection. The manager's lock is held
    between steps only by a reassignment that waits for the lock of the alternative peer (`pending`). */
module RequestLifecycle {
  import opened Common
  import opened Address
  import opened RequestQueue
  import opened Bookkeeper

  /** What the thread that reads notices is doing. */
  datatype NoticeReader =
    | NoNotice
    | Wanted(d: Request)   // the repository lacks the datum; the manager has not been asked yet
    | Granted(d: Request)  // the manager wants it requested; it has not been pushed yet
    | Telling              // received a notice about a server, about to tell the manager
    | Storing              // received information on the remote server, about to store it

  /** What the thread that reads data is doing, from the arrival of a datum to the end of its
      processing. It ends when the connection is lost or something throws. */
  datatype DataReader = AtRest | Handling(d: Request) | Ended

  /** What the holder of the peer's lock is doing. `target` is the datum whose request is sought;
      a drain has none. */
  datatype Activity =
    | Idle
    | Seeking(target: Option<Request>)            // about to take the head of the queue
    | Missing(target: Option<Request>, d: Request) // took `d`, about to report it as missed
    | Calling(target: Option<Request>)            // inside the manager's reassignment
    | Delivering(d: Request)                      // took the sought request, about to deliver
    | Joining                                     // stopping the peer, waiting for its readers to end

  datatype Phase = Running | Stopped | Drained

  datatype Peer = Peer(
    queue: seq<Request>,
    notice: NoticeReader,
    reader: DataReader,
    activity: Activity,
    phase: Phase)

  /** A reassignment on behalf of `caller` that is to push `d` onto the queue of `alt`. */
  datatype Pending = Pending(caller: SockAddr, alt: SockAddr, d: Request)

  datatype State = State(
    peers: map<SockAddr, Peer>,
    index: Index,
    pending: Option<Pending>,
    have: set<Request>,
    stopping: bool,
    crashed: bool,
    granted: nat,
    satisfied: nat,
    abandoned: nat)

  /** What goes wrong while a datum is delivered: saving it or notifying a peer of it throws. */
  datatype Fault = NoFault | SaveThrows | NotifyThrows

  /** What a thread of a peer does to that peer alone. */
  datatype Move =
    | ReadNotice(d: Request)
    | PushGranted
    | ReadSrvrNotice
    | TellManager
    | ReadSrvrInfo
    | StoreSrvrInfo
    | ReadDatum(d: Request)
    | EndReader
    | Process
    | TakeHead
    | BeginStop
    | EndStop
    | BeginDrain

  datatype Step =
    | Own(a: SockAddr, m: Move)
    | AddPeer(a: SockAddr)
    | AskManager(a: SockAddr)
    | ReportMissed(a: SockAddr)
    | PushPending(sendThrows: bool)
    | Deliver(a: SockAddr, fault: Fault)
    | RemovePeer(a: SockAddr)
    | Multicast(d: Request)
    | Forget(d: Request)
    | BeginStopping

  const INIT := State(map[], map[], None, {}, false, false, 0, 0, 0)

  const FRESH := Peer([], NoNotice, AtRest, Idle, Running)

  /** Neither reader is in the midst of handling something, so that both end with the connection. */
  predicate ReadersDone(p: Peer) {
    p.notice == NoNotice && !p.reader.Handling?
  }

  predicate CanMove(p: Peer, m: Move) {
    match m
    case ReadNotice(_) => p.phase == Running && p.notice == NoNotice
    case PushGranted => p.notice.Granted? && p.activity == Idle
    case ReadSrvrNotice => p.phase == Running && p.notice == NoNotice
    case TellManager => p.notice == Telling
    case ReadSrvrInfo => p.phase == Running && p.notice == NoNotice
    case StoreSrvrInfo => p.notice == Storing && p.activity == Idle
    case ReadDatum(_) => p.phase == Running && p.reader == AtRest
    case EndReader => p.phase == Running && p.reader == AtRest
    case Process => p.reader.Handling? && p.activity == Idle
    case TakeHead => p.activity.Seeking?
    case BeginStop => p.phase == Running && p.activity == Idle
    case EndStop => p.activity == Joining && ReadersDone(p)
    case BeginDrain => p.phase == Stopped && p.activity == Idle
  }

  predicate Enabled(s: State, step: Step) {
    && !s.crashed
    && match step
       case Own(a, m) =>
         && a in s.peers && CanMove(s.peers[a], m)
         && (m == TellManager ==> s.pending.None?) && (m == BeginDrain ==> !s.stopping)
       case AddPeer(a) => s.pending.None? && !s.stopping && a !in s.peers
       case AskManager(a) => s.pending.None? && a in s.peers && s.peers[a].notice.Wanted?
       case ReportMissed(a) => s.pending.None? && a in s.peers && s.peers[a].activity.Missing?
       case PushPending(_) =>
         && s.pending.Some? && s.pending.value.alt in s.peers && s.pending.value.caller in s.peers
         && s.peers[s.pending.value.caller].activity.Calling?
         && s.peers[s.pending.value.alt].activity == Idle
       case Deliver(a, _) => s.pending.None? && a in s.peers && s.peers[a].activity.Delivering?
       case RemovePeer(a) =>
         && s.pending.None? && a in s.peers && s.peers[a].activity == Idle && s.peers[a].notice == NoNotice
         && (s.peers[a].phase == Drained || (s.peers[a].phase == Stopped && s.stopping))
       case Multicast(_) => true
       case Forget(_) => true
       case BeginStopping => s.pending.None?
  }

  /** The peer without the head of its queue, which is what the holder of its lock seeks or misses. A
      queue without a head has been drained. */
  function HeadTaken(p: Peer): Peer
    requires p.activity.Seeking?
  {
    var t := p.activity.target;
    if p.queue != [] then
      p.(queue := p.queue[1..],
         activity := if t == Some(p.queue[0]) then Delivering(p.queue[0]) else Missing(t, p.queue[0]))
    else if t.None? then p.(activity := Idle, phase := Drained)
    else p.(activity := Idle, reader := AtRest)
  }

  /** A datum that is had is not asked for, and one that was not requested makes its reader throw. */
  function Moved(p: Peer, m: Move, have: set<Request>): Peer
    requires CanMove(p, m)
  {
    match m
    case ReadNotice(d) => p.(notice := if d in have then NoNotice else Wanted(d))
    case PushGranted => p.(queue := p.queue + [p.notice.d], notice := NoNotice)
    case ReadSrvrNotice => p.(notice := Telling)
    case TellManager => p.(notice := NoNotice)
    case ReadSrvrInfo => p.(notice := Storing)
    case StoreSrvrInfo => p.(notice := NoNotice)
    case ReadDatum(d) => p.(reader := Handling(d))
    case EndReader => p.(reader := Ended)
    case Process =>
      if p.reader.d in p.queue then p.(activity := Seeking(Some(p.reader.d))) else p.(reader := Ended)
    case TakeHead => HeadTaken(p)
    case BeginStop => p.(activity := Joining)
    case EndStop => p.(activity := Idle, reader := Ended, phase := Stopped)
    case BeginDrain => p.(activity := Seeking(None))
  }

  /** Every listed candidate is an active peer, so that forgetting the datum does not throw. */
  predicate AllActive(s: State, d: Request)
    requires d in s.index
  {
    forall a :: a in s.index[d].order ==> a in s.peers
  }

  function Set(s: State, a: SockAddr, p: Peer): State {
    s.(peers := s.peers[a := p])
  }

  function ApplyAskManager(s: State, a: SockAddr): State
    requires Enabled(s, AskManager(a))
  {
    var p := s.peers[a];
    var (should, index) := ShouldRequest(s.index, a, p.notice.d);
    Set(s, a, p.(notice := if should then Granted(p.notice.d) else NoNotice))
      .(index := index, granted := s.granted + if should then 1 else 0)
  }

  /** A peer after an exception in the thread that works on its queue: that of the data reader ends. */
  function Broken(p: Peer): Peer
    requires p.activity.Missing? || p.activity.Calling?
  {
    p.(activity := Idle, reader := if p.activity.target.Some? then Ended else p.reader)
  }

  /** A removed alternative makes the lookup throw. While a datum is processed, that ends the
      processing and the reader; while the queue is drained, nothing catches it and the process
      terminates. */
  function ApplyReportMissed(s: State, a: SockAddr): State
    requires Enabled(s, ReportMissed(a))
  {
    var p := s.peers[a];
    var t, d := p.activity.target, p.activity.d;
    var giveUp := Set(s, a, p.(activity := Seeking(t))).(abandoned := s.abandoned + 1);
    if s.stopping then giveUp
    else
      var (alt, index) := AltPeer(s.index, a, d);
      if alt.None? then giveUp.(index := index)
      else if alt.value in s.peers then
        Set(s, a, p.(activity := Calling(t))).(index := index, pending := Some(Pending(a, alt.value, d)))
      else
        Set(s, a, Broken(p)).(index := index, abandoned := s.abandoned + 1, crashed := t.None?)
  }

  /** The request is pushed and then sent to the alternative's remote peer. If sending throws, then
      the caller fares as it does when the lookup throws. */
  function ApplyPushPending(s: State, sendThrows: bool): State
    requires Enabled(s, PushPending(sendThrows))
  {
    var q := s.pending.value;
    var p := s.peers[q.caller];
    var t := p.activity.target;
    var s1 := Set(s, q.caller, if sendThrows then Broken(p) else p.(activity := Seeking(t)));
    var alt := s1.peers[q.alt];
    Set(s1, q.alt, alt.(queue := alt.queue + [q.d])).(pending := None, crashed := sendThrows && t.None?)
  }

  predicate Awaited(s: State, a: SockAddr, d: Request) {
    !s.stopping && d in s.index && a in s.index[d].members
  }

  /** The index after a delivery: the entry of an expected datum is erased, unless saving the datum,
      notifying a peer or looking up a candidate throws. */
  function IndexDelivered(s: State, a: SockAddr, d: Request, fault: Fault): Index {
    if Awaited(s, a, d) && fault == NoFault && AllActive(s, d) then s.index - {d} else s.index
  }

  /** An expected datum is saved, unless saving throws. Any exception ends the reader. */
  function ApplyDeliver(s: State, a: SockAddr, fault: Fault): State
    requires Enabled(s, Deliver(a, fault))
  {
    var p := s.peers[a];
    var d := p.activity.d;
    var threw := Awaited(s, a, d) && (fault != NoFault || !AllActive(s, d));
    var s1 := Set(s, a, p.(activity := Idle, reader := if threw then Ended else AtRest))
              .(index := IndexDelivered(s, a, d, fault));
    if Awaited(s, a, d) && fault != SaveThrows
    then s1.(have := s.have + {d}, satisfied := s.satisfied + 1)
    else s1.(abandoned := s.abandoned + 1)
  }

  function Apply(s: State, step: Step): State
    requires Enabled(s, step)
  {
    match step
    case Own(a, m) => Set(s, a, Moved(s.peers[a], m, s.have))
    case AddPeer(a) => Set(s, a, FRESH)
    case AskManager(a) => ApplyAskManager(s, a)
    case ReportMissed(a) => ApplyReportMissed(s, a)
    case PushPending(sendThrows) => ApplyPushPending(s, sendThrows)
    case Deliver(a, fault) => ApplyDeliver(s, a, fault)
    case RemovePeer(a) => s.(peers := s.peers - {a}, abandoned := s.abandoned + |s.peers[a].queue|)
    case Multicast(d) => s.(have := s.have + {d})
    case Forget(d) => s.(have := s.have - {d})
    case BeginStopping => s.(stopping := true)
  }

  /** `steps` lead from `s` to `s'`. */
  ghost predicate Run(s: State, steps: seq<Step>, s': State)
    decreases |steps|
  {
    if steps == [] then s == s'
    else Enabled(s, steps[0]) && Run(Apply(s, steps[0]), steps[1..], s')
  }

  ghost predicate Reachable(s: State) {
    exists steps :: Run(INIT, steps, s)
  }

  // Who holds which request

  ghost predicate PeerHolds(p: Peer, d: Request) {
    || d in p.queue
    || p.notice == Granted(d)
    || (p.activity.Missing? && p.activity.d == d)
    || p.activity == Delivering(d)
  }

  ghost predicate PendingFor(s: State, a: SockAddr, d: Request) {
    s.pending.Some? && s.pending.value.alt == a && s.pending.value.d == d
  }

  /** The request for `d` is outstanding at `a`: queued, granted or in transit. */
  ghost predicate Holds(s: State, a: SockAddr, d: Request) {
    a in s.peers && (PeerHolds(s.peers[a], d) || PendingFor(s, a, d))
  }

  /** No request occurs twice within a peer. */
  ghost predicate Distinct(p: Peer) {
    && NoDup(p.queue)
    && (p.notice.Granted? ==> p.notice.d !in p.queue)
    && (p.activity.Missing? || p.activity.Delivering? ==> p.activity.d !in p.queue)
    && (p.notice.Granted? && (p.activity.Missing? || p.activity.Delivering?) ==> p.notice.d != p.activity.d)
  }

  /** `a` is the first candidate for `d`. */
  ghost predicate IsFront(s: State, a: SockAddr, d: Request) {
    d in s.index && s.index[d].order != [] && s.index[d].order[0] == a
  }

  ghost function Outstanding(s: State): set<Request> {
    set d | d in s.index && s.index[d].order != [] && Holds(s, s.index[d].order[0], d)
  }

  ghost predicate Inv(s: State) {
    && ValidIndex(s.index)
    && (forall a :: a in s.peers ==> Distinct(s.peers[a]))
    && (forall a, d :: Holds(s, a, d) ==> IsFront(s, a, d))
    && (s.pending.Some? ==>
          && s.pending.value.alt in s.peers && s.pending.value.caller in s.peers
          && s.pending.value.alt != s.pending.value.caller
          && s.peers[s.pending.value.caller].activity.Calling?
          && !PeerHolds(s.peers[s.pending.value.alt], s.pending.value.d))
    && s.granted == |Outstanding(s)| + s.satisfied + s.abandoned
  }

  // Every step keeps the invariant

  lemma InitInv()
    ensures Inv(INIT)
  {
    assert Outstanding(INIT) == {};
  }

  /** What every step keeps: the invariant; an entry of the index, unless it was outstanding; and an
      entry's being without an outstanding request. */
  ghost predicate Kept(s: State, s': State) {
    && Inv(s')
    && (forall d :: d in s.index ==> d in s'.index || d in Outstanding(s))
    && (forall d :: d in s.index && d in Outstanding(s') ==> d in Outstanding(s))
  }

  /** Steps that move a request within its holder change nothing that the invariant counts. */
  lemma SameHoldersSameOutstanding(s: State, s': State)
    requires s'.index == s.index
    requires forall a, d :: Holds(s', a, d) <==> Holds(s, a, d)
    ensures Outstanding(s') == Outstanding(s)
  {
  }

  ghost predicate SameHoldings(p: Peer, p': Peer) {
    && Distinct(p')
    && (forall d :: PeerHolds(p', d) <==> PeerHolds(p, d))
    && (p.activity.Calling? ==> p'.activity.Calling?)
  }

  lemma MoveKeepsHoldings(p: Peer, m: Move, have: set<Request>)
    requires Distinct(p) && CanMove(p, m)
    ensures SameHoldings(p, Moved(p, m, have))
  {
    var p' := Moved(p, m, have);
    if m == PushGranted {
      NoDupAppend(p.queue, p.notice.d);
      assert forall d :: d in p'.queue <==> d in p.queue || d == p.notice.d;
    }
    if m == TakeHead && p.queue != [] {
      NoDupTail(p.queue);
      assert p.queue == [p.queue[0]] + p'.queue;
      assert forall d :: d in p.queue <==> d in p'.queue || d == p.queue[0];
    }
  }

  /** What a thread of a peer does to that peer alone moves requests within the peer at most. */
  lemma OwnInv(s: State, a: SockAddr, m: Move)
    requires Inv(s) && Enabled(s, Own(a, m))
    ensures Kept(s, Apply(s, Own(a, m))) && Outstanding(Apply(s, Own(a, m))) == Outstanding(s)
  {
    var s' := Apply(s, Own(a, m));
    assert Distinct(s.peers[a]);
    MoveKeepsHoldings(s.peers[a], m, s.have);
    forall b, d
      ensures Holds(s', b, d) <==> Holds(s, b, d)
    {
    }
    SameHoldersSameOutstanding(s, s');
  }

  /** Arrivals of peers, and what a multicast, the loss of a datum or the end of the manager does. */
  lemma OutsideInv(s: State, step: Step)
    requires Inv(s) && Enabled(s, step)
    requires step.AddPeer? || step.Multicast? || step.Forget? || step.BeginStopping?
    ensures Kept(s, Apply(s, step)) && Outstanding(Apply(s, step)) == Outstanding(s)
  {
    var s' := Apply(s, step);
    forall b, d
      ensures Holds(s', b, d) <==> Holds(s, b, d)
    {
    }
    SameHoldersSameOutstanding(s, s');
  }

  lemma PushPendingInv(s: State, sendThrows: bool)
    requires Inv(s) && Enabled(s, PushPending(sendThrows))
    ensures Kept(s, Apply(s, PushPending(sendThrows)))
    ensures Outstanding(Apply(s, PushPending(sendThrows))) == Outstanding(s)
  {
    var q, s' := s.pending.value, Apply(s, PushPending(sendThrows));
    var p := s.peers[q.alt];
    NoDupAppend(p.queue, q.d);
    forall b, d
      ensures Holds(s', b, d) <==> Holds(s, b, d)
    {
      assert d in p.queue + [q.d] <==> d in p.queue || d == q.d;
    }
    SameHoldersSameOutstanding(s, s');
  }

  /** When a request for a datum without an entry is granted and everything else stays, it adds to what
      is outstanding. */
  lemma GrantedInv(s: State, s': State, a: SockAddr, d: Request)
    requires Inv(s) && d !in s.index && d in s'.index && s'.index == s.index[d := s'.index[d]]
    requires ValidIndex(s'.index) && s'.index[d].order == [a]
    requires s.pending.None? && s'.pending.None? && forall b :: b in s'.peers ==> Distinct(s'.peers[b])
    requires forall b, e :: Holds(s', b, e) <==> Holds(s, b, e) || (b == a && e == d)
    requires s'.granted == s.granted + 1 && s'.satisfied == s.satisfied && s'.abandoned == s.abandoned
    ensures Kept(s, s') && Outstanding(s') == Outstanding(s) + {d}
  {
    GrantedFronts(s, s', a, d);
    assert Holds(s', a, d);
    assert Outstanding(s') == Outstanding(s) + {d};
  }

  lemma GrantedFronts(s: State, s': State, a: SockAddr, d: Request)
    requires Inv(s) && d !in s.index && d in s'.index && s'.index == s.index[d := s'.index[d]]
    requires s'.index[d].order == [a]
    requires forall b, e :: Holds(s', b, e) <==> Holds(s, b, e) || (b == a && e == d)
    ensures forall b, e :: Holds(s', b, e) ==> IsFront(s', b, e)
  {
    forall b, e | Holds(s', b, e)
      ensures IsFront(s', b, e)
    {
      assert Holds(s, b, e) ==> IsFront(s, b, e);
    }
  }

  lemma FirstOfferHolds(s: State, a: SockAddr)
    requires Inv(s) && Enabled(s, AskManager(a)) && s.peers[a].notice.d !in s.index
    ensures var d, s' := s.peers[a].notice.d, Apply(s, AskManager(a));
      && s'.index == s.index[d := Offered(s.index, a, d)] && (forall b :: !Holds(s, b, d))
      && (forall b, e :: Holds(s', b, e) <==> Holds(s, b, e) || (b == a && e == d))
  {
    var d := s.peers[a].notice.d;
    forall b
      ensures !Holds(s, b, d)
    {
      assert !IsFront(s, b, d);
    }
  }

  /** The first offer of a datum is granted, and nobody else holds it. */
  lemma FirstOfferInv(s: State, a: SockAddr)
    requires Inv(s) && Enabled(s, AskManager(a)) && s.peers[a].notice.d !in s.index
    ensures Kept(s, Apply(s, AskManager(a)))
    ensures Outstanding(Apply(s, AskManager(a))) == Outstanding(s) + {s.peers[a].notice.d}
  {
    var d, s' := s.peers[a].notice.d, Apply(s, AskManager(a));
    OfferedValid(s.index, a, d);
    FirstOfferHolds(s, a);
    assert Distinct(s.peers[a]) && !Holds(s, a, d);
    GrantedInv(s, s', a, d);
  }

  /** A later offer only lengthens the list of candidates. */
  lemma LaterOfferInv(s: State, a: SockAddr)
    requires Inv(s) && Enabled(s, AskManager(a)) && s.peers[a].notice.d in s.index
    ensures Kept(s, Apply(s, AskManager(a)))
    ensures Outstanding(Apply(s, AskManager(a))) == Outstanding(s)
  {
    var d, s' := s.peers[a].notice.d, Apply(s, AskManager(a));
    OfferedValid(s.index, a, d);
    forall b, e
      ensures Holds(s', b, e) <==> Holds(s, b, e)
    {
    }
    forall b, e | IsFront(s, b, e)
      ensures IsFront(s', b, e)
    {
    }
    forall e
      ensures e in Outstanding(s') <==> e in Outstanding(s)
    {
      if e in Outstanding(s') {
        assert IsFront(s, s'.index[e].order[0], e);
      }
    }
    assert Outstanding(s') == Outstanding(s);
  }

  lemma AskManagerInv(s: State, a: SockAddr)
    requires Inv(s) && Enabled(s, AskManager(a))
    ensures Kept(s, Apply(s, AskManager(a)))
    ensures Outstanding(Apply(s, AskManager(a))) - Outstanding(s) <=
              if s.peers[a].notice.d in s.index then {} else {s.peers[a].notice.d}
  {
    if s.peers[a].notice.d in s.index {
      LaterOfferInv(s, a);
    } else {
      FirstOfferInv(s, a);
    }
  }

  /** The reporting peer is the only holder of the datum, and the first candidate for it. */
  lemma ReporterIsFront(s: State, a: SockAddr)
    requires Inv(s) && Enabled(s, ReportMissed(a))
    ensures var d := s.peers[a].activity.d;
      && Holds(s, a, d) && IsFront(s, a, d)
      && (forall b :: Holds(s, b, d) ==> b == a)
      && !PendingFor(s, a, d) && d !in s.peers[a].queue && s.peers[a].notice != Granted(d)
  {
    var d := s.peers[a].activity.d;
    assert Holds(s, a, d);
    forall b | Holds(s, b, d)
      ensures b == a
    {
      assert IsFront(s, b, d) && IsFront(s, a, d);
    }
  }

  /** When a peer lets go of a request that it alone holds, all other holdings stay. */
  lemma LetGo(s: State, s': State, a: SockAddr, d: Request)
    requires s.pending.None? && a in s.peers && a in s'.peers
    requires s'.peers == s.peers[a := s'.peers[a]]
    requires forall e :: PeerHolds(s'.peers[a], e) <==> PeerHolds(s.peers[a], e) && e != d
    requires forall b :: Holds(s, b, d) ==> b == a
    ensures forall b, e :: b in s.peers ==> (PeerHolds(s'.peers[b], e) <==> PeerHolds(s.peers[b], e) && e != d)
  {
    forall b, e | b in s.peers
      ensures PeerHolds(s'.peers[b], e) <==> PeerHolds(s.peers[b], e) && e != d
    {
      if b != a && e == d {
        assert !Holds(s, b, d);
      }
    }
  }

  /** When a request is no longer held by anyone and everything else stays, what is outstanding shrinks by
      it, whatever becomes of its entry. */
  lemma ReleasedInv(s: State, s': State, d: Request)
    requires Inv(s) && d in Outstanding(s)
    requires ValidIndex(s'.index) && s'.pending.None? && forall a :: a in s'.peers ==> Distinct(s'.peers[a])
    requires forall b, e :: Holds(s', b, e) <==> Holds(s, b, e) && e != d
    requires forall b, e :: e != d ==> IsFront(s', b, e) == IsFront(s, b, e)
    requires s.index.Keys - {d} <= s'.index.Keys <= s.index.Keys
    requires s'.granted == s.granted && s'.satisfied + s'.abandoned == s.satisfied + s.abandoned + 1
    ensures Kept(s, s') && Outstanding(s') == Outstanding(s) - {d}
  {
    forall e
      ensures e in Outstanding(s') <==> e in Outstanding(s) && e != d
    {
      if e in s.index && e != d && s.index[e].order != [] {
        assert IsFront(s, s.index[e].order[0], e);
      }
      if e in s'.index && s'.index[e].order != [] {
        assert IsFront(s', s'.index[e].order[0], e);
      }
    }
    assert Outstanding(s') == Outstanding(s) - {d};
  }

  /** Without an alternative, a report ends the request. */
  lemma ReportGivesUpInv(s: State, a: SockAddr)
    requires Inv(s) && Enabled(s, ReportMissed(a)) && Apply(s, ReportMissed(a)).pending.None?
    ensures Kept(s, Apply(s, ReportMissed(a)))
    ensures Outstanding(Apply(s, ReportMissed(a))) == Outstanding(s) - {s.peers[a].activity.d}
  {
    var d, s' := s.peers[a].activity.d, Apply(s, ReportMissed(a));
    ReporterIsFront(s, a);
    FrontDeclines(s.index, a, d);
    LetGo(s, s', a, d);
    assert Distinct(s.peers[a]);
    ReleasedInv(s, s', d);
  }

  lemma ReportMovesHolds(s: State, a: SockAddr)
    requires Inv(s) && Enabled(s, ReportMissed(a)) && Apply(s, ReportMissed(a)).pending.Some?
    ensures var d, s' := s.peers[a].activity.d, Apply(s, ReportMissed(a));
      && s'.pending == Some(Pending(a, s'.pending.value.alt, d)) && s'.pending.value.alt in s.peers
      && s'.pending.value.alt != a && !Holds(s, s'.pending.value.alt, d)
      && (forall b, e :: Holds(s', b, e) <==> (Holds(s, b, e) && e != d) || (e == d && b == s'.pending.value.alt))
  {
    var d, s' := s.peers[a].activity.d, Apply(s, ReportMissed(a));
    ReporterIsFront(s, a);
    FrontDeclines(s.index, a, d);
    LetGo(s, s', a, d);
  }

  /** When a request moves to its new first candidate, as much is outstanding as before. */
  lemma ReassignedInv(s: State, s': State, d: Request, alt: SockAddr)
    requires Inv(s) && d in Outstanding(s) && IsFront(s', alt, d)
    requires s'.index.Keys == s.index.Keys
    requires forall b, e :: Holds(s', b, e) <==> (Holds(s, b, e) && e != d) || (e == d && b == alt)
    requires forall b, e :: e != d ==> IsFront(s', b, e) == IsFront(s, b, e)
    ensures Outstanding(s') == Outstanding(s)
    ensures forall b, e :: Holds(s', b, e) ==> IsFront(s', b, e)
  {
    forall e
      ensures e in Outstanding(s') <==> e in Outstanding(s)
    {
      if e in s.index && e != d && s.index[e].order != [] {
        assert IsFront(s, s.index[e].order[0], e);
      }
      if e in s'.index && e != d && s'.index[e].order != [] {
        assert IsFront(s', s'.index[e].order[0], e);
      }
    }
  }

  /** With an alternative, the request moves to it, and it is the new first candidate. */
  lemma ReportMovesInv(s: State, a: SockAddr)
    requires Inv(s) && Enabled(s, ReportMissed(a)) && Apply(s, ReportMissed(a)).pending.Some?
    ensures Kept(s, Apply(s, ReportMissed(a)))
    ensures Outstanding(Apply(s, ReportMissed(a))) == Outstanding(s)
  {
    var d, s' := s.peers[a].activity.d, Apply(s, ReportMissed(a));
    ReporterIsFront(s, a);
    FrontDeclines(s.index, a, d);
    ReportMovesHolds(s, a);
    assert Distinct(s.peers[a]);
    ReassignedInv(s, s', d, s'.pending.value.alt);
  }

  lemma ReportMissedInv(s: State, a: SockAddr)
    requires Inv(s) && Enabled(s, ReportMissed(a))
    ensures Kept(s, Apply(s, ReportMissed(a)))
    ensures Outstanding(Apply(s, ReportMissed(a))) <= Outstanding(s)
  {
    if Apply(s, ReportMissed(a)).pending.None? {
      ReportGivesUpInv(s, a);
    } else {
      ReportMovesInv(s, a);
    }
  }

  /** A delivery takes its request off the peer that alone holds it. */
  lemma DeliverLetsGo(s: State, a: SockAddr, fault: Fault)
    requires Inv(s) && Enabled(s, Deliver(a, fault))
    ensures Holds(s, a, s.peers[a].activity.d) && IsFront(s, a, s.peers[a].activity.d)
    ensures forall b, e :: Holds(Apply(s, Deliver(a, fault)), b, e) <==> Holds(s, b, e) && e != s.peers[a].activity.d
  {
    var d, s' := s.peers[a].activity.d, Apply(s, Deliver(a, fault));
    assert Distinct(s.peers[a]);
    assert Holds(s, a, d);
    forall b | Holds(s, b, d)
      ensures b == a
    {
      assert IsFront(s, b, d) && IsFront(s, a, d);
    }
    LetGo(s, s', a, d);
  }

  lemma DeliverInv(s: State, a: SockAddr, fault: Fault)
    requires Inv(s) && Enabled(s, Deliver(a, fault))
    ensures Kept(s, Apply(s, Deliver(a, fault)))
    ensures s.peers[a].activity.d in Outstanding(s)
    ensures Outstanding(Apply(s, Deliver(a, fault))) == Outstanding(s) - {s.peers[a].activity.d}
  {
    var d, s' := s.peers[a].activity.d, Apply(s, Deliver(a, fault));
    DeliverLetsGo(s, a, fault);
    assert Distinct(s.peers[a]);
    assert s'.index == s.index || s'.index == s.index - {d};
    ReleasedInv(s, s', d);
  }

  lemma RemovePeerInv(s: State, a: SockAddr)
    requires Inv(s) && Enabled(s, RemovePeer(a))
    ensures Kept(s, Apply(s, RemovePeer(a)))
    ensures Outstanding(Apply(s, RemovePeer(a))) == Outstanding(s) - Elems(s.peers[a].queue)
  {
    var queue, s' := s.peers[a].queue, Apply(s, RemovePeer(a));
    forall b, e
      ensures Holds(s', b, e) <==> Holds(s, b, e) && b != a
    {
    }
    forall e
      ensures Holds(s, a, e) <==> e in queue
    {
    }
    forall e
      ensures e in Outstanding(s') <==> e in Outstanding(s) && e !in queue
    {
      if e in queue {
        assert Holds(s, a, e);
        assert IsFront(s, a, e);
      }
    }
    forall e | e in queue
      ensures e in Outstanding(s)
    {
      assert Holds(s, a, e);
      assert IsFront(s, a, e);
    }
    assert Outstanding(s') == Outstanding(s) - Elems(queue);
    assert Elems(queue) <= Outstanding(s);
    NoDupCard(queue);
  }

  lemma StepInv(s: State, step: Step)
    requires Inv(s) && Enabled(s, step)
    ensures Kept(s, Apply(s, step))
  {
    if step.Own? {
      OwnInv(s, step.a, step.m);
    } else if step.PushPending? {
      PushPendingInv(s, step.sendThrows);
    } else if step.AskManager? {
      AskManagerInv(s, step.a);
    } else if step.ReportMissed? {
      ReportMissedInv(s, step.a);
    } else if step.Deliver? {
      DeliverInv(s, step.a, step.fault);
    } else if step.RemovePeer? {
      RemovePeerInv(s, step.a);
    } else {
      OutsideInv(s, step);
    }
  }

  // Results about every run

  lemma {:induction false} RunInv(s: State, steps: seq<Step>, s': State)
    requires Inv(s) && Run(s, steps, s')
    ensures Inv(s')
    decreases |steps|
  {
    if steps != [] {
      StepInv(s, steps[0]);
      RunInv(Apply(s, steps[0]), steps[1..], s');
    }
  }

  lemma ReachableInv(s: State)
    requires Reachable(s)
    ensures Inv(s)
  {
    var steps :| Run(INIT, steps, s);
    InitInv();
    RunInv(INIT, steps, s);
  }

  /** A datum is outstanding at one peer at most, and that peer is the datum's first candidate.
      The candidates of every datum are distinct, and membership agrees with the list. */
  lemma SingleOwner(s: State)
    requires Reachable(s)
    ensures forall d, a, b :: Holds(s, a, d) && Holds(s, b, d) ==> a == b
    ensures forall d, a :: Holds(s, a, d) ==> d in s.index && s.index[d].order != [] && s.index[d].order[0] == a
    ensures forall d :: d in s.index ==> NoDup(s.index[d].order) && s.index[d].members == Elems(s.index[d].order)
  {
    ReachableInv(s);
    forall d, a, b | Holds(s, a, d) && Holds(s, b, d)
      ensures a == b
    {
      assert IsFront(s, a, d) && IsFront(s, b, d);
    }
    forall d, a | Holds(s, a, d)
      ensures d in s.index && s.index[d].order != [] && s.index[d].order[0] == a
    {
      assert IsFront(s, a, d);
    }
    forall d | d in s.index
      ensures NoDup(s.index[d].order) && s.index[d].members == Elems(s.index[d].order)
    {
      assert s.index[d].Valid();
    }
  }

  lemma OutstandingIsHeld(s: State, d: Request)
    requires Inv(s)
    ensures d in Outstanding(s) <==> exists a :: Holds(s, a, d)
  {
    if a :| Holds(s, a, d) {
      assert IsFront(s, a, d);
    }
  }

  /** Requests are conserved: each grant is outstanding, was satisfied or was abandoned. */
  lemma RequestsConserved(s: State)
    requires Reachable(s)
    ensures s.granted == |Outstanding(s)| + s.satisfied + s.abandoned
    ensures forall d :: d in Outstanding(s) <==> exists a :: Holds(s, a, d)
  {
    ReachableInv(s);
    forall d
      ensures d in Outstanding(s) <==> exists a :: Holds(s, a, d)
    {
      OutstandingIsHeld(s, d);
    }
  }

  lemma GrantedIsFresh(s: State, a: SockAddr)
    requires Inv(s) && Enabled(s, Own(a, PushGranted))
    ensures s.peers[a].notice.d !in s.peers[a].queue
    ensures Apply(s, Own(a, PushGranted)).peers[a].queue == s.peers[a].queue + [s.peers[a].notice.d]
  {
    assert Distinct(s.peers[a]);
  }

  lemma PendingIsFresh(s: State, sendThrows: bool)
    requires Inv(s) && Enabled(s, PushPending(sendThrows))
    ensures var q := s.pending.value;
      && q.d !in s.peers[q.alt].queue
      && Apply(s, PushPending(sendThrows)).peers[q.alt].queue == s.peers[q.alt].queue + [q.d]
  {
  }

  /** Every push, of a granted request or a reassigned one, is of a request that the queue lacks; hence
      the queue's links, which stood for a list before it, stand for the longer one afterwards. */
  lemma PushesAreFresh(s: State, a: SockAddr, sendThrows: bool, l: Links)
    requires Reachable(s) && a in s.peers && Represents(l, s.peers[a].queue)
    ensures Enabled(s, Own(a, PushGranted)) ==>
              var d := s.peers[a].notice.d;
              d !in s.peers[a].queue
              && (d != Unset ==> Represents(Pushed(l, d), Apply(s, Own(a, PushGranted)).peers[a].queue))
    ensures Enabled(s, PushPending(sendThrows)) && s.pending.value.alt == a ==>
              var d := s.pending.value.d;
              d !in s.peers[a].queue
              && (d != Unset ==> Represents(Pushed(l, d), Apply(s, PushPending(sendThrows)).peers[a].queue))
  {
    ReachableInv(s);
    if Enabled(s, Own(a, PushGranted)) {
      GrantedIsFresh(s, a);
      if s.peers[a].notice.d != Unset {
        PushKeepsListIffAbsent(l, s.peers[a].queue, s.peers[a].notice.d);
      }
    }
    if Enabled(s, PushPending(sendThrows)) && s.pending.value.alt == a {
      PendingIsFresh(s, sendThrows);
      if s.pending.value.d != Unset {
        PushKeepsListIffAbsent(l, s.peers[a].queue, s.pending.value.d);
      }
    }
  }

  /** A datum that answers a request is never turned away as unexpected. */
  lemma AnswersAreExpected(s: State, a: SockAddr)
    requires Reachable(s) && a in s.peers
    ensures s.peers[a].activity.Delivering? ==>
              var d := s.peers[a].activity.d; d in s.index && a in s.index[d].members
  {
    ReachableInv(s);
    if s.peers[a].activity.Delivering? {
      var d := s.peers[a].activity.d;
      assert Holds(s, a, d);
      assert IsFront(s, a, d);
      assert s.index[d].Valid();
    }
  }

  // What the threads of a peer are doing

  /** What the holder of the peer's lock looks for is still in the queue. */
  ghost predicate Finds(p: Peer) {
    p.activity.Seeking? || p.activity.Missing? || p.activity.Calling? ==>
      p.activity.target.Some? ==> p.activity.target.value in p.queue
  }

  /** A queue is worked on by the thread that handles a datum, or drained by the one that stopped the
      peer after its readers. */
  ghost predicate Orderly(p: Peer) {
    && (p.phase != Running ==>
          && ReadersDone(p) && p.activity != Joining && !p.activity.Delivering?
          && (p.activity != Idle ==> p.phase == Stopped && p.activity.target == None))
    && (p.activity.Seeking? || p.activity.Missing? || p.activity.Calling? ==>
          p.activity.target.Some? ==> p.reader == Handling(p.activity.target.value))
    && (p.activity.Delivering? ==> p.reader.Handling?)
    && (p.phase == Running && (p.activity.Seeking? || p.activity.Missing? || p.activity.Calling?) ==>
          p.activity.target.Some?)
    && Finds(p)
  }

  /** The only thread inside a reassignment is the one that it was begun for, and there is none while
      the manager is stopping. */
  ghost predicate OneCaller(s: State) {
    && (forall a :: a in s.peers && s.peers[a].activity.Calling? ==> s.pending.Some? && s.pending.value.caller == a)
    && (s.stopping ==> s.pending.None?)
  }

  ghost predicate AllOrderly(s: State) {
    forall a :: a in s.peers ==> Orderly(s.peers[a])
  }

  lemma MoveKeepsOrder(p: Peer, m: Move, have: set<Request>)
    requires Orderly(p) && CanMove(p, m)
    ensures Orderly(Moved(p, m, have))
  {
    if m == TakeHead && p.queue != [] {
      assert p.queue == [p.queue[0]] + p.queue[1..];
    }
  }

  lemma StepOrderly(s: State, step: Step)
    requires AllOrderly(s) && Enabled(s, step)
    ensures AllOrderly(Apply(s, step))
  {
    var s' := Apply(s, step);
    if step.Own? {
      MoveKeepsOrder(s.peers[step.a], step.m, s.have);
    } else {
      forall a | a in s'.peers
        ensures Orderly(s'.peers[a])
      {
        assert a in s.peers ==> Orderly(s.peers[a]);
      }
    }
  }

  lemma StepOneCaller(s: State, step: Step)
    requires OneCaller(s) && Enabled(s, step)
    ensures OneCaller(Apply(s, step))
  {
  }

  lemma {:induction false} RunThreads(s: State, steps: seq<Step>, s': State)
    requires AllOrderly(s) && OneCaller(s) && Run(s, steps, s')
    ensures AllOrderly(s') && OneCaller(s')
    decreases |steps|
  {
    if steps != [] {
      StepOrderly(s, steps[0]);
      StepOneCaller(s, steps[0]);
      RunThreads(Apply(s, steps[0]), steps[1..], s');
    }
  }

  lemma ReachableThreads(s: State)
    requires Reachable(s)
    ensures AllOrderly(s) && OneCaller(s)
  {
    var steps :| Run(INIT, steps, s);
    RunThreads(INIT, steps, s);
  }

  /** A thread that processes a datum never runs past its request: whatever happens between taking two
      requests, the one it looks for is found before the queue is empty. */
  lemma SearchSucceeds(s: State, a: SockAddr)
    requires Reachable(s) && Enabled(s, Own(a, TakeHead)) && s.peers[a].activity.target.Some?
    ensures s.peers[a].queue != []
    ensures var p' := Apply(s, Own(a, TakeHead)).peers[a];
      p'.activity == Delivering(s.peers[a].activity.target.value) || s.peers[a].activity.target.value in p'.queue
  {
    ReachableThreads(s);
    assert Orderly(s.peers[a]);
    assert s.peers[a].queue == [s.peers[a].queue[0]] + s.peers[a].queue[1..];
  }

  lemma {:induction false} RunExtend(s: State, steps: seq<Step>, s': State, step: Step)
    requires Run(s, steps, s') && Enabled(s', step)
    ensures Run(s, steps + [step], Apply(s', step))
    decreases |steps|
  {
    if steps == [] {
      assert [step][1..] == [];
    } else {
      RunExtend(Apply(s, steps[0]), steps[1..], s', step);
      assert (steps + [step])[1..] == steps[1..] + [step];
    }
  }

  lemma Extend(s: State, step: Step)
    requires Reachable(s) && Enabled(s, step)
    ensures Reachable(Apply(s, step))
  {
    var steps :| Run(INIT, steps, s);
    RunExtend(INIT, steps, s, step);
  }
}
