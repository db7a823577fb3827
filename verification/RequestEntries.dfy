/** What the index and the data had say over runs: whose offers an entry lists, which data are had, and
    that a datum that is had is not requested. */
module RequestEntries {
  import opened Common
  import opened Address
  import opened RequestQueue
  import opened Bookkeeper
  import opened RequestLifecycle

  // Which data are had

  /** The step delivers the datum to a manager that expects it and is not stopping, and saving works. */
  predicate Saves(s: State, step: Step, d: Request)
    requires Enabled(s, step)
  {
    && step.Deliver? && step.fault != SaveThrows && s.peers[step.a].activity.d == d
    && !s.stopping && d in s.index && step.a in s.index[d].members
  }

  /** Exactly the steps by which a datum comes to be had or lost. */
  lemma HaveIff(s: State, step: Step, d: Request)
    requires Enabled(s, step)
    ensures d in Apply(s, step).have <==>
              step == Multicast(d) || Saves(s, step, d) || (d in s.have && step != Forget(d))
  {
  }

  /** A notice makes its reader ask the manager if and only if the datum is not had. */
  lemma ReadNoticeIff(s: State, a: SockAddr, d: Request)
    requires Enabled(s, Own(a, ReadNotice(d)))
    ensures var s' := Apply(s, Own(a, ReadNotice(d)));
      && (s'.peers[a].notice == Wanted(d) <==> d !in s.have)
      && (s'.peers[a].notice == NoNotice <==> d in s.have)
  {
  }

  /** The peer neither holds a request for the datum nor is about to ask for one. */
  ghost predicate Clear(p: Peer, d: Request) {
    !PeerHolds(p, d) && p.notice != Wanted(d)
  }

  ghost predicate AllClear(s: State, d: Request) {
    && d in s.have && (s.pending.Some? ==> s.pending.value.d != d)
    && forall a :: a in s.peers ==> Clear(s.peers[a], d)
  }

  lemma MoveKeepsClear(p: Peer, m: Move, have: set<Request>, d: Request)
    requires CanMove(p, m) && d in have && Clear(p, d)
    ensures Clear(Moved(p, m, have), d)
  {
    if m == TakeHead && p.queue != [] {
      assert p.queue == [p.queue[0]] + p.queue[1..];
    }
  }

  lemma ClearStep(s: State, step: Step, d: Request)
    requires AllClear(s, d) && Enabled(s, step) && step != Forget(d)
    ensures AllClear(Apply(s, step), d)
  {
    if step.Own? {
      MoveKeepsClear(s.peers[step.a], step.m, s.have, d);
    } else if step.PushPending? {
      PushKeepsClear(s, step.sendThrows, d);
    } else if step.ReportMissed? {
      assert Clear(s.peers[step.a], d);
    }
  }

  lemma PushKeepsClear(s: State, sendThrows: bool, d: Request)
    requires AllClear(s, d) && Enabled(s, PushPending(sendThrows))
    ensures AllClear(Apply(s, PushPending(sendThrows)), d)
  {
    assert Clear(s.peers[s.pending.value.alt], d) && Clear(s.peers[s.pending.value.caller], d);
  }

  lemma {:induction false} RunClear(s: State, steps: seq<Step>, s': State, d: Request)
    requires AllClear(s, d) && Run(s, steps, s') && Forget(d) !in steps
    ensures AllClear(s', d)
    decreases |steps|
  {
    if steps != [] {
      ClearStep(s, steps[0], d);
      RunClear(Apply(s, steps[0]), steps[1..], s', d);
    }
  }

  /** A datum that is had, and for which no peer holds a request or is about to ask, is not requested in any
      run that does not lose it, however many peers announce it. */
  lemma HadIsNotRequested(s: State, steps: seq<Step>, s': State, d: Request)
    requires Inv(s) && d in s.have && Run(s, steps, s') && Forget(d) !in steps
    requires forall a :: a in s.peers ==> !Holds(s, a, d) && s.peers[a].notice != Wanted(d)
    ensures d in s'.have && forall a :: a in s'.peers ==> !Holds(s', a, d) && s'.peers[a].notice != Wanted(d)
  {
    if s.pending.Some? {
      assert !Holds(s, s.pending.value.alt, d);
    }
    RunClear(s, steps, s', d);
    forall a | a in s'.peers
      ensures !Holds(s', a, d) && s'.peers[a].notice != Wanted(d)
    {
      assert Clear(s'.peers[a], d);
    }
  }

  // Whose offers an entry lists

  /** The offer of the datum that a step records, if it is by a peer that is not listed. */
  function OfferBy(s: State, step: Step, d: Request): seq<SockAddr>
    requires Enabled(s, step) && d in s.index
  {
    if step.AskManager? && s.peers[step.a].notice == Wanted(d) && step.a !in s.index[d].order then [step.a] else []
  }

  /** The number of candidates, one or none, that a step strikes off the entry of the datum. */
  function DeclinesBy(s: State, step: Step, d: Request): nat
    requires Enabled(s, step)
  {
    if step.ReportMissed? && s.peers[step.a].activity.d == d && !s.stopping then 1 else 0
  }

  /** As long as an entry stands, a step lists just the peer whose offer it records, at the end, or strikes
      off just the first one, which is the one that reports the datum as missed. */
  lemma EntryStep(s: State, step: Step, d: Request)
    requires Inv(s) && Enabled(s, step) && d in s.index && d in Apply(s, step).index
    ensures var order, order' := s.index[d].order, Apply(s, step).index[d].order;
      && DeclinesBy(s, step, d) <= |order| && order' == (order + OfferBy(s, step, d))[DeclinesBy(s, step, d)..]
      && (DeclinesBy(s, step, d) == 1 ==> order[0] == step.a)
  {
    var order := s.index[d].order;
    assert order + [] == order && order[0..] == order;
    if step.ReportMissed? {
      MissEntry(s, step.a, d);
    } else if step.AskManager? {
      AskEntry(s, step.a, d);
    } else {
      assert Apply(s, step).index[d] == s.index[d];
    }
  }

  lemma MissEntry(s: State, a: SockAddr, d: Request)
    requires Inv(s) && Enabled(s, ReportMissed(a)) && d in s.index
    ensures d in Apply(s, ReportMissed(a)).index
    ensures var order, order' := s.index[d].order, Apply(s, ReportMissed(a)).index[d].order;
      if s.peers[a].activity.d == d && !s.stopping then order != [] && order[0] == a && order' == order[1..]
      else order' == order
  {
    ReporterIsFront(s, a);
    FrontDeclines(s.index, a, s.peers[a].activity.d);
  }

  lemma AskEntry(s: State, a: SockAddr, d: Request)
    requires Inv(s) && Enabled(s, AskManager(a)) && d in s.index
    ensures d in Apply(s, AskManager(a)).index
    ensures var order, order' := s.index[d].order, Apply(s, AskManager(a)).index[d].order;
      order' == if s.peers[a].notice == Wanted(d) && a !in order then order + [a] else order
  {
    assert s.index[d].Valid();
    OfferedValid(s.index, a, s.peers[a].notice.d);
  }

  /** The entry of the datum stands throughout the steps. */
  ghost predicate Stands(s: State, steps: seq<Step>, d: Request)
    decreases |steps|
  {
    d in s.index && (steps != [] ==> Enabled(s, steps[0]) && Stands(Apply(s, steps[0]), steps[1..], d))
  }

  ghost function Offers(s: State, steps: seq<Step>, d: Request): seq<SockAddr>
    requires Stands(s, steps, d)
    decreases |steps|
  {
    if steps == [] then [] else OfferBy(s, steps[0], d) + Offers(Apply(s, steps[0]), steps[1..], d)
  }

  ghost function Declines(s: State, steps: seq<Step>, d: Request): nat
    requires Stands(s, steps, d)
    decreases |steps|
  {
    if steps == [] then 0 else DeclinesBy(s, steps[0], d) + Declines(Apply(s, steps[0]), steps[1..], d)
  }

  lemma DropMore<T>(s: seq<T>, t: seq<T>, u: seq<T>, m: nat, n: nat)
    requires m <= |s| && n <= |(s + t)[m..] + u|
    ensures m + n <= |s + (t + u)|
    ensures ((s + t)[m..] + u)[n..] == (s + (t + u))[m + n..]
  {
  }

  /** In every run, as long as the entry of a datum stands, its candidates are those that were listed at
      first and those that have offered the datum since, in the order of their offers, without as many at
      the front as have declined. */
  lemma {:induction false} CandidatesAreOffers(s: State, steps: seq<Step>, s': State, d: Request)
    requires Inv(s) && Run(s, steps, s') && Stands(s, steps, d)
    ensures d in s'.index
    ensures Declines(s, steps, d) <= |s.index[d].order + Offers(s, steps, d)|
    ensures s'.index[d].order == (s.index[d].order + Offers(s, steps, d))[Declines(s, steps, d)..]
    decreases |steps|
  {
    var order := s.index[d].order;
    if steps == [] {
      assert order + [] == order;
    } else {
      var s1 := Apply(s, steps[0]);
      StepInv(s, steps[0]);
      EntryStep(s, steps[0], d);
      CandidatesAreOffers(s1, steps[1..], s', d);
      DropMore(order, OfferBy(s, steps[0], d), Offers(s1, steps[1..], d), DeclinesBy(s, steps[0], d),
               Declines(s1, steps[1..], d));
    }
  }

  /** The peer does not report the datum as missed in any of the steps. */
  ghost predicate NeverMisses(s: State, steps: seq<Step>, a: SockAddr, d: Request)
    requires Stands(s, steps, d)
    decreases |steps|
  {
    steps != [] ==>
      && !(steps[0] == ReportMissed(a) && s.peers[a].activity.d == d)
      && NeverMisses(Apply(s, steps[0]), steps[1..], a, d)
  }

  /** A peer that has offered a datum, and has not missed it since, is a candidate for it as long as the
      entry stands, whoever else offers or misses it. */
  lemma {:induction false} OffersAreKept(s: State, steps: seq<Step>, s': State, a: SockAddr, d: Request)
    requires Inv(s) && Run(s, steps, s') && Stands(s, steps, d) && NeverMisses(s, steps, a, d)
    requires a in s.index[d].order
    ensures d in s'.index && a in s'.index[d].order && a in s'.index[d].members
    decreases |steps|
  {
    if steps == [] {
      assert s.index[d].Valid();
    } else {
      StepInv(s, steps[0]);
      EntryStep(s, steps[0], d);
      OffersAreKept(Apply(s, steps[0]), steps[1..], s', a, d);
    }
  }

  /** Whoever asks the manager about a datum is a candidate for it afterwards, and is the first one to be
      asked if there was no entry. */
  lemma AskingIsOffering(s: State, a: SockAddr)
    requires Inv(s) && Enabled(s, AskManager(a))
    ensures var d, s' := s.peers[a].notice.d, Apply(s, AskManager(a));
      && d in s'.index && a in s'.index[d].order
      && (s'.peers[a].notice == Granted(d) <==> d !in s.index)
      && (s'.peers[a].notice == NoNotice <==> d in s.index)
      && (d !in s.index ==> s'.index[d].order == [a])
  {
    OfferedValid(s.index, a, s.peers[a].notice.d);
    if s.peers[a].notice.d in s.index {
      assert s.index[s.peers[a].notice.d].Valid();
    }
  }
}
