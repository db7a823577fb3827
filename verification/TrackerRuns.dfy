/** What holds of a tracker in every run: order, containment, capacity and quarantine. */
module TrackerRuns {
  import opened Common
  import opened Address
  import opened SrvrInfo
  import opened Tracker

  datatype Step =
    | Add(info: P2pSrvrInfo)
    | EraseServer(a: SockAddr)
    | TakeNext
    | Disconnect(a: SockAddr, wasClient: bool, now: i64)
    | RevealNext(e: DelayElt, now: i64)
    | Read(infos: seq<P2pSrvrInfo>)

  datatype Config = Config(capacity: nat, delay: int)

  predicate Enabled(c: Config, s: State, step: Step) {
    match step
    case Add(info) => CanAdd(s, c.capacity, info)
    case EraseServer(a) => s.queue != [] ==> a in s.infos
    case TakeNext => s.queue != []
    case Disconnect(_, _, _) => true
    case RevealNext(e, now) => CanReveal(s, e, now)
    case Read(_) => true
  }

  function Apply(c: Config, s: State, step: Step): State
    requires c.capacity > 0 && Valid(s) && |s.infos| <= c.capacity && Enabled(c, s, step)
  {
    match step
    case Add(info) => TryAdd(s, c.capacity, info)
    case EraseServer(a) => Remove(s, a)
    case TakeNext => Next(s)
    case Disconnect(a, wasClient, now) => Disconnected(s, a, wasClient, now, c.delay)
    case RevealNext(e, _) => Reveal(s, e)
    case Read(infos) =>
      var r := AddAll(EMPTY, c.capacity, infos);
      if r.Some? then r.value else EMPTY
  }

  ghost predicate Inv(c: Config, s: State) {
    c.capacity > 0 && Valid(s) && |s.infos| <= c.capacity
  }

  lemma RemoveFits(s: State, a: SockAddr)
    requires Valid(s) && (s.queue != [] ==> a in s.infos)
    ensures Valid(Remove(s, a)) && |Remove(s, a).infos| <= |s.infos|
  {
    RemoveValid(s, a);
    if a in s.infos {
      AddOne(s.infos - {a}, a, s.infos[a]);
      assert s.infos == (s.infos - {a})[a := s.infos[a]];
    } else {
      assert s.infos - {a} == s.infos;
    }
  }

  lemma DisconnectFits(s: State, a: SockAddr, wasClient: bool, now: i64, delay: int)
    requires Valid(s)
    ensures Valid(Disconnected(s, a, wasClient, now, delay))
    ensures |Disconnected(s, a, wasClient, now, delay).infos| == |s.infos|
  {
    DisconnectedValid(s, a, wasClient, now, delay);
    if a in s.infos {
      AddOne(s.infos, a, Disconnected(s, a, wasClient, now, delay).infos[a]);
    }
  }

  lemma StepInv(c: Config, s: State, step: Step)
    requires Inv(c, s) && Enabled(c, s, step)
    ensures Inv(c, Apply(c, s, step))
  {
    match step
    case Add(info) => TryAddValid(s, c.capacity, info);
    case EraseServer(a) => RemoveFits(s, a);
    case TakeNext => NextValid(s);
    case Disconnect(a, wasClient, now) => DisconnectFits(s, a, wasClient, now, c.delay);
    case RevealNext(e, _) => RevealValid(s, e);
    case Read(_) =>
  }

  ghost predicate Run(c: Config, s: State, steps: seq<Step>, s': State)
    requires Inv(c, s)
    decreases |steps|
  {
    if steps == [] then s == s'
    else
      Enabled(c, s, steps[0]) && (StepInv(c, s, steps[0]); Run(c, Apply(c, s, steps[0]), steps[1..], s'))
  }

  lemma {:induction false} RunInv(c: Config, s: State, steps: seq<Step>, s': State)
    requires Inv(c, s) && Run(c, s, steps, s')
    ensures Inv(c, s')
    decreases |steps|
  {
    if steps != [] {
      StepInv(c, s, steps[0]);
      RunInv(c, Apply(c, s, steps[0]), steps[1..], s');
    }
  }

  /** In every reachable state the queue holds known servers, in strict order of what is known about
      them now: the next server handed out is the best one and the one evicted is the worst. */
  lemma QueueIsOrdered(c: Config, steps: seq<Step>, s: State)
    requires c.capacity > 0 && Run(c, EMPTY, steps, s)
    ensures Known(s.infos, s.queue) && NoDup(s.queue)
    ensures forall a :: a in s.infos ==> s.infos[a].srvrAddr == a
    ensures |s.infos| <= c.capacity
    ensures forall a :: a in s.queue ==>
              && AtLeastAsGood(s.infos[s.queue[0]], s.infos[a])
              && AtLeastAsGood(s.infos[a], s.infos[s.queue[|s.queue| - 1]])
    ensures forall i, j :: 0 <= i < j < |s.queue| ==> AtLeastAsGood(s.infos[s.queue[i]], s.infos[s.queue[j]])
  {
    RunInv(c, EMPTY, steps, s);
    forall i, j | 0 <= i < j < |s.queue|
      ensures AtLeastAsGood(s.infos[s.queue[i]], s.infos[s.queue[j]])
    {
      BeforeIsBetter(s.infos, s.queue[i], s.queue[j]);
    }
    forall a | a in s.queue
      ensures AtLeastAsGood(s.infos[s.queue[0]], s.infos[a])
      ensures AtLeastAsGood(s.infos[a], s.infos[s.queue[|s.queue| - 1]])
    {
      EndsOfQueue(s, a);
    }
    SortedNoDup(s.infos, s.queue);
  }

  lemma {:induction false} AddAllQueues(s: State, capacity: nat, infos: seq<P2pSrvrInfo>)
    requires Valid(s) && |s.infos| <= capacity && capacity > 0
    requires forall a :: a in s.infos ==> a in s.queue
    ensures AddAll(s, capacity, infos).Some?
    ensures forall a :: a in AddAll(s, capacity, infos).value.infos ==> a in AddAll(s, capacity, infos).value.queue
    decreases |infos|
  {
    if infos != [] {
      if s.queue == [] {
        assert s.infos.Keys == {};
      }
      TryAddValid(s, capacity, infos[0]);
      AddAllQueues(TryAdd(s, capacity, infos[0]), capacity, infos[1..]);
    }
  }

  /** After a stream has been read, whatever it held, every known server is in the queue. */
  lemma ReadQueuesAll(c: Config, s: State, infos: seq<P2pSrvrInfo>)
    requires Inv(c, s)
    ensures var s' := Apply(c, s, Read(infos));
      Elems(s'.queue) == s'.infos.Keys && s'.delays == multiset{} && AddAll(EMPTY, c.capacity, infos) == Some(s')
  {
    AddAllQueues(EMPTY, c.capacity, infos);
    StepInv(c, s, Read(infos));
    AddAllDelays(EMPTY, c.capacity, infos);
  }

  lemma {:induction false} AddAllDelays(s: State, capacity: nat, infos: seq<P2pSrvrInfo>)
    requires Valid(s) && |s.infos| <= capacity && capacity > 0 && AddAll(s, capacity, infos).Some?
    ensures AddAll(s, capacity, infos).value.delays == s.delays
    decreases |infos|
  {
    if infos != [] {
      TryAddValid(s, capacity, infos[0]);
      AddAllDelays(TryAdd(s, capacity, infos[0]), capacity, infos[1..]);
    }
  }

  // Quarantine

  /** The last time that a clock can show. */
  const LAST := 0x7FFF_FFFF_FFFF_FFFF

  /** A delay that ends before `until`, and at a time that comes. */
  predicate EndsBefore(e: DelayElt, until: int) {
    e.revealTime < until && e.revealTime <= LAST
  }

  /** The server is known but out of the queue, and no delay of it ends between `from` and `until`. */
  ghost predicate Quarantined(s: State, a: SockAddr, from: int, until: int) {
    && a in s.infos && a !in s.queue
    && (from < until ==> forall e :: e in s.delays && e.srvrAddr == a ==> !EndsBefore(e, until))
  }

  /** A step that does not remove or re-read `a`, taken from `from` on and before `until`. */
  predicate Keeps(step: Step, a: SockAddr, from: int, until: int) {
    match step
    case EraseServer(b) => b != a
    case Read(_) => false
    case Disconnect(_, _, now) => from <= now < until
    case RevealNext(_, now) => from <= now < until
    case _ => true
  }

  lemma QuarantineStep(c: Config, s: State, step: Step, a: SockAddr, from: int, until: int)
    requires Inv(c, s) && Enabled(c, s, step) && Quarantined(s, a, from, until)
    requires Keeps(step, a, from, until) && until <= from + c.delay
    ensures Quarantined(Apply(c, s, step), a, from, until)
  {
    match step
    case Add(info) => TryAddValid(s, c.capacity, info);
    case EraseServer(b) => RemoveValid(s, b);
    case TakeNext => NextValid(s);
    case Disconnect(b, wasClient, now) => DisconnectedValid(s, b, wasClient, now, c.delay);
    case RevealNext(e, now) => RevealValid(s, e);
  }

  lemma {:induction false} QuarantineRun(c: Config, s: State, steps: seq<Step>, s': State,
                                         a: SockAddr, from: int, until: int)
    requires Inv(c, s) && Run(c, s, steps, s') && Quarantined(s, a, from, until)
    requires (forall step :: step in steps ==> Keeps(step, a, from, until)) && until <= from + c.delay
    ensures Quarantined(s', a, from, until)
    decreases |steps|
  {
    if steps != [] {
      StepInv(c, s, steps[0]);
      QuarantineStep(c, s, steps[0], a, from, until);
      QuarantineRun(c, Apply(c, s, steps[0]), steps[1..], s', a, from, until);
    }
  }

  /** No run without erasure and reading brings the server back between the two times. */
  ghost predicate StaysOut(c: Config, s: State, a: SockAddr, from: int, until: int)
    requires Inv(c, s)
  {
    forall steps, s' :: Run(c, s, steps, s') && (forall step :: step in steps ==> Keeps(step, a, from, until))
      ==> a in s'.infos && a !in s'.queue
  }

  lemma NextToEnd(delays: multiset<DelayElt>) returns (f: DelayElt)
    requires |delays| > 0
    ensures f in delays && forall g :: g in delays ==> f.revealTime <= g.revealTime
    decreases |delays|
  {
    f :| f in delays;
    var rest := delays - multiset{f};
    assert forall g :: g in delays ==> g == f || g in rest;
    if |rest| > 0 {
      var g := NextToEnd(rest);
      f := if g.revealTime < f.revealTime then g else f;
    }
  }

  /** Ending delays, the earliest first, gets a server back into the queue if one of them is its. */
  lemma BringBack(c: Config, s: State, a: SockAddr, e: DelayElt, from: i64, until: int)
    returns (steps: seq<Step>, s': State)
    requires Inv(c, s) && a in s.infos && e in s.delays && e.srvrAddr == a
    requires EndsBefore(e, until) && from < until
    ensures Run(c, s, steps, s') && (forall step :: step in steps ==> Keeps(step, a, from, until)) && a in s'.queue
    decreases |s.delays|
  {
    var f := NextToEnd(s.delays);
    var step := RevealNext(f, if f.revealTime < from then from else f.revealTime);
    RevealValid(s, f);
    StepInv(c, s, step);
    var s1 := Apply(c, s, step);
    if f.srvrAddr == a {
      steps, s' := [step], s1;
      assert steps[1..] == [];
    } else {
      var rest;
      rest, s' := BringBack(c, s1, a, e, from, until);
      steps := [step] + rest;
      assert steps[1..] == rest;
    }
  }

  /** A server that is disconnected at `now` stays out of the queue for the whole delay, in every run
      and whatever newer information about it arrives, if and only if no delay of it that ends before
      then was pending. */
  lemma DisconnectedStaysOutIff(c: Config, s: State, a: SockAddr, wasClient: bool, now: i64)
    requires Inv(c, s) && a in s.infos
    ensures Inv(c, Disconnected(s, a, wasClient, now, c.delay))
    ensures StaysOut(c, Disconnected(s, a, wasClient, now, c.delay), a, now, now + c.delay) <==>
              c.delay <= 0 || forall e :: e in s.delays && e.srvrAddr == a ==> !EndsBefore(e, now + c.delay)
  {
    var s1, until := Disconnected(s, a, wasClient, now, c.delay), now + c.delay;
    StepInv(c, s, Disconnect(a, wasClient, now));
    DisconnectedValid(s, a, wasClient, now, c.delay);
    if c.delay <= 0 || forall e :: e in s.delays && e.srvrAddr == a ==> !EndsBefore(e, until) {
      forall steps, s' | Run(c, s1, steps, s') && forall step :: step in steps ==> Keeps(step, a, now, until)
        ensures a in s'.infos && a !in s'.queue
      {
        QuarantineRun(c, s1, steps, s', a, now, until);
      }
    } else {
      var e :| e in s.delays && e.srvrAddr == a && EndsBefore(e, until);
      assert e in s1.delays;
      var steps, s' := BringBack(c, s1, a, e, now, until);
    }
  }
}
