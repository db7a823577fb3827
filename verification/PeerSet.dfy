/** The set of active peers of a node's P2P manager: its indexes, its bounds and what it advertises,
    under every interleaving of the accepting thread, the connecting thread and departing peers. */
module PeerSet {
  import opened Common
  import opened Address
  import opened SrvrInfo

  /** Peers are ordered, and hence identified, by their remote and local addresses. */
  datatype Key = Key(rmtAddr: SockAddr, lclAddr: SockAddr)

  /** `rmtTier` is the tier number of the remote P2P server: as exchanged upon connecting, or as received
      since then. */
  datatype Peer = Peer(isClient: bool, rmtTier: i16)

  datatype Mgr = Mgr(
    isPub: bool,
    stopping: bool,
    maxSrvrPeers: int,
    maxClntPeers: int,
    numSrvrPeers: int,
    numClntPeers: int,
    peerSet: map<Key, Peer>,
    peerMap: map<SockAddr, Key>,
    known: set<SockAddr>,  // the bookkeeper's peers
    srvrInfo: P2pSrvrInfo)

  /** The tier that a connection to the peer's remote node offers. */
  function TierOf(isPub: bool, p: Peer): i16 {
    if isPub then 0 else RmtTierOf(p.rmtTier)
  }

  /** A publisher stays at tier zero. */
  predicate Improves(isPub: bool, mine: i16, offer: i16) {
    !isPub && Adopts(mine, offer)
  }

  function Counted(m: Mgr, p: Peer, delta: int): Mgr {
    if m.isPub || !p.isClient then m.(numSrvrPeers := m.numSrvrPeers + delta)
    else m.(numClntPeers := m.numClntPeers + delta)
  }

  function Advertised(m: Mgr, now: i64): Mgr {
    m.(srvrInfo := m.srvrInfo.(numAvail := ToI16(m.maxSrvrPeers - m.numSrvrPeers), valid := now))
  }

  /** The manager after an offer of `tier`, advertised if that changed it or `force` is set. */
  function Offered(m: Mgr, tier: i16, force: bool, now: i64): Mgr {
    var better := Improves(m.isPub, m.srvrInfo.tier, tier);
    var m1 := if better then m.(srvrInfo := m.srvrInfo.(tier := tier)) else m;
    if better || force then Advertised(m1, now) else m1
  }

  /** How the addition of a peer ends: not done, broken off by an exception, or done. */
  datatype Addition = Refused | Threw | Complete

  /** An addition tells the active peers if it changes the tier or the availability. */
  predicate Notifies(m: Mgr, p: Peer) {
    Improves(m.isPub, m.srvrInfo.tier, TierOf(m.isPub, p)) || !p.isClient
  }

  /** The manager after an addition. If telling the active peers throws, then the peer is in the set
      and counted but not in the two other indexes. */
  function Added(m: Mgr, k: Key, p: Peer, now: i64, throws: bool): (Addition, Mgr) {
    if m.stopping || k in m.peerSet then (Refused, m)
    else
      var m1 := Counted(m.(peerSet := m.peerSet[k := p]), p, 1);
      var m2 := Offered(m1, TierOf(m.isPub, p), !p.isClient, now);
      if throws && Notifies(m, p) then (Threw, m2)
      else (Complete, m2.(peerMap := m2.peerMap[k.rmtAddr := k], known := m2.known + {k.rmtAddr}))
  }

  /** The manager after a peer has sent new information on its P2P server. */
  function Retold(m: Mgr, k: Key, tier: i16): Mgr {
    if k in m.peerSet then m.(peerSet := m.peerSet[k := m.peerSet[k].(rmtTier := tier)]) else m
  }

  /** The tiers that the peers offer. */
  ghost function Tiers(m: Mgr): set<i16> {
    set k | k in m.peerSet :: TierOf(m.isPub, m.peerSet[k])
  }

  function Without(m: Mgr, k: Key): Mgr {
    m.(peerSet := m.peerSet - {k}, peerMap := m.peerMap - {k.rmtAddr}, known := m.known - {k.rmtAddr})
  }

  /** `m'` is the manager after removal of a peer: out of all indexes and, unless the manager is
      stopping, uncounted, with the tier reconsidered over the remaining peers. */
  ghost predicate Removed(m: Mgr, k: Key, now: i64, m': Mgr) {
    if k !in m.peerSet then m' == m
    else
      var m1 := Without(m, k);
      if m.stopping then m' == m1
      else
        var tier := m'.srvrInfo.tier;
        var m2 := Counted(m1, m.peerSet[k], -1).(srvrInfo := m.srvrInfo.(tier := tier));
        && (if m.isPub then tier == m.srvrInfo.tier else Least(tier, m.srvrInfo.tier, Tiers(m1)))
        && m' == if tier != m.srvrInfo.tier || !m.peerSet[k].isClient then Advertised(m2, now) else m2
  }

  /** A removal tells the remaining peers if it changes the tier or the availability. */
  predicate RemovalNotifies(m: Mgr, k: Key, m': Mgr) {
    k in m.peerSet && !m.stopping && (m'.srvrInfo.tier != m.srvrInfo.tier || !m.peerSet[k].isClient)
  }

  /** The three indexes name the same remote addresses. */
  ghost predicate Agreement(m: Mgr) {
    && m.known == m.peerMap.Keys
    && (forall k :: k in m.peerSet ==> k.rmtAddr in m.peerMap && m.peerMap[k.rmtAddr] == k)
    && (forall a :: a in m.peerMap ==> m.peerMap[a] in m.peerSet && m.peerMap[a].rmtAddr == a)
  }

  /** Agreement means equality of the three sets of addresses. */
  lemma AgreementMeans(m: Mgr)
    requires Agreement(m)
    ensures (set k | k in m.peerSet :: k.rmtAddr) == m.peerMap.Keys == m.known
  {
    forall a | a in m.peerMap
      ensures a in (set k | k in m.peerSet :: k.rmtAddr)
    {
      assert m.peerMap[a] in m.peerSet;
    }
  }

  /** An addition keeps the indexes in agreement exactly when the remote address is new to the lookup
      table, for two connections with one remote address but different local addresses are both
      members of the set, and nothing is thrown before the two other indexes are set. */
  lemma AddedKeepsAgreementIff(m: Mgr, k: Key, p: Peer, now: i64, throws: bool)
    requires Agreement(m) && !m.stopping && k !in m.peerSet
    ensures Agreement(Added(m, k, p, now, throws).1) <==>
              k.rmtAddr !in m.peerMap && !(throws && Notifies(m, p))
  {
    var m' := Added(m, k, p, now, throws).1;
    assert m'.peerSet == m.peerSet[k := p];
    if throws && Notifies(m, p) {
      assert m'.peerMap == m.peerMap;
      UnregisteredDisagrees(m, m', k);
    } else {
      assert m'.peerMap == m.peerMap[k.rmtAddr := k] && m'.known == m.known + {k.rmtAddr};
      RegisteringAgreesIff(m, m', k);
    }
  }

  lemma UnregisteredDisagrees(m: Mgr, m': Mgr, k: Key)
    requires Agreement(m) && k !in m.peerSet && k in m'.peerSet && m'.peerMap == m.peerMap
    ensures !Agreement(m')
  {
    if k.rmtAddr in m.peerMap {
      assert m.peerMap[k.rmtAddr] in m.peerSet;
    }
  }

  lemma RegisteringAgreesIff(m: Mgr, m': Mgr, k: Key)
    requires Agreement(m) && k !in m.peerSet && m'.peerSet.Keys == m.peerSet.Keys + {k}
    requires m'.peerMap == m.peerMap[k.rmtAddr := k] && m'.known == m.known + {k.rmtAddr}
    ensures Agreement(m') <==> k.rmtAddr !in m.peerMap
  {
    if k.rmtAddr in m.peerMap {
      var j := m.peerMap[k.rmtAddr];
      assert j in m'.peerSet && j != k;
    } else {
      forall j | j in m'.peerSet
        ensures j.rmtAddr in m'.peerMap && m'.peerMap[j.rmtAddr] == j
      {
        assert j == k || j in m.peerSet;
      }
      forall a | a in m'.peerMap
        ensures m'.peerMap[a] in m'.peerSet && m'.peerMap[a].rmtAddr == a
      {
        assert a == k.rmtAddr || a in m.peerMap;
      }
    }
  }

  ghost function Srvrs(m: Mgr): set<Key> {
    set k | k in m.peerSet && !m.peerSet[k].isClient
  }

  ghost function Clnts(m: Mgr): set<Key> {
    set k | k in m.peerSet && m.peerSet[k].isClient
  }

  // Threads

  /** A thread that adds peers has either seen room for one more or not looked yet. After an exception
      it may look again or have ended, in which case it takes no more steps. */
  datatype Thread = Waiting | SawRoom

  /** `running` are the peers whose own threads were started; `told` is the history of those that have
      sent new information on their servers since they were added. */
  datatype System = System(mgr: Mgr, accepting: Thread, connecting: Thread, running: set<Key>, told: set<Key>,
                           crashed: bool)

  datatype Step =
    | SeeRoomToAccept
    | SeeRoomToConnect
    | AddAccepted(k: Key, p: Peer, now: i64, throws: bool)
    | AddConnected(k: Key, p: Peer, now: i64, throws: bool)
    | GiveUpAccepting
    | GiveUpConnecting
    | Remove(k: Key, now: i64, throws: bool)
    | RecvSrvrInfo(info: P2pSrvrInfo, now: i64)
    | RecvRmtInfo(k: Key, tier: i16)
    | Stop

  function Init(isPub: bool, maxSrvrPeers: i16, maxClntPeers: int, addr: SockAddr, now: i64): System {
    System(Mgr(isPub, false, maxSrvrPeers, maxClntPeers, 0, 0, map[], map[], {},
               P2pSrvrInfo(now, addr, if isPub then 0 else -1, maxSrvrPeers)),
           Waiting, Waiting, {}, {}, false)
  }

  /** The system after an addition: the added peer's thread is started unless something threw. */
  function AfterAddition(s: System, k: Key, p: Peer, now: i64, throws: bool): System {
    var (r, m) := Added(s.mgr, k, p, now, throws);
    s.(mgr := m, running := if r == Complete then s.running + {k} else s.running)
  }

  /** One step of some thread, from `s` to `s'`. Telling the active peers can throw only if there are
      any. A peer is removed by its own thread, where nothing catches an exception of telling the
      others: it ends the process. Telling them of a lower tier that was received makes no difference
      to the manager if it throws. */
  ghost predicate Next(s: System, step: Step, s': System) {
    var m := s.mgr;
    && !s.crashed
    && match step
       case SeeRoomToAccept =>
         s.accepting == Waiting && !m.stopping && m.numSrvrPeers < m.maxSrvrPeers && s' == s.(accepting := SawRoom)
       case SeeRoomToConnect =>
         && !m.isPub && s.connecting == Waiting && !m.stopping && m.numClntPeers < m.maxClntPeers
         && s' == s.(connecting := SawRoom)
       case AddAccepted(k, p, now, throws) =>
         && s.accepting == SawRoom && !p.isClient && (throws ==> m.peerSet != map[])
         && s' == AfterAddition(s, k, p, now, throws).(accepting := Waiting)
       case AddConnected(k, p, now, throws) =>
         && !m.isPub && s.connecting == SawRoom && p.isClient && (throws ==> m.peerSet != map[])
         && s' == AfterAddition(s, k, p, now, throws).(connecting := Waiting)
       case GiveUpAccepting => s' == s.(accepting := Waiting)
       case GiveUpConnecting => s' == s.(connecting := Waiting)
       case Remove(k, now, throws) =>
         && k in s.running && Removed(m, k, now, s'.mgr) && (throws ==> s'.mgr.peerSet != map[])
         && s' == s.(mgr := s'.mgr, running := s.running - {k}, told := s.told - {k},
                     crashed := throws && RemovalNotifies(m, k, s'.mgr))
       case RecvSrvrInfo(info, now) => s' == s.(mgr := Offered(m, info.RmtTier(), false, now))
       case RecvRmtInfo(k, tier) => k in s.running && s' == s.(mgr := Retold(m, k, tier), told := s.told + {k})
       case Stop => s' == s.(mgr := m.(stopping := true))
  }

  ghost predicate Run(s: System, steps: seq<Step>, states: seq<System>) {
    && |states| == |steps| + 1
    && states[0] == s
    && forall i :: 0 <= i < |steps| ==> Next(states[i], steps[i], states[i + 1])
  }

  // Bounds, counts, and availability

  /** The counts are those of the set, and what they leave is advertised. */
  ghost predicate Counts(m: Mgr) {
    && m.numSrvrPeers == |Srvrs(m)|
    && m.numClntPeers == |Clnts(m)|
    && m.srvrInfo.numAvail == m.maxSrvrPeers - m.numSrvrPeers
  }

  /** A publisher has server-side peers only. */
  ghost predicate Sides(m: Mgr) {
    m.isPub ==> forall k :: k in m.peerSet ==> !m.peerSet[k].isClient
  }

  ghost predicate Bounds(s: System) {
    var m := s.mgr;
    && 0 <= m.maxSrvrPeers <= 0x7FFF
    && 0 <= m.numSrvrPeers <= m.maxSrvrPeers
    && 0 <= m.numClntPeers <= m.maxClntPeers
    && (!m.stopping && s.accepting == SawRoom ==> m.numSrvrPeers < m.maxSrvrPeers)
    && (!m.stopping && s.connecting == SawRoom ==> m.numClntPeers < m.maxClntPeers)
    && (m.isPub ==> s.connecting == Waiting)
  }

  /** A peer that offers something better than the present tier has sent it since it was added. */
  ghost predicate UntoldSettled(s: System) {
    forall k :: k in s.mgr.peerSet && k !in s.told ==>
      !Improves(s.mgr.isPub, s.mgr.srvrInfo.tier, TierOf(s.mgr.isPub, s.mgr.peerSet[k]))
  }

  ghost predicate Inv(s: System) {
    && Bounds(s) && Sides(s.mgr) && UntoldSettled(s)
    && s.running <= s.mgr.peerSet.Keys && s.told <= s.running
    && (!s.mgr.stopping ==> Counts(s.mgr))
  }

  lemma AddedMembers(m: Mgr, m': Mgr, k: Key, p: Peer)
    requires k !in m.peerSet && m'.peerSet == m.peerSet[k := p]
    ensures |Srvrs(m')| == |Srvrs(m)| + if p.isClient then 0 else 1
    ensures |Clnts(m')| == |Clnts(m)| + if p.isClient then 1 else 0
  {
    if !p.isClient {
      assert Srvrs(m') == Srvrs(m) + {k} && Clnts(m') == Clnts(m);
    } else {
      assert Clnts(m') == Clnts(m) + {k} && Srvrs(m') == Srvrs(m);
    }
  }

  /** An exception while the peers are told leaves counts and availability right. */
  lemma AddedCounts(m: Mgr, k: Key, p: Peer, now: i64, throws: bool)
    requires !m.stopping && k !in m.peerSet && Counts(m)
    requires 0 <= m.numSrvrPeers <= m.maxSrvrPeers <= 0x7FFF
    requires if m.isPub || !p.isClient then m.numSrvrPeers < m.maxSrvrPeers else m.numClntPeers < m.maxClntPeers
    requires m.isPub ==> !p.isClient
    ensures Counts(Added(m, k, p, now, throws).1)
  {
    AddedMembers(m, Added(m, k, p, now, throws).1, k, p);
  }

  lemma AddedUntoldSettled(s: System, k: Key, p: Peer, now: i64, throws: bool)
    requires UntoldSettled(s)
    ensures UntoldSettled(AfterAddition(s, k, p, now, throws))
  {
  }

  lemma AddedInv(s: System, k: Key, p: Peer, now: i64, throws: bool, s': System)
    requires Inv(s)
    requires if p.isClient
             then
               && !s.mgr.isPub && s.connecting == SawRoom
               && s' == AfterAddition(s, k, p, now, throws).(connecting := Waiting)
             else
               && s.accepting == SawRoom
               && s' == AfterAddition(s, k, p, now, throws).(accepting := Waiting)
    ensures Inv(s')
  {
    var m := s.mgr;
    AddedUntoldSettled(s, k, p, now, throws);
    if !m.stopping && k !in m.peerSet {
      AddedCounts(m, k, p, now, throws);
    }
  }

  lemma RemovedCounts(m: Mgr, k: Key, now: i64, m': Mgr)
    requires !m.stopping && Sides(m) && Counts(m) && Removed(m, k, now, m')
    requires 0 <= m.numSrvrPeers <= m.maxSrvrPeers <= 0x7FFF
    ensures Counts(m')
    ensures m'.numSrvrPeers <= m.numSrvrPeers && m'.numClntPeers <= m.numClntPeers
  {
    if k in m.peerSet {
      assert m.peerSet == m'.peerSet[k := m.peerSet[k]];
      AddedMembers(m', m, k, m.peerSet[k]);
    }
  }

  lemma LeastImproves(tier: i16, before: i16, offers: set<i16>, offer: i16)
    requires Least(tier, before, offers) && !Adopts(before, offer)
    ensures !Adopts(tier, offer)
  {
  }

  lemma RemovedUntoldSettled(s: System, k: Key, now: i64, s': System)
    requires UntoldSettled(s) && Removed(s.mgr, k, now, s'.mgr) && s'.told == s.told - {k}
    ensures UntoldSettled(s')
  {
    var m, m' := s.mgr, s'.mgr;
    forall j | j in m'.peerSet && j !in s'.told
      ensures !Improves(m'.isPub, m'.srvrInfo.tier, TierOf(m'.isPub, m'.peerSet[j]))
    {
      assert !Improves(m.isPub, m.srvrInfo.tier, TierOf(m.isPub, m.peerSet[j])) || j == k;
      if !m.isPub && k in m.peerSet && !m.stopping {
        LeastImproves(m'.srvrInfo.tier, m.srvrInfo.tier, Tiers(Without(m, k)), TierOf(m.isPub, m.peerSet[j]));
      }
    }
  }

  lemma RemovedInv(s: System, k: Key, now: i64, throws: bool, s': System)
    requires Inv(s) && Next(s, Remove(k, now, throws), s')
    ensures Inv(s')
  {
    RemovedUntoldSettled(s, k, now, s');
    if !s.mgr.stopping {
      RemovedCounts(s.mgr, k, now, s'.mgr);
    }
  }

  lemma RetoldInv(s: System, k: Key, tier: i16, s': System)
    requires Inv(s) && Next(s, RecvRmtInfo(k, tier), s')
    ensures Inv(s')
  {
    assert Srvrs(s'.mgr) == Srvrs(s.mgr) && Clnts(s'.mgr) == Clnts(s.mgr);
  }

  lemma NextInv(s: System, step: Step, s': System)
    requires Inv(s) && Next(s, step, s')
    ensures Inv(s')
  {
    match step
    case AddAccepted(k, p, now, throws) => AddedInv(s, k, p, now, throws, s');
    case AddConnected(k, p, now, throws) => AddedInv(s, k, p, now, throws, s');
    case Remove(k, now, throws) => RemovedInv(s, k, now, throws, s');
    case RecvRmtInfo(k, tier) => RetoldInv(s, k, tier, s');
    case _ =>
      assert Srvrs(s'.mgr) == Srvrs(s.mgr) && Clnts(s'.mgr) == Clnts(s.mgr);
  }

  lemma {:induction false} RunInv(s: System, steps: seq<Step>, states: seq<System>, n: nat)
    requires Inv(s) && Run(s, steps, states) && n < |states|
    ensures Inv(states[n])
    ensures states[n].mgr.maxSrvrPeers == s.mgr.maxSrvrPeers && states[n].mgr.maxClntPeers == s.mgr.maxClntPeers
  {
    if n > 0 {
      RunInv(s, steps, states, n - 1);
      NextInv(states[n - 1], steps[n - 1], states[n]);
    }
  }

  lemma InitInv(isPub: bool, maxSrvrPeers: i16, maxClntPeers: nat, addr: SockAddr, t: i64)
    requires maxSrvrPeers > 0
    ensures Inv(Init(isPub, maxSrvrPeers, maxClntPeers, addr, t))
  {
    var s := Init(isPub, maxSrvrPeers, maxClntPeers, addr, t);
    assert Srvrs(s.mgr) == {} && Clnts(s.mgr) == {};
  }

  /** In every interleaving the peers of each side stay within their bound, although the threads
      look before they add and do not hold the lock in between; and before the manager stops the
      counts are those of the set, and the advertised availability is what is left of the bound.
      Neither exceptions nor repeated addresses change that. */
  lemma BoundedPeers(isPub: bool, maxSrvrPeers: i16, maxClntPeers: nat, addr: SockAddr, t: i64,
                     steps: seq<Step>, states: seq<System>, n: nat)
    requires maxSrvrPeers > 0
    requires Run(Init(isPub, maxSrvrPeers, maxClntPeers, addr, t), steps, states) && n < |states|
    ensures var m := states[n].mgr;
      && m.numSrvrPeers <= maxSrvrPeers && m.numClntPeers <= maxClntPeers
      && (!m.stopping ==>
            && m.numSrvrPeers == |Srvrs(m)| && m.numClntPeers == |Clnts(m)|
            && m.srvrInfo.numAvail == maxSrvrPeers - m.numSrvrPeers)
  {
    InitInv(isPub, maxSrvrPeers, maxClntPeers, addr, t);
    RunInv(Init(isPub, maxSrvrPeers, maxClntPeers, addr, t), steps, states, n);
  }

  // Agreement of the indexes

  /** The peer that a step adds to the set without its being registered. */
  function Strands(s: System, step: Step): set<Key> {
    match step
    case AddAccepted(k, p, now, throws) => if Added(s.mgr, k, p, now, throws).0 == Threw then {k} else {}
    case AddConnected(k, p, now, throws) => if Added(s.mgr, k, p, now, throws).0 == Threw then {k} else {}
    case _ => {}
  }

  /** A step adds a peer only if no other active peer has its remote address. */
  predicate Distinct(s: System, step: Step) {
    match step
    case AddAccepted(k, _, _, _) => k in s.mgr.peerSet || k.rmtAddr !in s.mgr.peerMap
    case AddConnected(k, _, _, _) => k in s.mgr.peerSet || k.rmtAddr !in s.mgr.peerMap
    case _ => true
  }

  /** An addition keeps the agreement: it adds nothing, or the address is new and nothing throws. */
  predicate CleanAddition(m: Mgr, k: Key, p: Peer, throws: bool) {
    m.stopping || k in m.peerSet || (k.rmtAddr !in m.peerMap && !(throws && Notifies(m, p)))
  }

  predicate Clean(s: System, step: Step) {
    match step
    case AddAccepted(k, p, _, throws) => CleanAddition(s.mgr, k, p, throws)
    case AddConnected(k, p, _, throws) => CleanAddition(s.mgr, k, p, throws)
    case _ => true
  }

  lemma AgreementStep(s: System, step: Step, s': System)
    requires Agreement(s.mgr) && Next(s, step, s')
    ensures Agreement(s'.mgr) <==> Clean(s, step)
  {
    match step
    case AddAccepted(k, p, now, throws) =>
      if !s.mgr.stopping && k !in s.mgr.peerSet {
        AddedKeepsAgreementIff(s.mgr, k, p, now, throws);
      }
    case AddConnected(k, p, now, throws) =>
      if !s.mgr.stopping && k !in s.mgr.peerSet {
        AddedKeepsAgreementIff(s.mgr, k, p, now, throws);
      }
    case _ =>
  }

  ghost predicate Agreeing(states: seq<System>, n: nat)
    requires n <= |states|
  {
    forall i :: 0 <= i < n ==> Agreement(states[i].mgr)
  }

  ghost predicate AllClean(steps: seq<Step>, states: seq<System>, n: nat)
    requires n <= |steps| <= |states|
  {
    forall i :: 0 <= i < n ==> Clean(states[i], steps[i])
  }

  /** The indexes have agreed throughout a run if and only if every addition so far was of a new
      address and was not broken off. */
  lemma {:induction false} AlwaysAgreesIff(s: System, steps: seq<Step>, states: seq<System>, n: nat)
    requires Agreement(s.mgr) && Run(s, steps, states) && n < |states|
    ensures Agreeing(states, n + 1) <==> AllClean(steps, states, n)
  {
    if n > 0 {
      AlwaysAgreesIff(s, steps, states, n - 1);
      if Agreement(states[n - 1].mgr) {
        AgreementStep(states[n - 1], steps[n - 1], states[n]);
      }
    }
  }

  /** The peers that are in the set but have no thread that could remove them. */
  function Stranded(s: System): set<Key> {
    s.mgr.peerSet.Keys - s.running
  }

  /** The two other indexes are those of the running peers. */
  ghost predicate Registered(s: System) {
    && s.running <= s.mgr.peerSet.Keys
    && s.mgr.known == s.mgr.peerMap.Keys
    && (forall k :: k in s.running ==> k.rmtAddr in s.mgr.peerMap && s.mgr.peerMap[k.rmtAddr] == k)
    && (forall a :: a in s.mgr.peerMap ==> s.mgr.peerMap[a] in s.running && s.mgr.peerMap[a].rmtAddr == a)
  }

  lemma RegisteredAgreesIff(s: System)
    requires Registered(s)
    ensures Agreement(s.mgr) <==> Stranded(s) == {}
  {
    var m := s.mgr;
    if Agreement(m) {
      forall k | k in m.peerSet
        ensures k in s.running
      {
        assert m.peerMap[k.rmtAddr] in s.running;
      }
    }
    if Stranded(s) == {} {
      assert forall k :: k in m.peerSet ==> k in s.running || k in Stranded(s);
    }
  }

  lemma NextStrands(s: System, step: Step, s': System)
    requires s.running <= s.mgr.peerSet.Keys && Next(s, step, s')
    ensures Stranded(s') == Stranded(s) + Strands(s, step)
    ensures s'.running <= s'.mgr.peerSet.Keys
  {
    match step
    case AddAccepted(k, p, now, throws) => AdditionStrands(s, k, p, now, throws);
    case AddConnected(k, p, now, throws) => AdditionStrands(s, k, p, now, throws);
    case _ =>
  }

  lemma AdditionStrands(s: System, k: Key, p: Peer, now: i64, throws: bool)
    requires s.running <= s.mgr.peerSet.Keys
    ensures var s' := AfterAddition(s, k, p, now, throws);
      && Stranded(s') == Stranded(s) + (if Added(s.mgr, k, p, now, throws).0 == Threw then {k} else {})
      && s'.running <= s'.mgr.peerSet.Keys
  {
    var r, m := Added(s.mgr, k, p, now, throws).0, Added(s.mgr, k, p, now, throws).1;
    if r != Refused {
      assert m.peerSet.Keys == s.mgr.peerSet.Keys + {k} && k !in s.mgr.peerSet;
    }
  }

  lemma NextRegistered(s: System, step: Step, s': System)
    requires Registered(s) && Next(s, step, s') && Distinct(s, step)
    ensures Registered(s')
  {
    match step
    case AddAccepted(k, p, now, throws) => AdditionRegistered(s, k, p, now, throws);
    case AddConnected(k, p, now, throws) => AdditionRegistered(s, k, p, now, throws);
    case _ =>
  }

  lemma RegisteredGrows(s: System, s': System, k: Key)
    requires Registered(s) && k.rmtAddr !in s.mgr.peerMap && s'.running == s.running + {k}
    requires s.mgr.peerSet.Keys + {k} <= s'.mgr.peerSet.Keys
    requires s'.mgr.peerMap == s.mgr.peerMap[k.rmtAddr := k] && s'.mgr.known == s.mgr.known + {k.rmtAddr}
    ensures Registered(s')
  {
    forall j | j in s'.running
      ensures j.rmtAddr in s'.mgr.peerMap && s'.mgr.peerMap[j.rmtAddr] == j
    {
      assert j == k || j.rmtAddr in s.mgr.peerMap;
    }
  }

  lemma AdditionRegistered(s: System, k: Key, p: Peer, now: i64, throws: bool)
    requires Registered(s) && (k in s.mgr.peerSet || k.rmtAddr !in s.mgr.peerMap)
    ensures Registered(AfterAddition(s, k, p, now, throws))
  {
    var s' := AfterAddition(s, k, p, now, throws);
    if Added(s.mgr, k, p, now, throws).0 == Complete {
      RegisteredGrows(s, s', k);
    } else {
      assert s'.mgr.peerMap == s.mgr.peerMap && s'.mgr.known == s.mgr.known && s'.running == s.running;
      assert s.mgr.peerSet.Keys <= s'.mgr.peerSet.Keys;
    }
  }

  ghost predicate NoneStranded(steps: seq<Step>, states: seq<System>, n: nat)
    requires n <= |steps| <= |states|
  {
    forall i :: 0 <= i < n ==> Strands(states[i], steps[i]) == {}
  }

  ghost predicate AllDistinct(steps: seq<Step>, states: seq<System>, n: nat)
    requires n <= |steps| <= |states|
  {
    forall i :: 0 <= i < n ==> Distinct(states[i], steps[i])
  }

  lemma NoneStrandedStep(steps: seq<Step>, states: seq<System>, n: nat)
    requires n < |steps| <= |states|
    ensures NoneStranded(steps, states, n + 1) <==>
              NoneStranded(steps, states, n) && Strands(states[n], steps[n]) == {}
  {
  }

  lemma {:induction false} RunRegistered(s: System, steps: seq<Step>, states: seq<System>, n: nat)
    requires Registered(s) && Stranded(s) == {} && Run(s, steps, states) && n < |states|
    requires AllDistinct(steps, states, n)
    ensures Registered(states[n])
    ensures Stranded(states[n]) == {} <==> NoneStranded(steps, states, n)
  {
    if n > 0 {
      assert Distinct(states[n - 1], steps[n - 1]);
      RunRegistered(s, steps, states, n - 1);
      NoneStrandedStep(steps, states, n - 1);
      RegisteredStep(states[n - 1], steps[n - 1], states[n]);
    }
  }

  lemma RegisteredStep(s: System, step: Step, s': System)
    requires Registered(s) && Next(s, step, s') && Distinct(s, step)
    ensures Registered(s')
    ensures Stranded(s') == {} <==> Stranded(s) == {} && Strands(s, step) == {}
  {
    NextRegistered(s, step, s');
    NextStrands(s, step, s');
  }

  /** In every run in which active peers have distinct remote addresses, the three indexes agree if and
      only if no addition so far was broken off by an exception. */
  lemma IndexesAgreeIff(isPub: bool, maxSrvrPeers: i16, maxClntPeers: int, addr: SockAddr, t: i64,
                        steps: seq<Step>, states: seq<System>, n: nat)
    requires Run(Init(isPub, maxSrvrPeers, maxClntPeers, addr, t), steps, states) && n < |states|
    requires AllDistinct(steps, states, n)
    ensures Agreement(states[n].mgr) <==> NoneStranded(steps, states, n)
  {
    var s := Init(isPub, maxSrvrPeers, maxClntPeers, addr, t);
    RunRegistered(s, steps, states, n);
    RegisteredAgreesIff(states[n]);
  }

  /** A stranded peer stays in the set, and before stopping counts, in every continuation: a manager that
      waits for the set to become empty waits for ever. */
  lemma {:induction false} StrandedForever(s: System, steps: seq<Step>, states: seq<System>, n: nat, k: Key)
    requires s.running <= s.mgr.peerSet.Keys && Run(s, steps, states) && n < |states| && k in Stranded(s)
    ensures k in Stranded(states[n]) && states[n].mgr.peerSet != map[]
    ensures states[n].running <= states[n].mgr.peerSet.Keys
  {
    if n > 0 {
      StrandedForever(s, steps, states, n - 1, k);
      NextStrands(states[n - 1], steps[n - 1], states[n]);
    }
    assert k in states[n].mgr.peerSet;
  }

  // The tier upon a removal

  /** What the peer offers at present is better than the present tier. */
  predicate Better(m: Mgr, k: Key)
    requires k in m.peerSet
  {
    Improves(m.isPub, m.srvrInfo.tier, TierOf(m.isPub, m.peerSet[k]))
  }

  /** A removal changes the tier if and only if some remaining peer's present offer is better. */
  lemma RemovalChangesTierIff(m: Mgr, k: Key, now: i64, m': Mgr)
    requires Removed(m, k, now, m') && k in m.peerSet
    ensures m'.srvrInfo.tier != m.srvrInfo.tier <==>
              !m.stopping && exists j :: j in m.peerSet && j != k && Better(m, j)
  {
    var rest := Without(m, k);
    if j :| j in m.peerSet && j != k && Better(m, j) {
      assert j in rest.peerSet && TierOf(m.isPub, rest.peerSet[j]) in Tiers(rest);
    }
    if !m.stopping && !m.isPub && m'.srvrInfo.tier != m.srvrInfo.tier {
      var j :| j in rest.peerSet && TierOf(m.isPub, rest.peerSet[j]) == m'.srvrInfo.tier;
      assert Better(m, j);
    }
  }

  /** In every run, a removal changes the tier only if a remaining peer has sent new information on its
      server since it was added. */
  lemma RemovalKeepsTierUnlessTold(isPub: bool, maxSrvrPeers: i16, maxClntPeers: nat, addr: SockAddr, t: i64,
                                   steps: seq<Step>, states: seq<System>, n: nat)
    requires maxSrvrPeers > 0 && n < |steps| && steps[n].Remove?
    requires Run(Init(isPub, maxSrvrPeers, maxClntPeers, addr, t), steps, states)
    ensures states[n + 1].mgr.srvrInfo.tier != states[n].mgr.srvrInfo.tier ==> states[n].told - {steps[n].k} != {}
  {
    InitInv(isPub, maxSrvrPeers, maxClntPeers, addr, t);
    RunInv(Init(isPub, maxSrvrPeers, maxClntPeers, addr, t), steps, states, n);
    var s, k := states[n], steps[n].k;
    assert Next(s, steps[n], states[n + 1]);
    RemovalChangesTierIff(s.mgr, k, steps[n].now, states[n + 1].mgr);
    if j :| j in s.mgr.peerSet && j != k && Better(s.mgr, j) {
      assert j in s.told - {k};
    }
  }

  // Runs in which it goes wrong

  function AfterRoom(s: System): System {
    s.(accepting := SawRoom)
  }

  function AfterAccept(s: System, k: Key, p: Peer, now: i64, throws: bool): System {
    AfterAddition(s, k, p, now, throws).(accepting := Waiting)
  }

  lemma AcceptTwo(isPub: bool, maxSrvrPeers: i16, maxClntPeers: nat, addr: SockAddr, t: i64,
                  j: Key, p: Peer, k: Key, q: Peer, throws: bool)
      returns (steps: seq<Step>, states: seq<System>)
    requires maxSrvrPeers > 1 && j.rmtAddr != k.rmtAddr && !p.isClient && !q.isClient
    ensures |steps| == 4 && Run(Init(isPub, maxSrvrPeers, maxClntPeers, addr, t), steps, states)
    ensures AllDistinct(steps, states, 4)
    ensures NoneStranded(steps, states, 3) && Strands(states[3], steps[3]) == if throws then {k} else {}
    ensures var s := states[4];
      && s.mgr.peerSet == map[j := p, k := q] && s.running == (if throws then {j} else {j, k}) && s.told == {}
      && !s.crashed && s.mgr.isPub == isPub && !s.mgr.stopping
      && s.mgr.srvrInfo.tier == if isPub then 0 else Adopt(Adopt(-1, RmtTierOf(p.rmtTier)), RmtTierOf(q.rmtTier))
  {
    var s0 := Init(isPub, maxSrvrPeers, maxClntPeers, addr, t);
    var s1 := AfterRoom(s0);
    var s2 := AfterAccept(s1, j, p, t, false);
    var s3 := AfterRoom(s2);
    var s4 := AfterAccept(s3, k, q, t, throws);
    steps := [SeeRoomToAccept, AddAccepted(j, p, t, false), SeeRoomToAccept, AddAccepted(k, q, t, throws)];
    states := [s0, s1, s2, s3, s4];
    assert j in s3.mgr.peerSet && k !in s3.mgr.peerSet;
    assert k in s4.mgr.peerSet;
  }

  /** The second of two peers with different remote addresses is stranded, and the indexes disagree. */
  lemma StrandedReachable(isPub: bool, maxSrvrPeers: i16, maxClntPeers: nat, addr: SockAddr, t: i64, j: Key, k: Key)
      returns (steps: seq<Step>, states: seq<System>)
    requires maxSrvrPeers > 1 && j.rmtAddr != k.rmtAddr
    ensures |steps| == 4 && Run(Init(isPub, maxSrvrPeers, maxClntPeers, addr, t), steps, states)
    ensures AllDistinct(steps, states, 4)
    ensures k in Stranded(states[4]) && !Agreement(states[4].mgr)
  {
    var p := Peer(false, -1);
    steps, states := AcceptTwo(isPub, maxSrvrPeers, maxClntPeers, addr, t, j, p, k, p, true);
    assert k in states[4].mgr.peerSet;
    IndexesAgreeIff(isPub, maxSrvrPeers, maxClntPeers, addr, t, steps, states, 4);
  }

  /** A peer with tier 5 is accepted and later sends tier 1; that another peer leaves then changes the
      subscriber's tier from 6 to 2. */
  lemma RemovalChangesTier(maxSrvrPeers: i16, maxClntPeers: nat, addr: SockAddr, t: i64, j: Key, k: Key)
      returns (steps: seq<Step>, states: seq<System>)
    requires maxSrvrPeers > 1 && j.rmtAddr != k.rmtAddr
    ensures |steps| == 6 && Run(Init(false, maxSrvrPeers, maxClntPeers, addr, t), steps, states)
    ensures AllDistinct(steps, states, 6) && NoneStranded(steps, states, 6)
    ensures steps[5].Remove? && states[5].mgr.srvrInfo.tier == 6 && states[6].mgr.srvrInfo.tier == 2
  {
    var p, q := Peer(false, 5), Peer(false, -1);
    steps, states := AcceptTwo(false, maxSrvrPeers, maxClntPeers, addr, t, j, p, k, q, false);
    var s5, s6 := TellAndLeave(states[4], j, k, t);
    steps := steps + [RecvRmtInfo(j, 1), Remove(k, t, false)];
    states := states + [s5, s6];
    assert Next(states[4], steps[4], states[5]) && Next(states[5], steps[5], states[6]);
  }

  lemma TellAndLeave(s: System, j: Key, k: Key, now: i64) returns (s5: System, s6: System)
    requires j != k && !s.crashed && s.running == {j, k} && s.told == {}
    requires !s.mgr.isPub && !s.mgr.stopping && s.mgr.srvrInfo.tier == 6
    requires s.mgr.peerSet == map[j := Peer(false, 5), k := Peer(false, -1)]
    ensures Next(s, RecvRmtInfo(j, 1), s5) && Next(s5, Remove(k, now, false), s6)
    ensures s5.mgr.srvrInfo.tier == 6 && s6.mgr.srvrInfo.tier == 2
  {
    s5 := s.(mgr := Retold(s.mgr, j, 1), told := {j});
    var m := OtherLeaves(s5.mgr, j, k, now);
    s6 := s5.(mgr := m, running := {j}, told := {j});
    assert s5.running - {k} == {j} && s5.told - {k} == {j};
  }

  lemma OtherLeaves(m: Mgr, j: Key, k: Key, now: i64) returns (m': Mgr)
    requires j != k && !m.isPub && !m.stopping && m.srvrInfo.tier == 6
    requires m.peerSet == map[j := Peer(false, 1), k := Peer(false, -1)]
    ensures Removed(m, k, now, m') && m'.srvrInfo.tier == 2
  {
    var m1 := Without(m, k);
    assert m1.peerSet == map[j := Peer(false, 1)];
    assert TierOf(false, m1.peerSet[j]) == 2;
    assert Tiers(m1) == {2};
    var m2 := Counted(m1, m.peerSet[k], -1);
    m' := Advertised(m2.(srvrInfo := m.srvrInfo.(tier := 2)), now);
  }

  // The manager as the object that it is

  /** The peers that are told when all are: those with a connection, but for the publisher's. */
  function Listeners(m: Mgr, connected: set<Key>): set<Key> {
    set k | k in m.peerSet && k in connected && m.peerSet[k].rmtTier != 0
  }

  class P2pMgr {
    const isPub: bool
    const maxSrvrPeers: i16
    const maxClntPeers: int
    var stopping: bool
    var numSrvrPeers: int
    var numClntPeers: int
    var peerSet: map<Key, Peer>
    var peerMap: map<SockAddr, Key>
    var known: set<SockAddr>
    var srvrInfo: P2pSrvrInfo
    /** What was queued for sending to whom by the latest advertisement. */
    var notices: map<Key, P2pSrvrInfo>
    /** The active peers with an exception that one of their threads set and nobody has seen yet. */
    var failed: set<Key>

    predicate Valid()
      reads this
    {
      failed <= peerSet.Keys
    }

    function State(): Mgr
      reads this
    {
      Mgr(isPub, stopping, maxSrvrPeers, maxClntPeers, numSrvrPeers, numClntPeers, peerSet, peerMap, known, srvrInfo)
    }

    constructor (isPub: bool, maxSrvrPeers: i16, maxClntPeers: int, addr: SockAddr, now: i64)
      ensures Valid() && State() == Init(isPub, maxSrvrPeers, maxClntPeers, addr, now).mgr && failed == {}
    {
      this.isPub, this.maxSrvrPeers, this.maxClntPeers := isPub, maxSrvrPeers, maxClntPeers;
      stopping, numSrvrPeers, numClntPeers := false, 0, 0;
      peerSet, peerMap, known, notices, failed := map[], map[], {}, map[], {};
      srvrInfo := P2pSrvrInfo(now, addr, if isPub then 0 else -1, maxSrvrPeers);
    }

    method UpdateTier(tier: i16) returns (updated: bool)
      modifies this`srvrInfo
      ensures updated == Improves(isPub, old(srvrInfo.tier), tier)
      ensures srvrInfo == if updated then old(srvrInfo).(tier := tier) else old(srvrInfo)
    {
      if isPub || !ValidTier(tier) || tier == 0 || (ValidTier(srvrInfo.tier) && srvrInfo.tier <= tier) {
        return false;
      }
      srvrInfo := srvrInfo.(tier := tier);
      return true;
    }

    /** A thread of an active peer throws. */
    method Fail(k: Key)
      requires Valid() && k in peerSet
      modifies this`failed
      ensures Valid() && failed == old(failed) + {k}
    {
      failed := failed + {k};
    }

    /** The peer's own thread throws that exception, which clears it. */
    method Rethrow(k: Key)
      requires Valid()
      modifies this`failed
      ensures Valid() && failed == old(failed) - {k}
    {
      failed := failed - {k};
    }

    /** Tells the active peers, in any order. The first one that has failed makes it throw, which clears
        that peer's exception; a lost connection and a publisher are passed over. */
    method NotifySrvrInfo(now: i64, connected: set<Key>) returns (threw: bool)
      requires Valid()
      modifies this`srvrInfo, this`notices, this`failed
      ensures Valid() && State() == Advertised(old(State()), now)
      ensures threw <==> old(failed) != {}
      ensures if threw then exists k :: k in old(failed) && failed == old(failed) - {k} else failed == {}
      ensures notices.Keys <= Listeners(State(), connected) - old(failed)
      ensures !threw ==> forall k :: k in notices <==> k in peerSet && k in connected && peerSet[k].rmtTier != 0
      ensures srvrInfo.valid == now && srvrInfo.srvrAddr == old(srvrInfo.srvrAddr)
      ensures srvrInfo.tier == old(srvrInfo.tier)
      ensures !threw ==> notices.Keys == Listeners(State(), connected)
      ensures forall k :: k in notices ==> notices[k] == srvrInfo
    {
      srvrInfo := srvrInfo.(numAvail := ToI16(maxSrvrPeers - numSrvrPeers), valid := now);
      notices := map[];
      var todo := peerSet.Keys;
      while todo != {}
        invariant State() == Advertised(old(State()), now) && failed == old(failed)
        invariant failed <= todo <= peerSet.Keys
        invariant notices.Keys == Listeners(State(), connected) - todo
        invariant forall k :: k in notices ==> notices[k] == srvrInfo
      {
        var k :| k in todo;
        if k in failed {
          failed := failed - {k};
          return true;
        }
        if k in connected && peerSet[k].rmtTier != 0 {
          notices := notices[k := srvrInfo];
        }
        todo := todo - {k};
      }
      threw := false;
    }

    /** The added peer is among those that are told. */
    method AddPeer(k: Key, p: Peer, now: i64, connected: set<Key>) returns (r: Addition)
      requires Valid()
      modifies this
      ensures Valid() && (r, State()) == Added(old(State()), k, p, now, old(failed) != {})
      ensures if r == Threw then exists j :: j in old(failed) && failed == old(failed) - {j} else failed == old(failed)
      ensures r == Complete && Notifies(old(State()), p) ==>
                && notices.Keys == Listeners(State(), connected)
                && forall j :: j in notices ==> notices[j] == srvrInfo
      ensures r == Refused <==> stopping || k in old(peerSet)
      ensures r != Refused && p.isClient && srvrInfo.tier == old(srvrInfo.tier) ==>
                r == Complete && srvrInfo == old(srvrInfo) && notices == old(notices)
      ensures r != Refused && (!p.isClient || srvrInfo.tier != old(srvrInfo.tier)) ==>
                srvrInfo.valid == now && (r == Threw <==> old(failed) != {})
    {
      if stopping || k in peerSet {
        return Refused;
      }
      peerSet := peerSet[k := p];
      var threw := CountIn(p, now, connected);
      if threw {
        return Threw;
      }
      peerMap := peerMap[k.rmtAddr := k];
      known := known + {k.rmtAddr};
      r := Complete;
    }

    /** Counts a peer that has been added to the set and considers its tier. */
    method CountIn(p: Peer, now: i64, connected: set<Key>) returns (threw: bool)
      requires Valid()
      modifies this`numSrvrPeers, this`numClntPeers, this`srvrInfo, this`notices, this`failed
      ensures Valid()
      ensures State() == Offered(Counted(old(State()), p, 1), TierOf(isPub, p), !p.isClient, now)
      ensures threw <==> Notifies(old(State()), p) && old(failed) != {}
      ensures if threw then exists j :: j in old(failed) && failed == old(failed) - {j} else failed == old(failed)
      ensures Notifies(old(State()), p) <==> srvrInfo.tier != old(srvrInfo.tier) || !p.isClient
      ensures Notifies(old(State()), p) ==> srvrInfo.valid == now
      ensures Notifies(old(State()), p) && !threw ==>
                && notices.Keys == Listeners(State(), connected)
                && forall j :: j in notices ==> notices[j] == srvrInfo
      ensures !Notifies(old(State()), p) ==> srvrInfo == old(srvrInfo) && notices == old(notices)
    {
      threw := false;
      if isPub || !p.isClient {
        numSrvrPeers := numSrvrPeers + 1;
      } else {
        numClntPeers := numClntPeers + 1;
      }
      var updated := UpdateTier(if isPub then 0 else RmtTierOf(p.rmtTier));
      if updated || !p.isClient {
        threw := NotifySrvrInfo(now, connected);
      }
    }

    /** The removed peer is not among those that are told. */
    method RemovePeer(k: Key, now: i64, connected: set<Key>) returns (threw: bool)
      requires Valid()
      modifies this
      ensures Valid() && Removed(old(State()), k, now, State())
      ensures threw <==> RemovalNotifies(old(State()), k, State()) && old(failed) - {k} != {}
      ensures RemovalNotifies(old(State()), k, State()) && !threw ==>
                && notices.Keys == Listeners(State(), connected)
                && forall j :: j in notices ==> notices[j] == srvrInfo
      ensures threw <==>
                && k in old(peerSet) && !stopping && old(failed) - {k} != {}
                && (srvrInfo.tier != old(srvrInfo.tier) || !old(peerSet)[k].isClient)
    {
      threw := false;
      if k !in peerSet {
        return;
      }
      var p := peerSet[k];
      peerSet, peerMap, known := peerSet - {k}, peerMap - {k.rmtAddr}, known - {k.rmtAddr};
      failed := failed - {k};
      if !stopping {
        threw := Uncount(p, now, connected);
      }
    }

    /** Uncounts a peer that has been removed and reconsiders the tier. */
    method Uncount(p: Peer, now: i64, connected: set<Key>) returns (threw: bool)
      requires Valid()
      modifies this
      ensures Valid() && peerSet == old(peerSet)
      ensures if isPub then srvrInfo.tier == old(srvrInfo.tier)
              else Least(srvrInfo.tier, old(srvrInfo.tier), Tiers(old(State())))
      ensures var m := Counted(old(State()), p, -1).(srvrInfo := old(srvrInfo).(tier := srvrInfo.tier));
        State() == if srvrInfo.tier != old(srvrInfo.tier) || !p.isClient then Advertised(m, now) else m
      ensures threw <==> (srvrInfo.tier != old(srvrInfo.tier) || !p.isClient) && old(failed) != {}
      ensures (srvrInfo.tier != old(srvrInfo.tier) || !p.isClient) && !threw ==>
                && notices.Keys == Listeners(State(), connected)
                && forall j :: j in notices ==> notices[j] == srvrInfo
    {
      threw := false;
      if isPub || !p.isClient {
        numSrvrPeers := numSrvrPeers - 1;
      } else {
        numClntPeers := numClntPeers - 1;
      }
      var tierChanged := Rescan();
      if tierChanged || !p.isClient {
        threw := NotifySrvrInfo(now, connected);
      }
    }

    /** Offers every remaining peer's tier, in any order. */
    method Rescan() returns (tierChanged: bool)
      modifies this`srvrInfo
      ensures srvrInfo == old(srvrInfo).(tier := srvrInfo.tier)
      ensures tierChanged <==> srvrInfo.tier != old(srvrInfo.tier)
      ensures if isPub then !tierChanged else Least(srvrInfo.tier, old(srvrInfo.tier), Tiers(State()))
    {
      tierChanged := false;
      var todo := peerSet.Keys;
      ghost var offers: set<i16> := {};
      while todo != {}
        invariant todo <= peerSet.Keys
        invariant offers == set k | k in peerSet && k !in todo :: TierOf(isPub, peerSet[k])
        invariant srvrInfo == old(srvrInfo).(tier := srvrInfo.tier)
        invariant tierChanged <==> srvrInfo.tier != old(srvrInfo.tier)
        invariant if isPub then !tierChanged else Least(srvrInfo.tier, old(srvrInfo.tier), offers)
      {
        var k :| k in todo;
        ghost var before := srvrInfo.tier;
        var offer := if isPub then 0 else RmtTierOf(peerSet[k].rmtTier);
        var updated := UpdateTier(offer);
        LeastAdopt(before, old(srvrInfo.tier), offers, offer);
        offers := offers + {offer};
        todo := todo - {k};
        if updated {
          tierChanged := true;
        }
      }
      assert offers == Tiers(State());
    }

    method RecvNotice(info: P2pSrvrInfo, now: i64, connected: set<Key>) returns (threw: bool)
      requires Valid()
      modifies this`srvrInfo, this`notices, this`failed
      ensures Valid() && State() == Offered(old(State()), info.RmtTier(), false, now)
      ensures threw <==> Improves(isPub, old(srvrInfo.tier), info.RmtTier()) && old(failed) != {}
      ensures srvrInfo.tier ==
                if !isPub && 0 <= info.tier < 0x7FFF && (old(srvrInfo.tier) < 0 || info.tier + 1 < old(srvrInfo.tier))
                then info.tier + 1
                else old(srvrInfo.tier)
    {
      InfoRmtTier(info);
      threw := false;
      var updated := UpdateTier(info.RmtTier());
      if updated {
        threw := NotifySrvrInfo(now, connected);
      }
    }

    /** What a peer receives from its remote counterpart on the latter's server. Information without
        an address is refused. */
    method RecvRmtInfo(k: Key, info: P2pSrvrInfo) returns (ok: bool)
      requires Valid() && k in peerSet
      modifies this`peerSet
      ensures Valid()
      ensures ok <==> info.srvrAddr != NoSock
      ensures State() == if ok then Retold(old(State()), k, info.tier) else old(State())
    {
      ok := info.srvrAddr != NoSock;
      if ok {
        peerSet := peerSet[k := peerSet[k].(rmtTier := info.tier)];
      }
    }
  }
}
