/** Tier numbers across the whole network: a distance protocol in which nodes tell their neighbours
    how far they are from the publisher. Messages may be lost, repeated and reordered. */
module TierNetwork {
  import opened Common
  import opened SrvrInfo

  type Node = nat

  const PUBLISHER: Node := 0

  datatype Message = Message(src: Node, dst: Node, tier: i16)

  datatype Network = Network(
    tiers: map<Node, i16>,       // of the subscribers that have adopted a tier
    ever: set<(Node, Node)>,     // connections ever made, in both directions
    live: set<(Node, Node)>,     // connections that still exist
    sent: set<Message>,          // everything that was ever sent
    offered: set<(Node, i16)>)   // tiers that were offered to a node and processed by it

  datatype Step =
    | Connect(u: Node, v: Node)
    | Disconnect(u: Node, v: Node)
    | Notify(u: Node, v: Node)
    | Receive(m: Message)

  const INIT := Network(map[], {}, {}, {}, {})

  function Tier(n: Network, u: Node): i16 {
    if u == PUBLISHER then 0 else if u in n.tiers then n.tiers[u] else -1
  }

  predicate Enabled(n: Network, step: Step) {
    match step
    case Connect(u, v) => u != v
    case Disconnect(u, v) => (u, v) in n.live
    case Notify(u, v) => (u, v) in n.live
    case Receive(m) => m in n.sent
  }

  /** Both ends of a new connection send what they know about their own servers. */
  function Apply(n: Network, step: Step): Network
    requires Enabled(n, step)
  {
    match step
    case Connect(u, v) =>
      n.(ever := n.ever + {(u, v), (v, u)},
         live := n.live + {(u, v), (v, u)},
         sent := n.sent + {Message(u, v, Tier(n, u)), Message(v, u, Tier(n, v))})
    case Disconnect(u, v) => n.(live := n.live - {(u, v), (v, u)})
    case Notify(u, v) => n.(sent := n.sent + {Message(u, v, Tier(n, u))})
    case Receive(m) =>
      if m.dst == PUBLISHER then n
      else
        var offer := RmtTierOf(m.tier);
        n.(tiers := n.tiers[m.dst := Adopt(Tier(n, m.dst), offer)], offered := n.offered + {(m.dst, offer)})
  }

  ghost predicate Run(n: Network, steps: seq<Step>, n': Network)
    decreases |steps|
  {
    if steps == [] then n == n'
    else Enabled(n, steps[0]) && Run(Apply(n, steps[0]), steps[1..], n')
  }

  ghost predicate Reachable(n: Network) {
    exists steps :: Run(INIT, steps, n)
  }

  /** A walk of exactly `k` of the given connections leads from `u` to the publisher. */
  ghost predicate Walk(conns: set<(Node, Node)>, u: Node, k: nat)
    decreases k
  {
    if k == 0 then u == PUBLISHER
    else exists v :: (u, v) in conns && Walk(conns, v, k - 1)
  }

  ghost function Offers(n: Network, u: Node): set<i16> {
    set o | o in n.offered && o.0 == u :: o.1
  }

  ghost predicate Symmetric(conns: set<(Node, Node)>) {
    forall u, v :: (u, v) in conns ==> (v, u) in conns
  }

  ghost predicate Inv(n: Network) {
    && n.live <= n.ever
    && (forall u :: ValidTier(Tier(n, u)) ==> Walk(n.ever, u, Tier(n, u)))
    && (forall m :: m in n.sent ==>
          (m.src, m.dst) in n.ever && (m.dst, m.src) in n.ever
          && (ValidTier(m.tier) ==> Walk(n.ever, m.src, m.tier)))
    && Symmetric(n.ever) && Symmetric(n.live)
    && (forall u :: u != PUBLISHER ==> Least(Tier(n, u), -1, Offers(n, u)))
  }

  lemma {:induction false} WalkGrows(conns: set<(Node, Node)>, more: set<(Node, Node)>, u: Node, k: nat)
    requires Walk(conns, u, k) && conns <= more
    ensures Walk(more, u, k)
    decreases k
  {
    if k > 0 {
      var v :| (u, v) in conns && Walk(conns, v, k - 1);
      WalkGrows(conns, more, v, k - 1);
    }
  }

  lemma ReceiveInv(n: Network, m: Message)
    requires Inv(n) && m in n.sent
    ensures Inv(Apply(n, Receive(m)))
  {
    var n' := Apply(n, Receive(m));
    if m.dst != PUBLISHER {
      var offer := RmtTierOf(m.tier);
      RmtTierMeaning(m.tier);
      forall u | ValidTier(Tier(n', u))
        ensures Walk(n'.ever, u, Tier(n', u))
      {
        if u == m.dst && Adopts(Tier(n, u), offer) {
          assert (u, m.src) in n.ever && Walk(n.ever, m.src, offer - 1);
        } else {
          assert Tier(n', u) == Tier(n, u);
        }
      }
      forall u | u != PUBLISHER
        ensures Least(Tier(n', u), -1, Offers(n', u))
      {
        if u == m.dst {
          LeastAdopt(Tier(n, u), -1, Offers(n, u), offer);
          assert Offers(n', u) == Offers(n, u) + {offer} by {
            assert (u, offer) in n'.offered;
          }
        } else {
          assert Offers(n', u) == Offers(n, u);
        }
      }
    }
  }

  lemma StepInv(n: Network, step: Step)
    requires Inv(n) && Enabled(n, step)
    ensures Inv(Apply(n, step))
  {
    var n' := Apply(n, step);
    match step
    case Receive(m) => ReceiveInv(n, m);
    case _ =>
      forall u, k: nat | Walk(n.ever, u, k)
        ensures Walk(n'.ever, u, k)
      {
        WalkGrows(n.ever, n'.ever, u, k);
      }
      forall u
        ensures Tier(n', u) == Tier(n, u) && Offers(n', u) == Offers(n, u)
      {
      }
  }

  lemma {:induction false} RunInv(n: Network, steps: seq<Step>, n': Network)
    requires Inv(n) && Run(n, steps, n')
    ensures Inv(n')
    ensures forall u :: ValidTier(Tier(n, u)) ==> ValidTier(Tier(n', u)) && Tier(n', u) <= Tier(n, u)
    decreases |steps|
  {
    if steps != [] {
      StepInv(n, steps[0]);
      RunInv(Apply(n, steps[0]), steps[1..], n');
    }
  }

  lemma ReachableInv(n: Network)
    requires Reachable(n)
    ensures Inv(n)
  {
    var steps :| Run(INIT, steps, n);
    assert Inv(INIT);
    RunInv(INIT, steps, n);
  }

  /** Every valid tier, held or sent, is the length of a walk to the publisher over connections
      that were made at some time; it is therefore never below the distance over them. */
  lemma TierSound(n: Network, u: Node, d: nat)
    requires Reachable(n)
    requires forall k: nat :: k < d ==> !Walk(n.ever, u, k)
    ensures ValidTier(Tier(n, u)) ==> Walk(n.ever, u, Tier(n, u)) && Tier(n, u) >= d
    ensures forall m :: m in n.sent && m.src == u && ValidTier(m.tier) ==> Walk(n.ever, u, m.tier) && m.tier >= d
  {
    ReachableInv(n);
  }

  /** A subscriber's tier is the least valid tier that it was ever offered. */
  lemma TierIsLeastOffer(n: Network, u: Node)
    requires Reachable(n) && u != PUBLISHER
    ensures ValidTier(Tier(n, u)) ==> (u, Tier(n, u)) in n.offered && Tier(n, u) > 0
    ensures forall t :: (u, t) in n.offered && ValidTier(t) ==> ValidTier(Tier(n, u)) && Tier(n, u) <= t
  {
    ReachableInv(n);
    assert Least(Tier(n, u), -1, Offers(n, u));
    forall t | (u, t) in n.offered && ValidTier(t)
      ensures ValidTier(Tier(n, u)) && Tier(n, u) <= t
    {
      assert t in Offers(n, u);
      OffersAreNotZero(n, u, t);
    }
  }

  lemma {:induction false} RunOffers(n: Network, steps: seq<Step>, n': Network)
    requires Run(n, steps, n') && (forall o :: o in n.offered ==> o.1 != 0)
    ensures forall o :: o in n'.offered ==> o.1 != 0
    decreases |steps|
  {
    if steps != [] {
      if steps[0].Receive? {
        RmtTierMeaning(steps[0].m.tier);
      }
      RunOffers(Apply(n, steps[0]), steps[1..], n');
    }
  }

  lemma OffersAreNotZero(n: Network, u: Node, t: i16)
    requires Reachable(n) && (u, t) in n.offered
    ensures t != 0
  {
    var steps :| Run(INIT, steps, n);
    RunOffers(INIT, steps, n);
  }

  /** A tier, once valid, never rises in any run. */
  lemma TierNeverRises(n: Network, steps: seq<Step>, n': Network, u: Node)
    requires Reachable(n) && Run(n, steps, n') && ValidTier(Tier(n, u))
    ensures ValidTier(Tier(n', u)) && Tier(n', u) <= Tier(n, u)
  {
    ReachableInv(n);
    RunInv(n, steps, n');
  }

  /** Over an existing connection a node can always be told its neighbour's present tier, and has then been
      offered one more. Upon connecting, both are told without further ado. */
  lemma OfferArrives(n: Network, u: Node, v: Node)
    requires (u, v) in n.live && v != PUBLISHER
    ensures Enabled(n, Notify(u, v))
    ensures var n1 := Apply(n, Notify(u, v));
      && Enabled(n1, Receive(Message(u, v, Tier(n, u))))
      && (v, RmtTierOf(Tier(n, u))) in Apply(n1, Receive(Message(u, v, Tier(n, u)))).offered
  {
  }

  lemma ConnectingTells(n: Network, u: Node, v: Node)
    requires u != v
    ensures Enabled(n, Connect(u, v))
    ensures var n1 := Apply(n, Connect(u, v));
      && (u, v) in n1.live && (v, u) in n1.live
      && Enabled(n1, Receive(Message(u, v, Tier(n, u)))) && Enabled(n1, Receive(Message(v, u, Tier(n, v))))
  {
  }

  /** Every node has processed the present tiers of its neighbours over the given connections. */
  ghost predicate Settled(n: Network, conns: set<(Node, Node)>) {
    forall u, v :: (u, v) in conns && v != PUBLISHER ==> (v, RmtTierOf(Tier(n, u))) in n.offered
  }

  lemma {:induction false} SettledReaches(n: Network, conns: set<(Node, Node)>, u: Node, k: nat)
    requires Reachable(n) && Symmetric(conns) && Settled(n, conns) && Walk(conns, u, k) && k <= 0x7FFF
    ensures ValidTier(Tier(n, u)) && Tier(n, u) <= k
    decreases k
  {
    if k > 0 && u != PUBLISHER {
      var v :| (u, v) in conns && Walk(conns, v, k - 1);
      SettledReaches(n, conns, v, k - 1);
      assert (v, u) in conns;
      RmtTierMeaning(Tier(n, v));
      TierIsLeastOffer(n, u);
    }
  }

  /** Once the tiers along some connections have been processed, those that still exist for instance, a
      tier is at most the length of every walk over them of a representable number of hops; and it is the
      length of a walk over connections that were made at some time. */
  lemma SettledTierIsBounded(n: Network, conns: set<(Node, Node)>, u: Node)
    requires Reachable(n) && Symmetric(conns) && Settled(n, conns)
    ensures forall k: nat :: k <= 0x7FFF && Walk(conns, u, k) ==> ValidTier(Tier(n, u)) && Tier(n, u) <= k
    ensures ValidTier(Tier(n, u)) ==> Walk(n.ever, u, Tier(n, u))
    ensures Symmetric(n.ever) && Symmetric(n.live)
  {
    ReachableInv(n);
    forall k: nat | k <= 0x7FFF && Walk(conns, u, k)
      ensures ValidTier(Tier(n, u)) && Tier(n, u) <= k
    {
      SettledReaches(n, conns, u, k);
    }
  }

  /** Once settled over all connections that were ever made, a tier is valid exactly when the publisher
      can be reached in a representable number of hops, and it is then the length of a shortest walk. */
  lemma SettledTierIsDistance(n: Network, u: Node)
    requires Reachable(n) && Settled(n, n.ever)
    ensures ValidTier(Tier(n, u)) <==> exists k: nat :: k <= 0x7FFF && Walk(n.ever, u, k)
    ensures ValidTier(Tier(n, u)) ==>
              Walk(n.ever, u, Tier(n, u)) && forall k: nat :: k < Tier(n, u) ==> !Walk(n.ever, u, k)
  {
    ReachableInv(n);
    SettledTierIsBounded(n, n.ever, u);
    if ValidTier(Tier(n, u)) {
      var k: nat := Tier(n, u);
      assert Walk(n.ever, u, k);
    }
  }

  lemma {:induction false} NoLiveWalk(u: Node, k: nat)
    requires u != PUBLISHER
    ensures !Walk({}, u, k)
  {
  }

  /** "Ever made" cannot be replaced by "still existing": a subscriber keeps its tier when its only
      connection is gone. */
  lemma TierOutlivesConnection() returns (n: Network)
    ensures Reachable(n) && Tier(n, 1) == 1
    ensures forall k: nat :: !Walk(n.live, 1, k)
  {
    var steps := [Connect(PUBLISHER, 1), Receive(Message(PUBLISHER, 1, 0)), Disconnect(PUBLISHER, 1)];
    var n1 := Apply(INIT, steps[0]);
    var n2 := Apply(n1, steps[1]);
    n := Apply(n2, steps[2]);
    assert Run(n, [], n);
    assert steps[2..][1..] == [] && Run(n2, steps[2..], n);
    assert steps[1..][1..] == steps[2..] && Run(n1, steps[1..], n);
    assert Run(INIT, steps, n);
    assert n.live == {};
    forall k: nat
      ensures !Walk(n.live, 1, k)
    {
      NoLiveWalk(1, k);
    }
  }
}
