/** What is known about a P2P server, and the rule that turns a remote tier into a local one. */
module SrvrInfo {
  import opened Common
  import opened Address

  datatype P2pSrvrInfo = P2pSrvrInfo(valid: i64, srvrAddr: SockAddr, tier: i16, numAvail: i16) {
    predicate ValidMetrics() {
      tier >= 0 && numAvail >= 0
    }

    /** The tier of a node that connects to this server. Might be invalid. */
    function RmtTier(): i16 {
      RmtTierOf(tier)
    }
  }

  predicate ValidTier(tier: i16) {
    tier >= 0
  }

  function RmtTierOf(tier: i16): i16 {
    if ValidTier(tier) then ToI16(tier + 1) else -1
  }

  /** An offered tier is one hop more than the remote node's, or invalid; it is never zero. */
  lemma RmtTierMeaning(tier: i16)
    ensures ValidTier(RmtTierOf(tier)) <==> 0 <= tier < 0x7FFF
    ensures ValidTier(RmtTierOf(tier)) ==> RmtTierOf(tier) == tier + 1
    ensures RmtTierOf(tier) != 0
  {
    if tier == 0x7FFF {
      assert ToI16(0x8000) == -0x8000;
    }
  }

  /** What a server with the given information offers depends on its tier alone. */
  lemma InfoRmtTier(info: P2pSrvrInfo)
    ensures info.RmtTier() == if 0 <= info.tier < 0x7FFF then info.tier + 1 else if info.tier < 0 then -1 else -0x8000
  {
    RmtTierMeaning(info.tier);
  }

  /** Whether a subscriber with tier `mine` adopts an offered tier. */
  predicate Adopts(mine: i16, offer: i16) {
    ValidTier(offer) && offer != 0 && !(ValidTier(mine) && mine <= offer)
  }

  function Adopt(mine: i16, offer: i16): i16 {
    if Adopts(mine, offer) then offer else mine
  }

  /** `tier` is what is left of `before` and the offers: the least valid non-zero offer, unless
      `before` was valid and no greater. */
  ghost predicate Least(tier: i16, before: i16, offers: set<i16>) {
    && (tier == before || (tier in offers && ValidTier(tier) && tier != 0))
    && (ValidTier(before) ==> ValidTier(tier) && tier <= before)
    && (forall t :: t in offers && ValidTier(t) && t != 0 ==> ValidTier(tier) && tier <= t)
  }

  /** The remaining tier does not depend on the order of the offers. */
  lemma LeastUnique(t1: i16, t2: i16, before: i16, offers: set<i16>)
    requires Least(t1, before, offers) && Least(t2, before, offers)
    ensures t1 == t2
  {
  }

  lemma LeastAdopt(tier: i16, before: i16, offers: set<i16>, offer: i16)
    requires Least(tier, before, offers)
    ensures Least(Adopt(tier, offer), before, offers + {offer})
  {
  }
}
