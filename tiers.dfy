/**
 * The declared-value escalation: the thresholds a value passes form a prefix
 * of the three tiers, grow with the value, and decide both the extra reasons
 * and the extra documents, tier by tier.
 */
module TierProperties {
  import opened Reasons
  import opened Compliance

  /** The three tiers, lowest threshold first. */
  const AllTiers: seq<Tier> := [OneLakh, TwentyFiveLakh, OneCrore]

  /** A value reaches a tier exactly when it is strictly above its threshold. */
  lemma TiersReachedExactly(value: real, tier: Tier)
    ensures tier in TiersReached(value) <==> value > tier.Threshold()
  {
  }

  /** The tiers reached are always the lowest ones: a prefix of `AllTiers`. */
  lemma TiersReachedArePrefix(value: real)
    ensures TiersReached(value) == AllTiers[..|TiersReached(value)|]
  {
  }

  /** A larger value reaches every tier a smaller one does, and perhaps more. */
  lemma TiersGrowWithValue(value: real, larger: real)
    requires value <= larger
    ensures TiersReached(value) <= TiersReached(larger)
  {
    TiersReachedArePrefix(value);
    TiersReachedArePrefix(larger);
  }

  lemma {:induction false} TierDocumentsAppend(tiers: seq<Tier>, more: seq<Tier>)
    ensures TierDocuments(tiers + more) == TierDocuments(tiers) + TierDocuments(more)
    decreases |tiers|
  {
    if tiers == [] {
      assert tiers + more == more;
    } else {
      assert (tiers + more)[0] == tiers[0];
      assert (tiers + more)[1..] == tiers[1..] + more;
      TierDocumentsAppend(tiers[1..], more);
    }
  }

  /** The escalation step appends one reason per tier reached, lowest first,
      and the documents of those tiers, in the same order. */
  lemma EscalationFollowsTiers(value: real, rs: seq<Reason>, docs: seq<string>)
    ensures EscalationReasons(value, rs) == rs + TierReasons(TiersReached(value))
    ensures EscalatedDocuments(docs, value) == docs + TierDocuments(TiersReached(value))
  {
    var t1: seq<Tier> := if value > OneLakh.Threshold() then [OneLakh] else [];
    var t2: seq<Tier> := if value > TwentyFiveLakh.Threshold() then [TwentyFiveLakh] else [];
    var t3: seq<Tier> := if value > OneCrore.Threshold() then [OneCrore] else [];
    assert TiersReached(value) == t1 + t2 + t3;
    TierDocumentsAppend(t1, t2);
    TierDocumentsAppend(t1 + t2, t3);
    assert TierDocuments([OneLakh]) == OneLakh.Documents();
    assert TierDocuments([TwentyFiveLakh]) == TwentyFiveLakh.Documents();
    assert TierDocuments([OneCrore]) == OneCrore.Documents();
  }

  /** Up to 1 Lakh INR nothing is added; above 1 Crore INR all three tiers
      apply and five documents are added. */
  lemma EscalationExtremes(value: real, rs: seq<Reason>, docs: seq<string>)
    ensures value <= OneLakh.Threshold() ==> EscalationReasons(value, rs) == rs && EscalatedDocuments(docs, value) == docs
    ensures value > OneCrore.Threshold() ==>
      && EscalationReasons(value, rs) == rs + [ExceedsTier(OneLakh), ExceedsTier(TwentyFiveLakh), ExceedsTier(OneCrore)]
      && EscalatedDocuments(docs, value) == docs + [
           "Self-declaration",
           "Bank Realization Certificate (BRC)", "Letter of Credit (if applicable)",
           "Customs Valuation Certificate", "CA Certificate"]
  {
    EscalationFollowsTiers(value, rs, docs);
    if value > OneCrore.Threshold() {
      assert TiersReached(value) == AllTiers;
      assert TierDocuments(AllTiers) == OneLakh.Documents() + TwentyFiveLakh.Documents() + OneCrore.Documents();
    }
  }
}
