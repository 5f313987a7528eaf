/** Runs of the engine a caller drives, step after step, from a fresh reset. */
module Scenarios {
  import opened Stats
  import opened Selection
  import opened Trials
  import opened Engine
  import opened Bandit

  /** In a history whose `i`-th record pulled arm `i`, each of the first `|h|` arms has exactly
      that one reward and every later arm none. */
  lemma {:induction false} FirstRoundRewards(h: seq<TrialRecord>, n: nat)
    requires |h| <= n
    requires forall i :: 0 <= i < |h| ==> h[i].selectedArm == i + 1
    ensures forall a :: 0 <= a < n ==> ArmRewards(h, a) == if a < |h| then [h[a].reward as real] else []
  {
    if |h| > 0 {
      var h0, r := h[..|h| - 1], h[|h| - 1];
      assert h == h0 + [r];
      FirstRoundRewards(h0, n);
      forall a | 0 <= a < n
        ensures ArmRewards(h, a) == if a < |h| then [h[a].reward as real] else []
      {
        ArmRewardsAppend(h0, r, a);
        if a < |h0| {
          assert h[a] == h0[a];
        }
      }
    }
  }

  /** After one pull of each arm in index order, each arm's count is 1 and its estimate is the one
      reward it gave. */
  lemma FirstRoundEstimates(n: nat, s: EngineState)
    requires Consistent(n, s) && |s.history| == n
    requires forall i :: 0 <= i < n ==> s.history[i].selectedArm == i + 1
    ensures forall i :: 0 <= i < n ==> s.counts[i] == 1 && s.estimates[i] == s.history[i].reward as real
  {
    FirstRoundRewards(s.history, n);
    forall i | 0 <= i < n
      ensures s.counts[i] == 1 && s.estimates[i] == s.history[i].reward as real
    {
      var x := s.history[i].reward as real;
      assert ArmRewards(s.history, i) == [x];
      SumAppend([], x);
      assert [] + [x] == [x];
      assert s.estimates[i] == Mean([x]);
      assert s.counts[i] == |[x]|;
    }
  }

  /** Trial `k + 1` of the first round: with arms `0..k-1` pulled once, UCB and softmax pull arm `k`. */
  method FirstRoundStep(b: MultiArmedBandit, d: Draws, m: MathLib, k: nat) returns (rec: TrialRecord)
    requires b.Valid() && (b.algorithm == "ucb" || b.algorithm == "softmax")
    requires k < b.numArms && b.armCounts[..] == FirstRoundCounts(b.numArms, k) && d.Fits(b.numArms)
    modifies b, b.estimatedRewards, b.armCounts
    ensures b.Valid() && b.trueRewards == old(b.trueRewards)
    ensures b.estimatedRewards == old(b.estimatedRewards) && b.armCounts == old(b.armCounts)
    ensures b.currentTrial == old(b.currentTrial) + 1 && b.history == old(b.history) + [rec]
    ensures rec.selectedArm == k + 1 && b.armCounts[..] == FirstRoundCounts(b.numArms, k + 1)
  {
    FirstRoundSelect(b.algorithm, b.epsilon, b.ucbConstant, b.estimatedRewards[..], b.currentTrial, d, m, k);
    rec := b.Step(d, m);
    FirstRoundAdvance(b.numArms, k);
  }

  /** The first round as seen through the object: every count is 1 and every estimate the one
      reward its arm gave. This is `FirstRoundEstimates` read off the object's arrays, which the
      method-level scenario needs because its caller sees arrays, not the state value. */
  lemma FirstRoundArrays(b: MultiArmedBandit)
    requires b.Valid() && |b.history| == b.numArms
    requires forall i :: 0 <= i < b.numArms ==> b.history[i].selectedArm == i + 1
    ensures forall i :: 0 <= i < b.numArms ==>
      b.armCounts[i] == 1 && b.estimatedRewards[i] == b.history[i].reward as real
  {
    FirstRoundEstimates(b.numArms, b.State());
    forall i | 0 <= i < b.numArms
      ensures b.armCounts[i] == 1 && b.estimatedRewards[i] == b.history[i].reward as real
    {
      assert b.armCounts[i] == b.State().counts[i];
      assert b.estimatedRewards[i] == b.State().estimates[i];
    }
  }

  /** The loop of the first round: `numArms` steps, the `k`-th selecting arm `k`. */
  method RunFirstRound(b: MultiArmedBandit, draws: seq<Draws>, m: MathLib) returns (recs: seq<TrialRecord>)
    requires b.Valid() && b.currentTrial == 0
    requires b.algorithm == "ucb" || b.algorithm == "softmax"
    requires |draws| == b.numArms && forall k :: 0 <= k < |draws| ==> draws[k].Fits(b.numArms)
    modifies b, b.estimatedRewards, b.armCounts
    ensures b.Valid() && b.trueRewards == old(b.trueRewards)
    ensures b.estimatedRewards == old(b.estimatedRewards) && b.armCounts == old(b.armCounts)
    ensures recs == b.history && |recs| == b.numArms
    ensures forall i :: 0 <= i < b.numArms ==> recs[i].selectedArm == i + 1
  {
    var n := b.numArms;
    assert b.history == [];
    assert b.armCounts[..] == FirstRoundCounts(n, 0);
    recs := [];
    var k := 0;
    while k < n
      invariant 0 <= k <= n && |recs| == k
      invariant b.Valid() && b.trueRewards == old(b.trueRewards)
      invariant b.estimatedRewards == old(b.estimatedRewards) && b.armCounts == old(b.armCounts)
      invariant b.history == recs
      invariant b.armCounts[..] == FirstRoundCounts(n, k)
      invariant forall i :: 0 <= i < k ==> recs[i].selectedArm == i + 1
    {
      var rec := FirstRoundStep(b, draws[k], m, k);
      recs := recs + [rec];
      k := k + 1;
    }
  }

  /** The first `numArms` steps of UCB or softmax from a fresh reset pull the arms in index order,
      each exactly once, whatever the draws; each estimate is then the one reward its arm gave.
      The single entry point for a caller: the loop (`RunFirstRound`) and the reading of the arrays
      (`FirstRoundArrays`) are kept apart so that each proof stays small. */
  method PullEachArmOnce(b: MultiArmedBandit, draws: seq<Draws>, m: MathLib) returns (recs: seq<TrialRecord>)
    requires b.Valid() && b.currentTrial == 0
    requires b.algorithm == "ucb" || b.algorithm == "softmax"
    requires |draws| == b.numArms && forall k :: 0 <= k < |draws| ==> draws[k].Fits(b.numArms)
    modifies b, b.estimatedRewards, b.armCounts
    ensures b.Valid() && b.trueRewards == old(b.trueRewards)
    ensures b.estimatedRewards == old(b.estimatedRewards) && b.armCounts == old(b.armCounts)
    ensures b.currentTrial == b.numArms && recs == b.history
    ensures forall i :: 0 <= i < b.numArms ==>
      recs[i].selectedArm == i + 1 && b.armCounts[i] == 1 && b.estimatedRewards[i] == recs[i].reward as real
  {
    recs := RunFirstRound(b, draws, m);
    FirstRoundArrays(b);
  }
}
