/** The engine's changing fields as one value, the invariant they keep, and the transition
    one trial makes. */
module Engine {
  import opened Stats
  import opened Selection
  import opened Trials

  /** The fields that `reset` and `step` assign. */
  datatype EngineState = EngineState(
    trueRewards: seq<real>,
    estimates: seq<real>,
    counts: seq<nat>,
    trial: nat,
    cumulativeReward: real,
    regretHistory: seq<real>,
    history: seq<TrialRecord>
  )

  /** The state `reset` leaves: the drawn true rewards, every statistic zero, no history. */
  function Initial(trueRewards: seq<real>): EngineState
  {
    EngineState(trueRewards, seq(|trueRewards|, i => 0.0), seq(|trueRewards|, i => 0), 0, 0.0, [], [])
  }

  /** The engine's invariant for `n` arms: every running statistic is the one its history determines,
      every record carries its trial number, a valid arm, a possible reward and its regret, and the
      last record carries the current totals and snapshots. */
  predicate Consistent(n: nat, s: EngineState)
  {
    |s.trueRewards| == n &&
    |s.history| == s.trial &&
    s.estimates == Estimates(s.history, n) &&
    s.counts == Counts(s.history, n) &&
    s.cumulativeReward == Sum(Rewards(s.history)) &&
    WellRecorded(s.history, s.regretHistory, s.trueRewards, n) &&
    (|s.history| > 0 ==> Snapshot(s))
  }

  /** The last record holds the cumulative reward and regret and the estimates and counts of `s`. */
  predicate Snapshot(s: EngineState)
  {
    |s.history| > 0 &&
    var last := s.history[|s.history| - 1];
    last.cumulativeReward == s.cumulativeReward && last.cumulativeRegret == Sum(s.regretHistory) &&
    last.armEstimates == s.estimates && last.armCounts == s.counts
  }

  /** What `step` does once it has chosen `arm` and drawn `reward`: bump the arm's count, apply the
      incremental mean update, advance the totals, append the regret and the trial record. */
  function Next(s: EngineState, arm: nat, reward: nat): (s': EngineState)
    requires arm < |s.estimates| && arm < |s.counts| && arm < |s.trueRewards|
    ensures s'.trueRewards == s.trueRewards
    ensures |s'.history| == |s.history| + 1 && s'.history[..|s.history|] == s.history
    ensures s'.history[|s.history|].selectedArm == arm + 1 && s'.history[|s.history|].reward == reward
  {
    var count := s.counts[arm] + 1;
    var est := s.estimates[arm := s.estimates[arm] + (reward as real - s.estimates[arm]) / (count as real)];
    var counts := s.counts[arm := count];
    var trial := s.trial + 1;
    var cumulativeReward := s.cumulativeReward + reward as real;
    var regretHistory := s.regretHistory + [Max(s.trueRewards) - s.trueRewards[arm]];
    var rec := TrialRecord(trial, arm + 1, reward, cumulativeReward, Sum(regretHistory), est, counts);
    EngineState(s.trueRewards, est, counts, trial, cumulativeReward, regretHistory, s.history + [rec])
  }

  /** A freshly reset engine is consistent, whatever the drawn true rewards. */
  lemma InitialConsistent(trueRewards: seq<real>)
    ensures Consistent(|trueRewards|, Initial(trueRewards))
  {
    var n := |trueRewards|;
    assert Initial(trueRewards).estimates == Estimates([], n);
    assert Initial(trueRewards).counts == Counts([], n);
  }

  /** One trial keeps the engine consistent: the incremental update leaves every estimate the exact
      mean of its arm's rewards, the counts those of the history, and the new record correct. */
  lemma StepKeepsConsistent(n: nat, s: EngineState, arm: nat, reward: nat)
    requires Consistent(n, s)
    requires arm < n && RewardPossible(reward, s.trueRewards[arm])
    ensures Consistent(n, Next(s, arm, reward))
  {
    var s' := Next(s, arm, reward);
    var rec := s'.history[|s'.history| - 1];
    assert s'.history == s.history + [rec];
    StepStatistics(n, s, arm, reward);
    RewardsAppend(s.history, rec);
    SumAppend(Rewards(s.history), reward as real);
    WellRecordedAppend(s.history, s.regretHistory, rec, Regret(s.trueRewards, arm), s.trueRewards, n);
  }

  /** One trial keeps the estimates and the counts those the extended history determines. */
  lemma StepStatistics(n: nat, s: EngineState, arm: nat, reward: nat)
    requires |s.trueRewards| == n && s.estimates == Estimates(s.history, n) && s.counts == Counts(s.history, n)
    requires arm < n
    ensures Next(s, arm, reward).estimates == Estimates(Next(s, arm, reward).history, n)
    ensures Next(s, arm, reward).counts == Counts(Next(s, arm, reward).history, n)
  {
    var s' := Next(s, arm, reward);
    var rec := s'.history[|s'.history| - 1];
    assert s'.history == s.history + [rec];
    StatisticsAppend(s.history, rec, n);
    StepEstimate(s, arm, reward, ArmRewards(s.history, arm));
    assert s'.estimates == s.estimates[arm := s'.estimates[arm]];
  }

  /** The incremental update of `Next` turns the chosen arm's estimate, the mean of its rewards `rs`,
      into the mean of `rs` and the new reward. */
  lemma StepEstimate(s: EngineState, arm: nat, reward: nat, rs: seq<real>)
    requires arm < |s.estimates| && arm < |s.counts| && arm < |s.trueRewards|
    requires s.estimates[arm] == Mean(rs) && s.counts[arm] == |rs|
    ensures Next(s, arm, reward).estimates[arm] == Mean(rs + [reward as real])
  {
    RunningMean(rs, reward as real);
  }

  /** A trial touches one arm: its count rises by exactly one and its estimate becomes the mean of
      its earlier rewards and the new one; every other arm keeps its count and estimate; the trial
      number, the total of the counts and both histories grow by one. */
  lemma StepTouchesOneArm(n: nat, s: EngineState, arm: nat, reward: nat)
    requires |s.trueRewards| == n && s.estimates == Estimates(s.history, n) && s.counts == Counts(s.history, n)
    requires arm < n
    ensures var s' := Next(s, arm, reward);
      s'.counts[arm] == s.counts[arm] + 1 &&
      s'.estimates[arm] == Mean(ArmRewards(s.history, arm) + [reward as real]) &&
      (forall i :: 0 <= i < n && i != arm ==> s'.counts[i] == s.counts[i] && s'.estimates[i] == s.estimates[i]) &&
      s'.trial == s.trial + 1 && Total(s'.counts) == Total(s.counts) + 1 &&
      |s'.history| == |s.history| + 1 && |s'.regretHistory| == |s.regretHistory| + 1 &&
      s'.trueRewards == s.trueRewards
  {
    var s' := Next(s, arm, reward);
    assert s'.counts == s.counts[arm := s.counts[arm] + 1];
    TotalIncrement(s.counts, arm);
    StepEstimate(s, arm, reward, ArmRewards(s.history, arm));
  }

  /** What the invariant promises the engine's readers: the counts add up to the trial number, both
      histories have one entry per trial, every estimate is its arm's mean reward and lies in [0, 1],
      every regret is non-negative, and the last record carries the current totals and snapshots. */
  lemma ConsistentState(n: nat, s: EngineState)
    requires Consistent(n, s)
    ensures Total(s.counts) == s.trial
    ensures |s.regretHistory| == |s.history| == s.trial
    ensures forall i :: 0 <= i < n ==> s.estimates[i] == Mean(ArmRewards(s.history, i)) && 0.0 <= s.estimates[i] <= 1.0
    ensures forall k :: 0 <= k < |s.regretHistory| ==> s.regretHistory[k] >= 0.0
    ensures s.trial > 0 ==>
      var last := s.history[|s.history| - 1];
      last.trial == s.trial && last.cumulativeReward == s.cumulativeReward &&
      last.cumulativeRegret == Sum(s.regretHistory) &&
      last.armEstimates == s.estimates && last.armCounts == s.counts
  {
    forall k | 0 <= k < |s.history|
      ensures 1 <= s.history[k].selectedArm <= n
    {
      RecordsInRange(s.history, s.regretHistory, s.trueRewards, n, k);
    }
    CountsSumToTrials(s.history, n);
    forall i | 0 <= i < n
      ensures 0.0 <= s.estimates[i] <= 1.0
    {
      ArmRewardsPossible(s.history, s.regretHistory, s.trueRewards, n, i);
      MeanOfBinary(ArmRewards(s.history, i));
    }
    forall k | 0 <= k < |s.regretHistory|
      ensures s.regretHistory[k] >= 0.0
    {
      RecordsInRange(s.history, s.regretHistory, s.trueRewards, n, k);
    }
  }

  /** Thompson sampling rebuilds, for every arm of a consistent engine, the exact success and failure
      counts plus one, so both Beta parameters are at least 1. */
  lemma ThompsonParametersExact(n: nat, s: EngineState, arm: nat)
    requires Consistent(n, s) && arm < n
    ensures var (a, b) := BetaParameters(s.estimates[arm], s.counts[arm]);
      a == Sum(ArmRewards(s.history, arm)) + 1.0 &&
      b == (s.counts[arm] as real) - Sum(ArmRewards(s.history, arm)) + 1.0 &&
      a >= 1.0 && b >= 1.0
  {
    ArmRewardsPossible(s.history, s.regretHistory, s.trueRewards, n, arm);
    BetaParametersExact(ArmRewards(s.history, arm));
  }

  /** Greedy exploitation settles on a certain arm: if arm 0 always pays, every other arm never pays
      and each arm was pulled, epsilon-greedy without exploring picks arm 0. */
  lemma GreedyPicksCertainArm(n: nat, s: EngineState, epsilon: real, ucbConstant: real, d: Draws, m: MathLib)
    requires Consistent(n, s) && n > 0 && d.Fits(n)
    requires s.trueRewards[0] >= 1.0 && forall j :: 1 <= j < n ==> s.trueRewards[j] <= 0.0
    requires 0 !in s.counts && d.explore >= epsilon
    ensures Select("epsilon-greedy", epsilon, ucbConstant, s.estimates, s.counts, s.trial, d, m) == 0
  {
    var arm := Select("epsilon-greedy", epsilon, ucbConstant, s.estimates, s.counts, s.trial, d, m);
    assert IsFirstMax(s.estimates, arm);
    assert s.counts[0] in s.counts;
    assert |ArmRewards(s.history, 0)| == s.counts[0] > 0;
    assert s.estimates[0] == Mean(ArmRewards(s.history, 0));
    ArmRewardsPossible(s.history, s.regretHistory, s.trueRewards, n, 0);
    MeanOfConstant(ArmRewards(s.history, 0), 1.0);
    if arm != 0 {
      assert s.counts[arm] in s.counts;
      assert |ArmRewards(s.history, arm)| == s.counts[arm] > 0;
      assert s.estimates[arm] == Mean(ArmRewards(s.history, arm));
      ArmRewardsPossible(s.history, s.regretHistory, s.trueRewards, n, arm);
      MeanOfConstant(ArmRewards(s.history, arm), 0.0);
      assert false;
    }
  }
}
