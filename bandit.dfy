/** The bandit engine: per-arm estimates and counts kept in arrays and updated in place,
    a trial counter, a cumulative reward and the two histories. */
module Bandit {
  import opened Stats
  import opened Selection
  import opened Trials
  import opened Engine

  class MultiArmedBandit {
    const numArms: nat
    const algorithm: string
    const epsilon: real
    const temperature: real  // read only by the softmax probabilities, which are not modelled
    const ucbConstant: real

    var trueRewards: seq<real>
    var estimatedRewards: array<real>
    var armCounts: array<nat>
    var currentTrial: nat
    var cumulativeReward: real
    var regretHistory: seq<real>
    var history: seq<TrialRecord>

    /** The fields `reset` and `step` assign, as one value. */
    ghost function State(): EngineState
      reads this, estimatedRewards, armCounts
    {
      EngineState(trueRewards, estimatedRewards[..], armCounts[..], currentTrial, cumulativeReward,
                  regretHistory, history)
    }

    /** The object invariant: the arrays have one slot per arm and every running statistic is
        the one the history determines. */
    ghost predicate Valid()
      reads this, estimatedRewards, armCounts
    {
      estimatedRewards.Length == numArms && armCounts.Length == numArms && Consistent(numArms, State())
    }

    /** `__init__`: stores the configuration unchecked, then resets with the drawn true rewards. */
    constructor (numArms: nat, algorithm: string, epsilon: real, temperature: real, ucbConstant: real,
                 trueRewards: seq<real>)
      requires |trueRewards| == numArms
      ensures Valid() && fresh(estimatedRewards) && fresh(armCounts)
      ensures this.numArms == numArms && this.algorithm == algorithm && this.epsilon == epsilon
      ensures this.temperature == temperature && this.ucbConstant == ucbConstant
      ensures State() == Initial(trueRewards)
    {
      this.numArms := numArms;
      this.algorithm := algorithm;
      this.epsilon := epsilon;
      this.temperature := temperature;
      this.ucbConstant := ucbConstant;
      this.trueRewards := [];
      estimatedRewards := new real[0];
      armCounts := new nat[0];
      currentTrial, cumulativeReward, regretHistory, history := 0, 0.0, [], [];
      new;
      Reset(trueRewards);
    }

    /** `reset`: a fresh draw of true rewards (`np.random.rand(num_arms)`, supplied as `draw`)
        and all statistics zeroed. */
    method Reset(draw: seq<real>)
      requires |draw| == numArms
      modifies this
      ensures Valid() && fresh(estimatedRewards) && fresh(armCounts)
      ensures State() == Initial(draw)
    {
      trueRewards := draw;
      estimatedRewards := new real[numArms](i => 0.0);
      armCounts := new nat[numArms](i => 0);
      currentTrial := 0;
      cumulativeReward := 0.0;
      regretHistory := [];
      history := [];
      InitialConsistent(draw);
    }

    /** `select_arm`: reads the current estimates and counts, writes nothing. */
    function SelectArm(d: Draws, m: MathLib): (arm: nat)
      reads this, estimatedRewards, armCounts
      requires Valid() && numArms > 0 && d.Fits(numArms)
      ensures arm < numArms
    {
      Select(algorithm, epsilon, ucbConstant, estimatedRewards[..], armCounts[..], currentTrial, d, m)
    }

    /** `step`: select an arm, draw its reward, update that arm's count and running mean, and
        append the regret and the trial record. */
    method Step(d: Draws, m: MathLib) returns (rec: TrialRecord)
      requires Valid() && numArms > 0 && d.Fits(numArms)
      modifies this, estimatedRewards, armCounts
      ensures Valid()
      ensures estimatedRewards == old(estimatedRewards) && armCounts == old(armCounts)
      ensures var arm := old(SelectArm(d, m));
        rec.selectedArm == arm + 1 && rec.reward == Bernoulli(d.rewardDraw, trueRewards[arm]) &&
        State() == Next(old(State()), arm, rec.reward)
      ensures rec == history[|history| - 1]
    {
      var arm := SelectArm(d, m);
      var reward := Bernoulli(d.rewardDraw, trueRewards[arm]);
      rec := Pull(arm, reward);
    }

    /** The update half of `step`, once `arm` is chosen and `reward` drawn: the engine performs
        exactly `Next` and stays consistent. */
    method Pull(arm: nat, reward: nat) returns (rec: TrialRecord)
      requires Valid() && arm < numArms && RewardPossible(reward, trueRewards[arm])
      modifies this, estimatedRewards, armCounts
      ensures Valid()
      ensures estimatedRewards == old(estimatedRewards) && armCounts == old(armCounts)
      ensures State() == Next(old(State()), arm, reward)
      ensures rec == history[|history| - 1]
      ensures rec.selectedArm == arm + 1 && rec.reward == reward && trueRewards == old(trueRewards)
    {
      ghost var s := State();
      rec := Apply(arm, reward);
      StepKeepsConsistent(numArms, s, arm, reward);
    }

    /** The in-place updates of `step`, in the source's order: the count, the running mean, then the
        tracking fields and histories. */
    method Apply(arm: nat, reward: nat) returns (rec: TrialRecord)
      requires estimatedRewards.Length == numArms && armCounts.Length == numArms
      requires arm < numArms && arm < |trueRewards|
      modifies this, estimatedRewards, armCounts
      ensures estimatedRewards == old(estimatedRewards) && armCounts == old(armCounts)
      ensures State() == Next(old(State()), arm, reward)
      ensures rec == history[|history| - 1]
      ensures rec.selectedArm == arm + 1 && rec.reward == reward && trueRewards == old(trueRewards)
    {
      ghost var s' := Next(State(), arm, reward);
      var n := Increment(armCounts, arm);
      assert armCounts[..] == s'.counts;
      UpdateMean(estimatedRewards, arm, reward as real, n);
      assert estimatedRewards[..] == s'.estimates;
      rec := Track(arm, reward);
      assert regretHistory == s'.regretHistory;
      assert history == s'.history;
    }

    /** The tracking half of `step`: advance the trial counter and the cumulative reward, append
        the regret and the record snapshotting the already updated estimates and counts. */
    method Track(arm: nat, reward: nat) returns (rec: TrialRecord)
      requires arm < |trueRewards|
      modifies this
      ensures trueRewards == old(trueRewards)
      ensures estimatedRewards == old(estimatedRewards) && armCounts == old(armCounts)
      ensures currentTrial == old(currentTrial) + 1
      ensures cumulativeReward == old(cumulativeReward) + reward as real
      ensures regretHistory == old(regretHistory) + [Max(trueRewards) - trueRewards[arm]]
      ensures rec == TrialRecord(currentTrial, arm + 1, reward, cumulativeReward, Sum(regretHistory),
                                 estimatedRewards[..], armCounts[..])
      ensures history == old(history) + [rec]
    {
      currentTrial := currentTrial + 1;
      cumulativeReward := cumulativeReward + reward as real;

      var optimal := Max(trueRewards);
      var regret := optimal - trueRewards[arm];
      regretHistory := regretHistory + [regret];

      rec := TrialRecord(currentTrial, arm + 1, reward, cumulativeReward, Sum(regretHistory),
                         estimatedRewards[..], armCounts[..]);
      history := history + [rec];
    }

    /** What the invariant gives the engine's readers, in terms of its fields and arrays: the
        caller's view of `Engine.ConsistentState`, which states the same facts of the state value. */
    lemma Invariants()
      requires Valid()
      ensures Total(armCounts[..]) == currentTrial
      ensures |regretHistory| == |history| == currentTrial
      ensures forall i :: 0 <= i < numArms ==>
        estimatedRewards[i] == Mean(ArmRewards(history, i)) && 0.0 <= estimatedRewards[i] <= 1.0
      ensures forall k :: 0 <= k < |regretHistory| ==> regretHistory[k] >= 0.0
      ensures currentTrial > 0 ==>
        var last := history[|history| - 1];
        last.trial == currentTrial && last.cumulativeReward == cumulativeReward &&
        last.cumulativeRegret == Sum(regretHistory) &&
        last.armEstimates == estimatedRewards[..] && last.armCounts == armCounts[..]
    {
      ConsistentState(numArms, State());
    }
  }

  /** `counts[i] += 1`, returning the new count. */
  method Increment(counts: array<nat>, i: nat) returns (n: nat)
    requires i < counts.Length
    modifies counts
    ensures n == old(counts[i]) + 1
    ensures counts[..] == old(counts[..])[i := n]
  {
    counts[i] := counts[i] + 1;
    n := counts[i];
  }

  /** `est[i] += (x - est[i]) / n`. */
  method UpdateMean(est: array<real>, i: nat, x: real, n: nat)
    requires i < est.Length && n > 0
    modifies est
    ensures est[..] == old(est[..])[i := old(est[i]) + (x - old(est[i])) / (n as real)]
  {
    est[i] := est[i] + (x - est[i]) / (n as real);
  }
}
