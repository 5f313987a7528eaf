/** The per-trial records the engine keeps, the per-arm statistics they determine, and the
    invariant that ties the engine's running statistics to its history. */
module Trials {
  import opened Stats
  import opened Selection

  /** One entry of `history`; `armEstimates` and `armCounts` stand for the `arm{k}_est` and
      `arm{k}_count` keys, indexed by arm from 0. */
  datatype TrialRecord = TrialRecord(
    trial: nat,
    selectedArm: nat,        // 1-based
    reward: nat,             // 0 or 1
    cumulativeReward: real,
    cumulativeRegret: real,
    armEstimates: seq<real>,
    armCounts: seq<nat>
  )

  /** The Bernoulli reward: 1 when the uniform draw `u` falls below the arm's true reward `p`. */
  function Bernoulli(u: real, p: real): (reward: nat)
    ensures reward == 0 || reward == 1
    ensures 0.0 <= u < 1.0 && p >= 1.0 ==> reward == 1
    ensures 0.0 <= u && p <= 0.0 ==> reward == 0
  {
    if u < p then 1 else 0
  }

  /** What a Bernoulli draw of a uniform value in [0, 1) can produce for true reward `p`. */
  predicate RewardPossible(reward: nat, p: real)
  {
    reward <= 1 && (p >= 1.0 ==> reward == 1) && (p <= 0.0 ==> reward == 0)
  }

  /** The rewards observed for 0-based `arm`, in trial order. */
  function ArmRewards(h: seq<TrialRecord>, arm: nat): seq<real>
  {
    if |h| == 0 then []
    else
      var last := h[|h| - 1];
      ArmRewards(h[..|h| - 1], arm) + if last.selectedArm == arm + 1 then [last.reward as real] else []
  }

  /** All rewards observed, in trial order. */
  function Rewards(h: seq<TrialRecord>): (rs: seq<real>)
    ensures |rs| == |h|
  {
    if |h| == 0 then [] else Rewards(h[..|h| - 1]) + [h[|h| - 1].reward as real]
  }

  /** How often each of `n` arms was pulled according to `h`. */
  function Counts(h: seq<TrialRecord>, n: nat): (counts: seq<nat>)
    ensures |counts| == n
  {
    seq(n, i requires 0 <= i < n => |ArmRewards(h, i)|)
  }

  /** The mean reward of each of `n` arms according to `h`, 0 for an arm never pulled. */
  function Estimates(h: seq<TrialRecord>, n: nat): (est: seq<real>)
    ensures |est| == n
  {
    seq(n, i requires 0 <= i < n => Mean(ArmRewards(h, i)))
  }

  /** Record `r`, appended as trial number `trial` with regret `regret`, names an arm in `1..n`,
      a reward that arm can produce, and that arm's regret. */
  predicate Recorded(r: TrialRecord, regret: real, trial: nat, trueRewards: seq<real>, n: nat)
  {
    r.trial == trial && 1 <= r.selectedArm <= n && n <= |trueRewards| &&
    RewardPossible(r.reward, trueRewards[r.selectedArm - 1]) &&
    regret == Regret(trueRewards, r.selectedArm - 1)
  }

  /** Every record of `h` carries its trial number, a valid arm, a possible reward and, in `rh`, its
      regret; its totals and snapshots are not checked here (the engine checks the last record's). */
  predicate WellRecorded(h: seq<TrialRecord>, rh: seq<real>, trueRewards: seq<real>, n: nat)
    decreases |h|
  {
    |h| == |rh| && |trueRewards| == n &&
    (|h| > 0 ==>
      Recorded(h[|h| - 1], rh[|rh| - 1], |h|, trueRewards, n) &&
      WellRecorded(h[..|h| - 1], rh[..|rh| - 1], trueRewards, n))
  }

  lemma ArmRewardsAppend(h: seq<TrialRecord>, r: TrialRecord, arm: nat)
    ensures ArmRewards(h + [r], arm) ==
      ArmRewards(h, arm) + if r.selectedArm == arm + 1 then [r.reward as real] else []
  {
    assert (h + [r])[..|h|] == h;
  }

  lemma RewardsAppend(h: seq<TrialRecord>, r: TrialRecord)
    ensures Rewards(h + [r]) == Rewards(h) + [r.reward as real]
  {
    assert (h + [r])[..|h|] == h;
  }

  /** Appending a record changes only the counts and estimate of the arm it names. */
  lemma StatisticsAppend(h: seq<TrialRecord>, r: TrialRecord, n: nat)
    requires 1 <= r.selectedArm <= n
    ensures var a := r.selectedArm - 1;
      Counts(h + [r], n) == Counts(h, n)[a := Counts(h, n)[a] + 1] &&
      Estimates(h + [r], n) == Estimates(h, n)[a := Mean(ArmRewards(h, a) + [r.reward as real])]
  {
    var a := r.selectedArm - 1;
    forall i | 0 <= i < n
      ensures Counts(h + [r], n)[i] == Counts(h, n)[a := Counts(h, n)[a] + 1][i]
      ensures Estimates(h + [r], n)[i] == Estimates(h, n)[a := Mean(ArmRewards(h, a) + [r.reward as real])][i]
    {
      ArmRewardsAppend(h, r, i);
      if i != a {
        assert ArmRewards(h + [r], i) == ArmRewards(h, i);
      }
    }
  }

  /** Records already in the history stay correct when a new, correct one is appended. */
  lemma WellRecordedAppend(h: seq<TrialRecord>, rh: seq<real>, r: TrialRecord, regret: real,
                           trueRewards: seq<real>, n: nat)
    requires WellRecorded(h, rh, trueRewards, n)
    requires Recorded(r, regret, |h| + 1, trueRewards, n)
    ensures WellRecorded(h + [r], rh + [regret], trueRewards, n)
  {
    assert (h + [r])[..|h|] == h;
    assert (rh + [regret])[..|rh|] == rh;
  }

  /** The counts always add up to the number of trials. */
  lemma {:induction false} CountsSumToTrials(h: seq<TrialRecord>, n: nat)
    requires forall k :: 0 <= k < |h| ==> 1 <= h[k].selectedArm <= n
    ensures Total(Counts(h, n)) == |h|
  {
    if |h| == 0 {
      assert Counts(h, n) == seq(n, i => 0);
      ZeroTotal(n);
    } else {
      var h0, r := h[..|h| - 1], h[|h| - 1];
      assert h == h0 + [r];
      CountsSumToTrials(h0, n);
      StatisticsAppend(h0, r, n);
      TotalIncrement(Counts(h0, n), r.selectedArm - 1);
    }
  }

  lemma {:induction false} ZeroTotal(n: nat)
    ensures Total(seq(n, i => 0)) == 0
  {
    if n > 0 {
      assert seq(n, i => 0)[..n - 1] == seq(n - 1, i => 0);
      ZeroTotal(n - 1);
    }
  }

  /** Every record of a well-recorded history carries its trial number and names an arm in `1..n`,
      a possible reward and, in the regret history, that arm's regret. */
  lemma {:induction false} RecordsInRange(h: seq<TrialRecord>, rh: seq<real>, trueRewards: seq<real>,
                                        n: nat, k: nat)
    requires WellRecorded(h, rh, trueRewards, n) && k < |h|
    ensures h[k].trial == k + 1
    ensures 1 <= h[k].selectedArm <= n <= |trueRewards|
    ensures RewardPossible(h[k].reward, trueRewards[h[k].selectedArm - 1])
    ensures rh[k] == Regret(trueRewards, h[k].selectedArm - 1)
  {
    if k < |h| - 1 {
      RecordsInRange(h[..|h| - 1], rh[..|rh| - 1], trueRewards, n, k);
    }
  }

  /** Every reward an arm produced is 0 or 1 and, for an arm certain to pay (or never to pay),
      every one of them is 1 (or 0). */
  lemma {:induction false} ArmRewardsPossible(h: seq<TrialRecord>, rh: seq<real>, trueRewards: seq<real>,
                                            n: nat, arm: nat)
    requires WellRecorded(h, rh, trueRewards, n) && arm < n
    ensures IsBinary(ArmRewards(h, arm))
    ensures trueRewards[arm] >= 1.0 ==> forall i :: 0 <= i < |ArmRewards(h, arm)| ==> ArmRewards(h, arm)[i] == 1.0
    ensures trueRewards[arm] <= 0.0 ==> forall i :: 0 <= i < |ArmRewards(h, arm)| ==> ArmRewards(h, arm)[i] == 0.0
  {
    if |h| > 0 {
      var h0, rh0 := h[..|h| - 1], rh[..|h| - 1];
      ArmRewardsPossible(h0, rh0, trueRewards, n, arm);
      RecordsInRange(h, rh, trueRewards, n, |h| - 1);
    }
  }
}
