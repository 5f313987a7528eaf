/** The four arm-selection policies of the bandit engine, as pure functions of a
    snapshot of the engine's state and of the random values drawn for the trial. */
module Selection {
  import opened Stats

  /** `k` is the first index holding the maximum of `s` (numpy's argmax). */
  predicate IsFirstMax(s: seq<real>, k: nat)
  {
    k < |s| && (forall j :: 0 <= j < |s| ==> s[j] <= s[k]) && (forall j :: 0 <= j < k ==> s[j] < s[k])
  }

  /** `k` is the first index holding the minimum of `s` (numpy's argmin). */
  predicate IsFirstMin(s: seq<nat>, k: nat)
  {
    k < |s| && (forall j :: 0 <= j < |s| ==> s[k] <= s[j]) && (forall j :: 0 <= j < k ==> s[k] < s[j])
  }

  /** `k` is the first arm that has never been pulled. */
  predicate IsFirstUnpulled(counts: seq<nat>, k: nat)
  {
    k < |counts| && counts[k] == 0 && forall j :: 0 <= j < k ==> counts[j] != 0
  }

  function ArgMax(s: seq<real>): (k: nat)
    requires |s| > 0
    ensures IsFirstMax(s, k)
  {
    if |s| == 1 then 0
    else
      var k := ArgMax(s[..|s| - 1]);
      if s[|s| - 1] > s[k] then |s| - 1 else k
  }

  function ArgMin(s: seq<nat>): (k: nat)
    requires |s| > 0
    ensures IsFirstMin(s, k)
  {
    if |s| == 1 then 0
    else
      var k := ArgMin(s[..|s| - 1]);
      if s[|s| - 1] < s[k] then |s| - 1 else k
  }

  /** numpy's max: an element of `s` that no element exceeds. */
  function Max(s: seq<real>): (m: real)
    requires |s| > 0
    ensures m in s && forall j :: 0 <= j < |s| ==> s[j] <= m
  {
    s[ArgMax(s)]
  }

  /** When some arm is unpulled, the first minimum count is the first unpulled arm. */
  lemma ArgMinFindsUnpulled(counts: seq<nat>)
    requires 0 in counts
    ensures IsFirstUnpulled(counts, ArgMin(counts))
  {
    var k := ArgMin(counts);
    var z :| 0 <= z < |counts| && counts[z] == 0;
    assert counts[k] <= counts[z];
  }

  /** Instantaneous regret of pulling `arm`: how far its true reward is below the best. */
  function Regret(trueRewards: seq<real>, arm: nat): (r: real)
    requires arm < |trueRewards|
    ensures r >= 0.0
    ensures r == 0.0 <==> forall j :: 0 <= j < |trueRewards| ==> trueRewards[j] <= trueRewards[arm]
  {
    Max(trueRewards) - trueRewards[arm]
  }

  /** The random values one trial consumes, supplied from outside so that the model is deterministic. */
  datatype Draws = Draws(
    explore: real,                    // random.random(), compared with epsilon
    randomArm: nat,                   // random.randrange(num_arms)
    beta: (nat, real, real) -> real,  // np.random.beta(a, b), drawn for the given arm
    categoricalArm: nat,              // np.random.choice(num_arms, p=probs) of softmax
    rewardDraw: real                  // random.random(), compared with the arm's true reward
  )
  {
    /** The ranges the random generators promise for `n` arms. */
    predicate Fits(n: nat)
    {
      0.0 <= explore < 1.0 && randomArm < n && categoricalArm < n && 0.0 <= rewardDraw < 1.0
    }
  }

  /** The floating-point library functions UCB uses, left uninterpreted. */
  datatype MathLib = MathLib(sqrt: real -> real, ln: real -> real)

  /** UCB scores `est[i] + sqrt(c * ln(trial + 1) / counts[i])`, defined only once every arm has a
      count; the division's well-definedness is what the zero-count guard buys. */
  function UcbScores(est: seq<real>, counts: seq<nat>, c: real, trial: nat, m: MathLib): (scores: seq<real>)
    requires |est| == |counts|
    requires 0 !in counts
    ensures |scores| == |est|
  {
    seq(|est|, i requires 0 <= i < |est| =>
      assert counts[i] in counts;
      est[i] + m.sqrt(c * m.ln((trial + 1) as real) / (counts[i] as real)))
  }

  /** Thompson sampling's Beta parameters, rebuilt from a running mean and a count:
      successes `est * count`, failures `count - successes`, each plus one. */
  function BetaParameters(est: real, count: nat): (p: (real, real))
    ensures p.0 + p.1 == (count as real) + 2.0
  {
    var successes := est * (count as real);
    var failures := (count as real) - successes;
    (successes + 1.0, failures + 1.0)
  }

  /** With an exact mean of 0/1 rewards the rebuilt parameters are the exact success and failure
      counts plus one, so both are at least 1 and the Beta draw is always defined. */
  lemma BetaParametersExact(rewards: seq<real>)
    requires IsBinary(rewards)
    ensures var (a, b) := BetaParameters(Mean(rewards), |rewards|);
      a == Sum(rewards) + 1.0 && b == (|rewards| as real) - Sum(rewards) + 1.0 && a >= 1.0 && b >= 1.0
  {
    MeanTimesCount(rewards);
    SumOfBinary(rewards);
  }

  /** One Beta draw per arm, in arm order. */
  function ThompsonSamples(est: seq<real>, counts: seq<nat>, d: Draws): (samples: seq<real>)
    requires |est| == |counts|
    ensures |samples| == |est|
  {
    seq(|est|, i requires 0 <= i < |est| =>
      var (a, b) := BetaParameters(est[i], counts[i]);
      d.beta(i, a, b))
  }

  const KNOWN_ALGORITHMS: set<string> := {"epsilon-greedy", "ucb", "thompson", "softmax"}

  /** select_arm: the arm index chosen for this trial. */
  function Select(algorithm: string, epsilon: real, ucbConstant: real,
                  est: seq<real>, counts: seq<nat>, trial: nat, d: Draws, m: MathLib): (arm: nat)
    requires |est| == |counts| > 0
    requires d.Fits(|counts|)
    ensures arm < |counts|
    ensures algorithm == "epsilon-greedy" ==>
      if d.explore < epsilon || 0 in counts then arm == d.randomArm else IsFirstMax(est, arm)
    ensures (algorithm == "ucb" || algorithm == "softmax") && 0 in counts ==> IsFirstUnpulled(counts, arm)
    ensures algorithm == "ucb" && 0 !in counts ==> IsFirstMax(UcbScores(est, counts, ucbConstant, trial, m), arm)
    ensures algorithm == "thompson" ==> IsFirstMax(ThompsonSamples(est, counts, d), arm)
    ensures algorithm == "softmax" && 0 !in counts ==> arm == d.categoricalArm
    ensures algorithm !in KNOWN_ALGORITHMS ==> arm == d.randomArm
  {
    if algorithm == "epsilon-greedy" then
      if d.explore < epsilon || 0 in counts then d.randomArm else ArgMax(est)
    else if algorithm == "ucb" then
      if 0 in counts then ArgMinFindsUnpulled(counts); ArgMin(counts)
      else ArgMax(UcbScores(est, counts, ucbConstant, trial, m))
    else if algorithm == "thompson" then
      ArgMax(ThompsonSamples(est, counts, d))
    else if algorithm == "softmax" then
      if 0 in counts then ArgMinFindsUnpulled(counts); ArgMin(counts)
      else d.categoricalArm
    else
      d.randomArm
  }

  /** The counts after the first `k` trials of a zero-count-guarded policy: arms before `k` pulled once. */
  function FirstRoundCounts(n: nat, k: nat): (counts: seq<nat>)
    ensures |counts| == n
  {
    seq(n, i => if i < k then 1 else 0)
  }

  /** UCB and softmax pull the arms in index order while some arm is unpulled:
      with arms `0..k-1` pulled once, arm `k` is next, whatever the draws and constants. */
  lemma FirstRoundSelect(algorithm: string, epsilon: real, ucbConstant: real,
                         est: seq<real>, trial: nat, d: Draws, m: MathLib, k: nat)
    requires algorithm == "ucb" || algorithm == "softmax"
    requires k < |est| && d.Fits(|est|)
    ensures Select(algorithm, epsilon, ucbConstant, est, FirstRoundCounts(|est|, k), trial, d, m) == k
  {
    var counts := FirstRoundCounts(|est|, k);
    assert counts[k] == 0;
    var arm := Select(algorithm, epsilon, ucbConstant, est, counts, trial, d, m);
    assert IsFirstUnpulled(counts, arm);
  }

  /** Pulling arm `k` in that state gives the state of the next trial. */
  lemma FirstRoundAdvance(n: nat, k: nat)
    requires k < n
    ensures FirstRoundCounts(n, k)[k := FirstRoundCounts(n, k)[k] + 1] == FirstRoundCounts(n, k + 1)
  {
  }
}
