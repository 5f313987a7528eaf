# Multi-armed bandit engine, modelled in Dafny

This project models the bandit engine of a small multi-armed-bandit simulator: the class
`MultiArmedBandit` of `bandit.py`. The engine keeps:

- a hidden true reward probability per arm;
- a running-mean reward estimate per arm, in an array updated in place;
- a pull count per arm, in an array updated in place;
- a trial counter and a cumulative reward;
- a regret history and a trial-record history, each appended once per trial.

Each `step` does four things:

1. It selects an arm with one of four policies: epsilon-greedy, UCB, Thompson sampling or
   softmax. Any other algorithm name falls back to a uniformly random arm.
2. It draws a 0/1 reward.
3. It applies the incremental mean update.
4. It appends the regret and a record of the trial.

The modules follow the program:

- `Stats` (`stats.dfy`): sums, means and the running-mean identity, over exact reals.
- `Selection` (`selection.dfy`): the selection policies as one pure function `Select`. It works
  on a snapshot of the estimates and counts plus the random values drawn for the trial. The
  module also has numpy's first-index `argmax`/`argmin`, `max` and the regret.
- `Trials` (`trials.dfy`): the trial record and the statistics a history determines. These are
  the rewards per arm, the counts and the means. The module also has the predicate saying that
  every record carries its trial number, a valid arm, a possible reward and its regret.
- `Engine` (`engine.dfy`): the engine's fields as one value `EngineState`, with:
  - the state `reset` leaves (`Initial`);
  - the transition one trial makes (`Next`);
  - the invariant `Consistent`: every running statistic equals the one its history determines,
    every record names a valid arm, a possible reward and its regret, and the last record
    carries the current totals and snapshots;
  - lemmas that the invariant holds initially, is preserved, and what it implies.
- `Bandit` (`bandit.dfy`): the class `MultiArmedBandit`. It holds `array<real>` estimates,
  `array<nat>` counts and `seq` histories. Its object invariant `Valid()` is `Consistent` of
  its fields, and `Step` is proved to perform exactly `Next`.
- `Scenarios` (`scenarios.dfy`): a caller's loop that proves the first round of UCB and
  softmax from a fresh reset pulls every arm once, in index order.

Randomness is passed in rather than generated:

- One `Draws` value per trial carries every random value `step` consumes:
  - the uniform draw compared with epsilon;
  - the uniform arm index;
  - an oracle for the Beta draws;
  - the softmax categorical pick;
  - the uniform draw that decides the reward.
- `Draws.Fits(n)` states the ranges of the two uniform draws and the two arm indices; the Beta samples are unconstrained.
- The true rewards that `reset` draws are a parameter of `Reset` and of the constructor.
- `sqrt` and `log` for UCB are uninterpreted functions in `MathLib`.

## Model

| member | source | states |
|---|---|---|
| `Bandit.MultiArmedBandit.constructor` | bandit.py:6-13 | stores the configuration as given and leaves the state of a reset with the supplied true rewards; the invariant holds |
| `Bandit.MultiArmedBandit.Reset` | bandit.py:15-25 | fresh arrays of length `numArms`; the state is `Initial(draw)`: all-zero estimates and counts, trial 0, reward 0, empty histories; the invariant holds |
| `Engine.Initial` | bandit.py:17-25 | the state `reset` leaves: the supplied true rewards, all-zero estimates and counts of one entry per arm, trial 0, cumulative reward 0 and empty histories. `Reset`, the constructor and `Engine.InitialConsistent` are stated against it |
| `Engine.InitialConsistent` | bandit.py:15-25 | the all-zero state with empty histories satisfies the engine invariant for any true rewards |
| `Bandit.MultiArmedBandit.SelectArm` | bandit.py:27-59 | select_arm reads the state without changing it and returns an index in `[0, numArms)` |
| `Selection.Select` | bandit.py:27-59 | epsilon-greedy returns the random arm when the draw is below epsilon or some count is 0, and otherwise the first maximal estimate; UCB and softmax return the first unpulled arm while one exists; otherwise UCB returns the first maximal UCB score and softmax the categorical pick; Thompson returns the first maximal Beta sample; an unknown name returns the random arm; the result is always below the arm count |
| `Selection.ArgMax` | bandit.py:31 | the first index holding the maximum of a non-empty sequence |
| `Selection.ArgMin` | bandit.py:35 | the first index holding the minimum of a non-empty sequence of counts |
| `Selection.ArgMinFindsUnpulled` | bandit.py:34-35 | when some count is zero, the first minimum is the first arm with count zero |
| `Selection.UcbScores` | bandit.py:36-37 | one score per arm; defined only when no count is zero, the case the guard leaves |
| `Selection.BetaParameters` | bandit.py:44-46 | Thompson's parameters rebuilt from a running mean and a count: successes `est * count` plus 1 and failures `count - successes` plus 1; together they add up to the count plus 2. `Selection.BetaParametersExact` and `Engine.ThompsonParametersExact` are stated against it |
| `Selection.ThompsonSamples` | bandit.py:41-47 | one Beta sample per arm, in arm order |
| `Selection.BetaParametersExact` | bandit.py:44-46 | for the exact mean of 0/1 rewards, the rebuilt Beta parameters are the success count plus 1 and the failure count plus 1, both at least 1 |
| `Engine.ThompsonParametersExact` | bandit.py:44-46 | in any consistent engine state, every arm's Beta parameters are its exact success and failure counts plus 1 |
| `Selection.Max` | bandit.py:75 | an element of the sequence that no element exceeds |
| `Selection.Regret` | bandit.py:75-76 | the regret of an arm is never negative, and it is 0 exactly when the arm's true reward is maximal |
| `Trials.Bernoulli` | bandit.py:63 | the reward is 0 or 1; an arm with true reward at least 1 always pays; an arm at most 0 never pays |
| `Stats.RunningMean` | bandit.py:66-68 | the update `est + (x - est) / (n + 1)` applied to the mean of `n` observations gives the mean of those observations plus `x` |
| `Stats.MeanOfBinary` | bandit.py:63 | the mean of 0/1 rewards lies in [0, 1] |
| `Stats.TotalIncrement` | bandit.py:66 | raising one count by 1 raises the total of the counts by 1 |
| `Trials.StatisticsAppend` | bandit.py:66-68 | appending a record changes only its arm's count (by 1) and estimate (to the mean including the new reward) |
| `Trials.CountsSumToTrials` | bandit.py:66-71 | the counts a history determines add up to its length |
| `Trials.RecordsInRange` | bandit.py:75-88 | every record of a well-built history carries its trial number and names an arm in `1..numArms`, a reward that arm can produce, and that arm's regret in the regret history |
| `Trials.ArmRewardsPossible` | bandit.py:63 | every reward an arm produced is 0 or 1, all 1 for an arm certain to pay and all 0 for an arm that never pays |
| `Trials.WellRecordedAppend` | bandit.py:75-88 | appending a record with the right trial number, a valid arm, a possible reward and its regret to a well-built history keeps the whole history well-built |
| `Bandit.MultiArmedBandit.Step` | bandit.py:61-89 | the arm is the selected one; the reward is the Bernoulli draw for it; the new state is `Next` of the old one; the returned record is the last history entry; the invariant holds |
| `Bandit.MultiArmedBandit.Pull` | bandit.py:66-89 | for the chosen arm and a reward that arm can produce, the new state is `Next` of the old one and the invariant still holds; the returned record names that arm and reward |
| `Bandit.MultiArmedBandit.Apply` | bandit.py:66-89 | the in-place updates, in the source's order, on the same arrays, produce exactly the state `Next` of the old one; the returned record is the last history entry |
| `Bandit.MultiArmedBandit.Track` | bandit.py:71-88 | the trial counter grows by 1; the cumulative reward grows by the reward; the regret `max - true reward` is appended; a record snapshotting the updated arrays is appended and returned |
| `Bandit.Increment` | bandit.py:66-67 | the arm's count in the array goes up by 1 and no other entry changes |
| `Bandit.UpdateMean` | bandit.py:68 | the arm's estimate in the array takes the incremental update and no other entry changes |
| `Engine.Next` | bandit.py:66-88 | step's whole transition for a chosen arm and reward: that arm's count up by 1, its running-mean update, trial and cumulative reward advanced, the regret and the record appended. Its ensures keep the true rewards and extend the history by one record naming the arm. `Step`, `Pull`, `Apply`, `StepKeepsConsistent`, `StepStatistics`, `StepEstimate` and `StepTouchesOneArm` are stated against it |
| `Engine.StepKeepsConsistent` | bandit.py:61-89 | one trial keeps every estimate the exact mean of its arm's rewards, the counts those of the history, and the cumulative reward the sum of the rewards; every record keeps its trial number, a valid arm, a possible reward and its regret; the last record carries the current totals, estimates and counts (older records' snapshots are not re-checked) |
| `Engine.StepStatistics` | bandit.py:66-68 | after one trial, the estimates and counts are still exactly those the extended history determines |
| `Engine.StepEstimate` | bandit.py:66-68 | the incremental update applied to an estimate that is the mean of `rs`, with count `|rs|`, gives the mean of `rs` plus the new reward |
| `Engine.StepTouchesOneArm` | bandit.py:66-72 | the chosen arm's count rises by exactly 1 and its estimate becomes the mean of its old rewards and the new one; no other arm's count or estimate changes; the trial number, the total of the counts and both histories grow by 1 |
| `Engine.ConsistentState` | bandit.py:66-89 | in a consistent state the counts add up to the trial number; both histories have one entry per trial; every estimate is its arm's mean and lies in [0, 1]; every regret is non-negative; the last record carries the trial number, the cumulative reward, the sum of the regrets and the current estimates and counts |
| `Bandit.MultiArmedBandit.Invariants` | bandit.py:61-89 | over the object's fields and arrays: the counts add up to the trial number; both histories have one entry per trial; every estimate is the exact mean of its arm's rewards and lies in [0, 1]; every regret is non-negative; the last record carries the current totals, estimates and counts |
| `Engine.GreedyPicksCertainArm` | bandit.py:28-31 | when arm 0 always pays, every other arm never pays and every arm was pulled, epsilon-greedy without exploring picks arm 0 |
| `Selection.FirstRoundSelect` | bandit.py:33-56 | for UCB and softmax, with arms `0..k-1` pulled once and the others never, the next selection is arm `k` whatever the draws |
| `Scenarios.FirstRoundStep` | bandit.py:61-89 | from that state, one step selects arm `k` and leaves arms `0..k` pulled once |
| `Scenarios.RunFirstRound` | bandit.py:61-89 | from a fresh reset, `numArms` steps of UCB or softmax select arms 1, 2, …, `numArms` in order; the invariant holds afterwards |
| `Scenarios.FirstRoundArrays` | bandit.py:66-68 | after such a first round, every entry of the count array is 1 and every entry of the estimate array is the one reward that arm gave |
| `Scenarios.PullEachArmOnce` | bandit.py:61-89 | from a fresh reset, the first `numArms` steps of UCB or softmax select arms 1, 2, …, `numArms` in order; afterwards every count is 1 and every estimate is the single reward that arm gave |
| `Scenarios.FirstRoundEstimates` | bandit.py:66-68 | after one pull of each arm in index order, every count is 1 and every estimate equals the one reward observed for that arm |
| `Scenarios.FirstRoundRewards` | bandit.py:80-88 | in a history whose `i`-th record pulled arm `i`, each of the first arms has exactly that reward and the later arms have none |

## Left out

- `app.py`, the interactive front end, is not part of this model. Its controls, charts, tables, pacing and rerun loop are presentation that only drives `step`.
- Random number generation is not modelled. The true rewards of `reset`, the epsilon draw, the uniform arm index, the Beta samples, the softmax pick and the reward draw are all inputs. `Draws.Fits` states only the ranges of the two uniform draws and the two arm indices, not their distributions; the Beta samples may be any real, where numpy's lie in [0, 1] (no property here depends on their range).
- Softmax's probabilities are not modelled: the max shift, `exp`, the normalisation and the use of `temperature`. The policy returns the supplied categorical pick once every arm has been pulled. `temperature` is stored but has no effect in the model.
- The UCB bonus `sqrt(c * log(t + 1) / count)` uses uninterpreted `sqrt` and `log`. Only the selection of the first maximal score, and the guard that keeps every count non-zero, are modelled.
- Floating-point rounding is not modelled. Estimates, rewards and regrets are exact reals, so the running-mean identity and the rebuilt Beta parameters are exact. In floating point they can drift.
- The history records' generated keys `arm1_est`, `arm1_count`, … become two snapshot sequences indexed from 0.
- `Bandit.MultiArmedBandit.Step` requires `numArms > 0`. With no arms, the source fails in the random index draw, softmax's max shift, or the arg-max of an empty array.
- `Bandit.MultiArmedBandit.SelectArm` requires `numArms > 0`, for the same reason.
- `Selection.Select` requires at least one arm (`|counts| > 0`), for the same reason.
- The constructor does not validate the configuration: any natural number of arms, any epsilon, any temperature. A negative arm count makes numpy raise inside `reset`; the model's `numArms: nat` excludes that case. A stricter engine would reject fewer than two arms, an epsilon outside [0, 1] or a non-positive temperature; the code has no such check, and the model follows the code.
- `Bandit.MultiArmedBandit.constructor` has no default arguments. The source's defaults (`num_arms=5`, `algorithm='epsilon-greedy'`, `epsilon=0.1`, `temperature=0.1`, `ucb_constant=2`) must be passed explicitly.
- `Selection.Select` does not model the floating-point failures of two configurations the only caller never uses (its controls keep the temperature at least 0.01 and the UCB constant at least 0.1). With `temperature == 0`, or a negative temperature close enough to 0 that `exp` overflows (about |T| < 1/709), softmax's probabilities are NaN and the categorical draw raises; the model still returns the supplied pick. With a negative UCB constant, the square root gives NaN for every arm and numpy's argmax returns arm 0; the model still takes the first maximum of the uninterpreted real scores.
- The true rewards are not required to lie in [0, 1). Any reals are accepted, which also covers arms that are certain to pay or never pay.
