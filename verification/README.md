# CPU weight strategies, modelled in Dafny

The repository compares two ways of sharing one machine's CPU among
resource pools. Each pool is configured with:

- a CPU limit (a percentage, 0 to 100);
- a weight;
- a desired usage;
- an enabled flag.

A strategy's `recalculate` fills in each pool's real usage, guarantee and
new limit.

- **Schedule weight strategy.** Two weighted water-filling passes.
  - The guarantee pass shares 100 units of CPU among the enabled pools below
    their limit, in proportion to weight, clipping each pool at its limit.
    It repeats while more than 0.01 is left and the last round handed
    something out.
  - The usage pass does the same against the cap `min(limit, desired)`. It
    repeats while more than 0.01 is left and the eligible weight exceeds
    0.01.
- **Limit weight strategy.** One proportional pass.
  - Every enabled pool with positive demand gets a new limit of
    `min(limit, 100 * weight / total)` and uses `min(desired, new limit)`.
  - CPU a pool leaves unused is never handed on.
- **`get_charts(i)`.** Sets pool `i`'s demand to 0, 1, …, 100 in turn,
  recalculates after each, and records what the charts plot.

The model works on an immutable sequence of pool records over exact `real`
numbers. Each strategy is a pure function from pools to
`Result<seq<Pool>>`:

- a Python `assert` becomes `Err(InvalidConfiguration)` or
  `Err(InvalidIndex)`;
- a Python `ZeroDivisionError` becomes `Err(DivisionByZero)`.

Modules:

- `Pools`: the record, the constructor, and the sums the charts read.
- `WaterFill`: one round of either schedule pass.
  - `Pass` selects the field filled and its cap.
  - A round is a map over the pools with `cpu` and the total weight fixed.
    This is what the Python loop computes, because a pool's eligibility does
    not depend on the pools updated before it in the same round.
- `Schedule` and `ScheduleFacts`: the two loops, `recalculate`, and
  properties relating several calls.
  - The guarantee loop terminates on the number of enabled pools that have
    positive weight and are below their limit.
  - The usage loop terminates on that count (against the usage cap), paired
    with a flag for `cpu > 0.01`.
- `Limit` and `LimitFacts`: the limit strategy and its properties.
- `Sweep` and `SweepFacts`: the sweep behind both `get_charts`, as a
  sequence of numeric samples.
- `Scenarios`: concrete configurations, including the repository's own
  unit test.

## Model

| member | source | states |
|---|---|---|
| Pools.NewPool | weight_strategies.py:25-34 | A pool is built exactly when 0 ≤ limit ≤ 100 and weight ≥ 0, otherwise `InvalidConfiguration`; the pool keeps the four configured values, starts with usage and guarantee 0, and a new limit equal to its limit |
| WaterFill.Round | weight_strategies.py:72-79 | Every pool after a round is that pool's own step, taken with the `cpu` and total weight fixed at the start of the round: the loop's order does not matter, because no step reads another pool (the usage loop's copy is lines 88-95) |
| WaterFill.GiveBounds | weight_strategies.py:73-77 | One pool's step changes only the field its pass fills. A pool that is disabled, at its cap, or of weight 0 is left as it is. Otherwise the field does not decrease, does not pass the cap, and gains at most the pool's weighted share `cpu * w / total` |
| WaterFill.GiveLevel | weight_strategies.py:76-77 | A pool filled to `min(cap, λ * w)` is filled to `min(cap, (λ + cpu / total) * w)` after its step: the share is proportional to weight, so a step raises every pool's water level by the same `cpu / total` |
| WaterFill.RoundLevel | weight_strategies.py:72-79 | If every enabled pool of positive weight (and cap ≥ 0) is filled to `min(cap, λ * w)`, then after a round every such pool is filled to `min(cap, (λ + cpu / total) * w)`: one common level for all pools |
| WaterFill.RoundRoom | weight_strategies.py:72-79 | A round moves CPU from room to amount: the room the active pools have left plus the amount handed out is the same before and after |
| WaterFill.RoundEffect | weight_strategies.py:72-79 | A round changes only the field its pass fills; that field never decreases and does not pass an eligible pool's cap; disabled, saturated and zero-weight pools are untouched; no pool becomes eligible |
| WaterFill.RoundAccounting | weight_strategies.py:68-80 | With the eligible weight as divisor, a round hands out between 0 and the remaining `cpu`. It hands out all of it unless some pool was clipped at its cap, which lowers the number of active pools. It hands out something whenever a pool is active and `cpu > 0`. So `cpu` never goes negative, and every round either saturates a pool or hands out all remaining CPU |
| WaterFill.EligibleWeightPositive | weight_strategies.py:68-69 | The eligible weight is never negative. It is positive exactly when some eligible pool has positive weight. When it is zero but some pool is still eligible, that pool has weight zero |
| Schedule.Clear | weight_strategies.py:58-62 | Clearing keeps every pool's configuration and new limit and sets its usage and guarantee to 0 |
| Schedule.ClearForgets | weight_strategies.py:58-62 | Pools with the same configuration and new limit clear to the same pools, and clearing twice is clearing once |
| Schedule.ClearedContention | weight_strategies.py:58-69 | After clearing, the room for guarantees is the sum of the limits of the enabled pools of positive weight, and a zero-weight pool is eligible exactly when it is enabled with a positive limit |
| Schedule.GuaranteeRounds | weight_strategies.py:64-80 | The guarantee loop: the guarantee it hands out plus the CPU it leaves equals the CPU it started with (100 after clearing), and the CPU left is ≥ 0. Only guarantees change, never downwards and never past a limit; disabled and zero-weight pools are untouched. It ends with ≤ 0.01 left or with no enabled positive-weight pool below its limit. It runs at most (enabled positive-weight pools below their limit + 1) rounds. Its only failure is a division by zero |
| Schedule.GuaranteeRoundsFails | weight_strategies.py:64-80 | The guarantee loop fails exactly when a zero-weight pool is eligible and the CPU to hand out exceeds the room of the eligible positive-weight pools by more than 0.01. Each round uses up exactly the room it fills, so the loop runs out of pools to feed and then divides by a total weight of 0 |
| Schedule.GuaranteeLevel | weight_strategies.py:64-80 | The guarantee loop keeps the shares proportional to weight: pools that start at a common water level λ (each enabled pool of positive weight holds `min(limit, λ * w)`) end at the common level λ + rise |
| Schedule.UsageLoop | weight_strategies.py:82-98 | The usage loop: the same conservation of CPU, with usage in place of guarantee and `min(limit, desired)` in place of the limit. It ends with ≤ 0.01 left or ≤ 0.01 of eligible weight (recomputed after every round). It runs no round when it starts with ≤ 0.01, and at most (active pools + 1) rounds. It raises the water level by a rise ≥ 0 |
| Schedule.UsageLevel | weight_strategies.py:82-98 | The usage loop keeps the shares proportional to weight: pools that start at a common level λ (each enabled pool of positive weight and cap ≥ 0 holds `min(limit, desired, λ * w)`) end at the common level λ + rise |
| Schedule.Recalculate | weight_strategies.py:53-98 | Only guarantee and usage change, and `new_cpu_limit` is untouched. Each guarantee lies in [0, limit] and each usage in [0, min(limit, desired)] (usage 0 when that cap is not positive). Disabled and zero-weight pools end with both at 0. Guarantees and usages each add up to at most 100. The exit conditions of both loops hold. It fails, always with a division by zero, exactly when some enabled pool of weight 0 has a positive limit and the limits of the enabled positive-weight pools add up to less than 99.99 |
| Schedule.RecalculateShares | weight_strategies.py:64-98 | Both passes share in proportion to weight: on success there is a level λ ≥ 0 with every enabled pool of positive weight guaranteed `min(limit, λ * w)`, and a level μ ≥ 0 with every such pool (cap ≥ 0) using `min(limit, desired, μ * w)` |
| ScheduleFacts.RecalculateIgnoresComputedFields | weight_strategies.py:53-62 | Because clearing comes first, the outcome depends only on the configuration and the new limit, not on usage or guarantee left by an earlier call |
| ScheduleFacts.GuaranteeIgnoresDemand | weight_strategies.py:64-80 | The guarantee pass never reads the desired usage: two configurations that differ only in what the pools ask for both fail or both succeed, and then hand out the same guarantee to every pool |
| ScheduleFacts.GuaranteeRoundsRefit | weight_strategies.py:64-80 | The guarantee loop commutes with changing what the pools ask for (and their new limit): on the changed pools it fails exactly when it fails on the originals, and otherwise ends on the originals' outcome with the same change applied |
| ScheduleFacts.RecalculateIdempotent | weight_strategies.py:53-62 | Recalculating again with unchanged inputs gives the same pools |
| ScheduleFacts.LonePool | weight_strategies.py:64-98 | The only enabled pool, with weight > 0.01 and desired ≥ 0, is guaranteed its whole limit and uses `min(limit, desired)` |
| ScheduleFacts.LightLonePoolIdles | weight_strategies.py:84-86 | The only enabled pool, with weight in (0, 0.01], is guaranteed its whole limit but uses nothing: the usage loop's guard compares the eligible weight with 0.01 and never enters |
| ScheduleFacts.DemandThatFitsIsMet | weight_strategies.py:82-98 | Suppose every enabled pool has weight > 0.01 and desired ≥ 0, and the enabled pools' `min(limit, desired)` add up to less than 99.99. Then the usage pass gives every enabled pool exactly `min(limit, desired)` |
| Limit.Recalculate | weight_strategies.py:132-160 | Fails with a division by zero exactly when some enabled pool has positive demand and all such pools have weight 0. Otherwise: pools that are disabled or have demand ≤ 0 end with new limit and usage 0; the others get new limit `min(limit, 100*w/total)` (total = weight of those pools) and usage `min(desired, new limit)`; guarantees are 0; 0 ≤ usage ≤ new limit ≤ limit; new limits and enabled usages each add up to at most 100 |
| Limit.Clear | weight_strategies.py:137-142 | Clearing keeps every pool's configuration and sets usage, guarantee and new limit to 0 |
| Limit.ClearForgets | weight_strategies.py:137-142 | Pools with the same configuration clear to the same pools, and clearing twice is clearing once |
| Limit.AssignNewLimits | weight_strategies.py:147-152 | An enabled pool with positive demand gets new limit `min(limit, 100 * w / total)`; every other pool, and every other field, is unchanged |
| Limit.AssignUsage | weight_strategies.py:154-160 | An enabled pool with positive demand uses `min(desired, new limit)`; every other pool, and every other field, is unchanged |
| Limit.DemandWeightFacts | weight_strategies.py:145-146 | The total weight of pools with positive demand is ≥ 0, and is 0 exactly when every such pool has weight 0 |
| LimitFacts.RecalculateIdempotent | weight_strategies.py:132-142 | Recalculating again with unchanged inputs gives the same pools |
| LimitFacts.NewLimitIgnoresDemandAmount | weight_strategies.py:144-152 | Two configurations that differ only in how much each pool demands, with the same pools demanding, both fail or both give the same new limits |
| LimitFacts.LonePool | weight_strategies.py:144-160 | The only enabled pool, with positive weight and desired ≥ 0, uses `min(limit, desired)` |
| Sweep.Recalculate | weight_strategies.py:53-98 | Either strategy fails, always with a division by zero, exactly in the configurations `Fails` reads off the pools. For the schedule strategy, some enabled zero-weight pool has a positive limit and the limits of the enabled positive-weight pools add up to less than 99.99. For the limit strategy, some enabled pool asks for CPU and every such pool has weight 0. Both strategies keep the configuration. On success: usage lies in [0, limit], and is 0 or at most the demand; the plotted allotment lies in [0, limit]; enabled usage adds up to at most 100. The schedule strategy leaves the new limit alone |
| Sweep.FailsSameConfig | weight_strategies.py:53-62 | Whether a recalculation fails depends only on the configuration, not on anything an earlier call computed |
| Sweep.RecordWithin | weight_strategies.py:109-123 | After a successful recalculation at demand x, the sample shows x as the pool's demand, the demand of all enabled pools (with pool i asking for x) as the total demand, the pool's limit, a usage within both, an allotment within the limit, and total usage within 100 |
| Sweep.SweepFrom | weight_strategies.py:171-189 | The sweep from value x fails, always with a division by zero, exactly when one of the recalculations of the input pools with pool i asking for x, …, 100 fails (`AllSucceed`): the pools carried from one step to the next change nothing. Otherwise it records one sample for each of x, …, 100. Sample k is exactly what a single recalculation of the input pools, with pool i asking for x + k, records, so nothing of one step carries into the next. Each sample shows its demand, the pool's limit, a usage within both, an allotment within the limit, and total usage within 100. Afterwards only pool i's demand differs from the input configuration, and it is 100. The final pools are exactly what a single recalculation with pool i asking for 100 gives. A pool that is the only enabled one, with weight > 0.01, makes the sweep succeed with usage `min(limit, x)` at every step |
| Sweep.GetCharts | weight_strategies.py:100-124 | For either strategy (the limit strategy's copy is lines 162-189), an index outside the pools is `InvalidIndex`, and is the only cause of that error. On an existing pool the sweep fails exactly when one of the 101 recalculations of the input pools with pool i asking for 0, …, 100 fails, and then with a division by zero. On success there are 101 samples; sample x is what one recalculation of the input pools with pool i asking for x records, and lies within the bounds above. Pool i is left asking for 100, the other pools' configuration is unchanged, and the pools equal one recalculation at demand 100 |
| SweepFacts.LoneSweepSaturates | weight_strategies.py:105-124 | Sweeping the only enabled pool (weight > 0.01) succeeds. Its usage series never decreases and ends at the pool's limit |
| Scenarios.SinglePoolGetsItsDemand | test_weight_strategies.py:6-15 | A lone pool with limit 100, weight 100 and desired 1 ends with usage 1 and guarantee 100, its configuration unchanged |
| Scenarios.ZeroWeightContenderFails | weight_strategies.py:68-77 | Pools (limit 50, weight 1) and (limit 50, weight 0): the second guarantee round divides by a total weight of 0 |
| Scenarios.LimitCapsLightPool | weight_strategies.py:144-160 | Beside a heavy pool (weight 500), a light pool (weight 1, asking for 10) is capped at 100/501 under the limit strategy |
| Scenarios.ScheduleFeedsLightPool | weight_strategies.py:82-98 | With the same two pools, the schedule strategy passes what the heavy pool cannot take to the light pool, which gets its full 10 |

## Left out

- The user interface in `main.py` is not part of this model. It holds the figures, sliders, buttons and redraw callbacks, and has no allocation logic.
- Chart presentation is not modelled:
  - the colours, labels, line styles, titles and axis labels of `Chart` and `ChartLine`;
  - the split of a sweep into separate lines;
  - `ResourcePool.__str__` and `__repr__`.

  A sweep is a sequence of numeric samples instead.
- IEEE floating-point rounding is not modelled. Arithmetic is exact over `real`. Only the 0.01 comparisons the code makes are kept.
- The two strategy objects in the repository share one mutable list of pools. Here the pools are passed in and the updated pools returned.
- After a `ZeroDivisionError`, Python leaves the pools partly updated. The model returns only the error, not that partial state.
- The code does not guard a zero total weight; it divides by it in two places:
  - in the guarantee pass, when only zero-weight pools remain eligible;
  - in the limit strategy, when every pool with positive demand has weight 0.

  The model follows the code and returns `Err(DivisionByZero)`.
- The constructor does not check `desired_cpu_usage ≥ 0`, so a negative demand is accepted. Then `min(limit, desired)` is negative and the usage stays 0.
  - Schedule.Recalculate states usage as "0 or at most `min(limit, desired)`" for this reason.
  - ScheduleFacts.LonePool and ScheduleFacts.DemandThatFitsIsMet require desired ≥ 0.
- Sweep.SweepFrom: every sample is tied to a recalculation at its demand, for every configuration. The "follows the demand" series, `min(limit, x)`, is stated only for a pool that is the only enabled one. With several pools the usage at demand x is whatever that recalculation gives, with no simpler closed form.
- The schedule strategy's `get_charts` records the guarantee as the second line, and the limit strategy's records the limit and the new limit. `Sample` holds the limit and one strategy-dependent allotment, which covers both.
