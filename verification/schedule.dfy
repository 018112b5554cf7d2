/** The schedule strategy: two water-filling passes. The guarantee pass shares
    100 units of CPU by weight among the enabled pools up to their limits; the
    usage pass shares 100 units again up to `min(limit, desired usage)`. */
module Schedule {
  import opened Pools
  import opened WaterFill

  /** What a pass leaves behind: the pools, the CPU it did not hand out, the
      number of rounds it ran, and how far its rounds raised the water level
      (the sum of `cpu / total` over the rounds). */
  datatype PassResult = PassResult(pools: seq<Pool>, cpu: real, rounds: nat, rise: real)

  /** `_clear_previous_calculations`: zeroes the two fields this strategy
      computes; `newCpuLimit` and the configuration are left as they are. */
  function Clear(ps: seq<Pool>): (r: seq<Pool>)
    ensures |r| == |ps|
    ensures forall i :: 0 <= i < |ps| ==>
              && SameConfig(r[i], ps[i]) && r[i].newCpuLimit == ps[i].newCpuLimit
              && r[i].realUsage == 0.0 && r[i].cpuGuarantee == 0.0
  {
    seq(|ps|, i requires 0 <= i < |ps| => ps[i].(realUsage := 0.0, cpuGuarantee := 0.0))
  }

  /** Clearing forgets everything an earlier calculation left: pools that
      agree on configuration and new limit clear to the same pools, and
      clearing twice is clearing once. */
  lemma ClearForgets(ps: seq<Pool>, qs: seq<Pool>)
    requires AllSameConfig(ps, qs)
    requires forall i :: 0 <= i < |ps| ==> ps[i].newCpuLimit == qs[i].newCpuLimit
    ensures Clear(ps) == Clear(qs)
    ensures Clear(Clear(ps)) == Clear(ps)
  {
  }

  /** Some enabled pool with a positive limit carries weight zero. */
  predicate HasZeroWeightContender(ps: seq<Pool>) {
    exists i :: 0 <= i < |ps| && ps[i].enabled && ps[i].weight == 0.0 && ps[i].cpuLimit > 0.0
  }

  /** The limits summed over the enabled pools of positive weight: all the
      guarantee pass can hand out to pools that take a share. */
  function WeightedLimits(ps: seq<Pool>): real {
    if |ps| == 0 then 0.0
    else (if ps[0].enabled && ps[0].weight > 0.0 then ps[0].cpuLimit else 0.0) + WeightedLimits(ps[1..])
  }

  lemma {:induction false} WeightedLimitsSame(ps: seq<Pool>, qs: seq<Pool>)
    requires AllSameConfig(ps, qs)
    ensures WeightedLimits(ps) == WeightedLimits(qs)
  {
    if |ps| > 0 {
      WeightedLimitsSame(ps[1..], qs[1..]);
    }
  }

  /** After clearing, the room left for guarantees is the weighted limits,
      and the zero-weight contenders are the configured ones. */
  lemma {:induction false} ClearedContention(ps: seq<Pool>)
    requires AllWellFormed(ps)
    ensures Headroom(Clear(ps), Guarantee) == WeightedLimits(ps)
    ensures HasIdleContender(Clear(ps), Guarantee) <==> HasZeroWeightContender(ps)
  {
    var cleared := Clear(ps);
    if |ps| > 0 {
      assert cleared[1..] == Clear(ps[1..]);
      ClearedContention(ps[1..]);
    }
    if HasIdleContender(cleared, Guarantee) {
      var i :| 0 <= i < |cleared| && Eligible(cleared[i], Guarantee) && cleared[i].weight == 0.0;
      assert ps[i].enabled && ps[i].weight == 0.0 && ps[i].cpuLimit > 0.0;
    }
    if HasZeroWeightContender(ps) {
      var i :| 0 <= i < |ps| && ps[i].enabled && ps[i].weight == 0.0 && ps[i].cpuLimit > 0.0;
      assert Eligible(cleared[i], Guarantee) && cleared[i].weight == 0.0;
    }
  }

  /** Cleared pools sit at water level zero in both passes. */
  lemma ClearedLevel(ps: seq<Pool>)
    requires AllWellFormed(ps)
    ensures Leveled(Clear(ps), Guarantee, 0.0) && Leveled(Clear(ps), Usage, 0.0)
  {
    LeveledPointwise(Clear(ps), Guarantee, 0.0);
    LeveledPointwise(Clear(ps), Usage, 0.0);
  }

  /** The outcome of a pass relates to its input pool by pool. */
  predicate FilledFrom(ps: seq<Pool>, qs: seq<Pool>, pass: Pass) {
    && |qs| == |ps|
    && forall i :: 0 <= i < |ps| ==>
         && OnlyAmountChanged(ps[i], qs[i], pass)
         && Amount(ps[i], pass) <= Amount(qs[i], pass)
         && (qs[i] == ps[i] || Amount(qs[i], pass) <= Cap(ps[i], pass))
         && (!ps[i].enabled || ps[i].weight == 0.0 ==> qs[i] == ps[i])
  }

  lemma FilledFromTransitive(ps: seq<Pool>, qs: seq<Pool>, rs: seq<Pool>, pass: Pass)
    requires FilledFrom(ps, qs, pass) && FilledFrom(qs, rs, pass)
    ensures FilledFrom(ps, rs, pass)
  {
    forall i | 0 <= i < |ps|
      ensures OnlyAmountChanged(ps[i], rs[i], pass)
      ensures qs[i] == ps[i] || Amount(qs[i], pass) <= Cap(ps[i], pass)
    {
      assert Cap(qs[i], pass) == Cap(ps[i], pass);
    }
  }

  /** A round of either pass, seen as a `FilledFrom` step. */
  lemma RoundFills(ps: seq<Pool>, pass: Pass, cpu: real, total: real)
    requires AllWellFormed(ps)
    requires cpu >= 0.0 && total > 0.0
    ensures FilledFrom(ps, Round(ps, pass, cpu, total), pass)
    ensures AllWellFormed(Round(ps, pass, cpu, total))
  {
    RoundEffect(ps, pass, cpu, total);
  }

  lemma FilledFromReflexive(ps: seq<Pool>, pass: Pass)
    ensures FilledFrom(ps, ps, pass)
  {
  }

  /** The guarantee loop, entered with its guard true: one round with the
      eligible weight as `total`, then another while more than `Epsilon` of
      CPU is left and the round handed something out. Every round raises the
      water level of the pools it feeds. Dividing by a total eligible weight
      of zero while something is eligible is an error (`GuaranteeRoundsFails`
      says exactly when it happens). */
  function GuaranteeRounds(ps: seq<Pool>, cpu: real): (r: Result<PassResult>)
    requires AllWellFormed(ps)
    requires cpu > Epsilon
    decreases ActiveCount(ps, Guarantee)
    ensures r.Ok? ==> FilledFrom(ps, r.value.pools, Guarantee) && AllWellFormed(r.value.pools)
    ensures r.Ok? ==> TotalAmount(r.value.pools, Guarantee) + r.value.cpu == TotalAmount(ps, Guarantee) + cpu
    ensures r.Ok? ==> 0.0 <= r.value.cpu
    ensures r.Ok? ==> r.value.cpu <= Epsilon || ActiveCount(r.value.pools, Guarantee) == 0
    ensures r.Ok? ==> 1 <= r.value.rounds <= ActiveCount(ps, Guarantee) + 1
    ensures r.Ok? ==> 0.0 <= r.value.rise
    ensures r.Err? ==> r.error == DivisionByZero
  {
    var total := EligibleWeight(ps, Guarantee);
    EligibleWeightPositive(ps, Guarantee);
    if total == 0.0 && !NoneEligible(ps, Guarantee) then
      Err(DivisionByZero)
    else if total == 0.0 then
      // Nothing is eligible: the round changes nothing and hands out nothing.
      RoundIdle(ps, Guarantee, cpu, total);
      var next := Round(ps, Guarantee, cpu, total);
      var delta := TotalAmount(next, Guarantee) - TotalAmount(ps, Guarantee);
      FilledFromReflexive(ps, Guarantee);
      Ok(PassResult(next, cpu - delta, 1, 0.0))
    else
      var next := Round(ps, Guarantee, cpu, total);
      var delta := TotalAmount(next, Guarantee) - TotalAmount(ps, Guarantee);
      RoundAccounting(ps, Guarantee, cpu);
      RoundFills(ps, Guarantee, cpu, total);
      assert cpu / total >= 0.0;
      if cpu - delta > Epsilon && delta > 0.0 then
        match GuaranteeRounds(next, cpu - delta)
        case Err(e) => Err(e)
        case Ok(res) =>
          FilledFromTransitive(ps, next, res.pools, Guarantee);
          Ok(res.(rounds := res.rounds + 1, rise := cpu / total + res.rise))
      else
        Ok(PassResult(next, cpu - delta, 1, cpu / total))
  }

  /** The guarantee loop fails exactly when a zero-weight pool is eligible
      and the active pools' room is more than `Epsilon` short of the CPU to
      hand out: a round uses up exactly the room it fills, so the loop runs
      out of active pools before it runs out of CPU. */
  lemma {:induction false} GuaranteeRoundsFails(ps: seq<Pool>, cpu: real)
    requires AllWellFormed(ps)
    requires cpu > Epsilon
    decreases ActiveCount(ps, Guarantee)
    ensures GuaranteeRounds(ps, cpu).Err? <==> HasIdleContender(ps, Guarantee) && cpu - Headroom(ps, Guarantee) > Epsilon
  {
    var total := EligibleWeight(ps, Guarantee);
    EligibleWeightPositive(ps, Guarantee);
    if total == 0.0 && !NoneEligible(ps, Guarantee) {
      HeadroomNone(ps, Guarantee);
    } else if total != 0.0 {
      var next := Round(ps, Guarantee, cpu, total);
      var delta := TotalAmount(next, Guarantee) - TotalAmount(ps, Guarantee);
      RoundAccounting(ps, Guarantee, cpu);
      RoundFills(ps, Guarantee, cpu, total);
      RoundRoom(ps, Guarantee, cpu, total);
      HeadroomNonNegative(next, Guarantee);
      IdleContenderStays(ps, Guarantee, cpu, total);
      if cpu - delta > Epsilon && delta > 0.0 {
        GuaranteeRoundsFails(next, cpu - delta);
        if HasIdleContender(next, Guarantee) {
          IdleContenderPersists(ps, Guarantee, cpu, total);
        }
      }
    }
  }

  /** With no eligible weight the guarantee loop stops where it is, unless
      something eligible carries no weight: then it fails. */
  lemma GuaranteeRoundsIdle(ps: seq<Pool>, cpu: real)
    requires AllWellFormed(ps) && cpu > Epsilon
    requires EligibleWeight(ps, Guarantee) == 0.0
    ensures GuaranteeRounds(ps, cpu).Ok? == NoneEligible(ps, Guarantee)
    ensures GuaranteeRounds(ps, cpu).Ok? ==> GuaranteeRounds(ps, cpu).value.pools == ps
  {
    if NoneEligible(ps, Guarantee) {
      RoundIdle(ps, Guarantee, cpu, 0.0);
    }
  }

  /** A round that hands out some CPU and leaves more than `Epsilon` of it
      has filled an active pool, so the loop can go on from its outcome. */
  lemma GuaranteeRoundFills(ps: seq<Pool>, cpu: real, total: real, next: seq<Pool>, delta: real)
    requires AllWellFormed(ps) && cpu > Epsilon
    requires total == EligibleWeight(ps, Guarantee) && total != 0.0
    requires next == Round(ps, Guarantee, cpu, total)
    requires delta == TotalAmount(next, Guarantee) - TotalAmount(ps, Guarantee)
    requires cpu - delta > Epsilon && delta > 0.0
    ensures AllWellFormed(next) && ActiveCount(next, Guarantee) < ActiveCount(ps, Guarantee)
  {
    EligibleWeightPositive(ps, Guarantee);
    RoundAccounting(ps, Guarantee, cpu);
    RoundKeepsWellFormed(ps, Guarantee, cpu, total);
  }

  /** After such a round the loop fails or ends exactly as it does when
      started afresh on the round's outcome with the CPU left. */
  lemma GuaranteeRoundsContinue(ps: seq<Pool>, cpu: real, total: real, next: seq<Pool>, delta: real)
    requires AllWellFormed(ps) && cpu > Epsilon
    requires total == EligibleWeight(ps, Guarantee) && total != 0.0
    requires next == Round(ps, Guarantee, cpu, total)
    requires delta == TotalAmount(next, Guarantee) - TotalAmount(ps, Guarantee)
    requires cpu - delta > Epsilon && delta > 0.0
    ensures AllWellFormed(next)
    ensures GuaranteeRounds(ps, cpu).Ok? == GuaranteeRounds(next, cpu - delta).Ok?
    ensures GuaranteeRounds(ps, cpu).Ok? ==>
              GuaranteeRounds(ps, cpu).value.pools == GuaranteeRounds(next, cpu - delta).value.pools
  {
    GuaranteeRoundFills(ps, cpu, total, next, delta);
  }

  /** A round that hands out nothing, or leaves at most `Epsilon`, is the
      last: the loop succeeds on its outcome. */
  lemma GuaranteeRoundsSettle(ps: seq<Pool>, cpu: real, total: real, next: seq<Pool>, delta: real)
    requires AllWellFormed(ps) && cpu > Epsilon
    requires total == EligibleWeight(ps, Guarantee) && total != 0.0
    requires next == Round(ps, Guarantee, cpu, total)
    requires delta == TotalAmount(next, Guarantee) - TotalAmount(ps, Guarantee)
    requires !(cpu - delta > Epsilon && delta > 0.0)
    ensures GuaranteeRounds(ps, cpu).Ok? && GuaranteeRounds(ps, cpu).value.pools == next
  {
  }

  /** The guarantee loop raises the water level by its `rise`: pools that
      start level stay level, every enabled pool of positive weight holding
      the same multiple of its weight or its whole limit. */
  lemma {:induction false} GuaranteeLevel(ps: seq<Pool>, cpu: real, lam: real)
    requires AllWellFormed(ps) && cpu > Epsilon
    requires Leveled(ps, Guarantee, lam)
    decreases ActiveCount(ps, Guarantee)
    ensures var r := GuaranteeRounds(ps, cpu);
      r.Ok? ==> Leveled(r.value.pools, Guarantee, lam + r.value.rise)
  {
    var total := EligibleWeight(ps, Guarantee);
    EligibleWeightPositive(ps, Guarantee);
    if total == 0.0 {
      if NoneEligible(ps, Guarantee) {
        RoundIdle(ps, Guarantee, cpu, total);
        assert GuaranteeRounds(ps, cpu).value.pools == ps;
      }
    } else {
      var next := Round(ps, Guarantee, cpu, total);
      var delta := TotalAmount(next, Guarantee) - TotalAmount(ps, Guarantee);
      RoundAccounting(ps, Guarantee, cpu);
      RoundFills(ps, Guarantee, cpu, total);
      RoundLevel(ps, Guarantee, cpu, total, lam);
      if cpu - delta > Epsilon && delta > 0.0 {
        GuaranteeLevel(next, cpu - delta, lam + cpu / total);
      }
    }
  }

  /** A zero-weight contender is never fed, so it is still one after a
      round. */
  lemma IdleContenderStays(ps: seq<Pool>, pass: Pass, cpu: real, total: real)
    requires AllWellFormed(ps)
    requires cpu >= 0.0 && total > 0.0
    ensures HasIdleContender(ps, pass) ==> HasIdleContender(Round(ps, pass, cpu, total), pass)
  {
    if HasIdleContender(ps, pass) {
      var r := Round(ps, pass, cpu, total);
      RoundEffect(ps, pass, cpu, total);
      var i :| 0 <= i < |ps| && Eligible(ps[i], pass) && ps[i].weight == 0.0;
      assert r[i] == ps[i];
    }
  }

  /** A zero-weight contender after a round was one before it. */
  lemma IdleContenderPersists(ps: seq<Pool>, pass: Pass, cpu: real, total: real)
    requires AllWellFormed(ps)
    requires cpu >= 0.0 && total > 0.0
    requires HasIdleContender(Round(ps, pass, cpu, total), pass)
    ensures HasIdleContender(ps, pass)
  {
    var r := Round(ps, pass, cpu, total);
    RoundEffect(ps, pass, cpu, total);
    var i :| 0 <= i < |r| && Eligible(r[i], pass) && r[i].weight == 0.0;
    assert Eligible(ps[i], pass) && ps[i].weight == 0.0;
  }

  /** The usage loop: while more than `Epsilon` of CPU is left and the
      eligible weight exceeds `Epsilon`, run a round with that weight as
      `total`. The eligible weight is recomputed from the pools before every
      round, as `_calculate_real_cpu_usage` does at the end of every round. */
  function UsageLoop(ps: seq<Pool>, cpu: real): (r: PassResult)
    requires AllWellFormed(ps)
    requires cpu >= 0.0
    decreases ActiveCount(ps, Usage), if cpu > Epsilon then 1 else 0
    ensures FilledFrom(ps, r.pools, Usage) && AllWellFormed(r.pools)
    ensures TotalAmount(r.pools, Usage) + r.cpu == TotalAmount(ps, Usage) + cpu
    ensures 0.0 <= r.cpu
    ensures r.cpu <= Epsilon || EligibleWeight(r.pools, Usage) <= Epsilon
    ensures r.rounds <= ActiveCount(ps, Usage) + 1
    ensures cpu <= Epsilon ==> r.rounds == 0
    ensures 0.0 <= r.rise
  {
    var total := EligibleWeight(ps, Usage);
    if !(cpu > Epsilon && total > Epsilon) then
      FilledFromReflexive(ps, Usage);
      PassResult(ps, cpu, 0, 0.0)
    else
      var next := Round(ps, Usage, cpu, total);
      var delta := TotalAmount(next, Usage) - TotalAmount(ps, Usage);
      RoundAccounting(ps, Usage, cpu);
      RoundFills(ps, Usage, cpu, total);
      assert cpu / total >= 0.0;
      var res := UsageLoop(next, cpu - delta);
      FilledFromTransitive(ps, next, res.pools, Usage);
      res.(rounds := res.rounds + 1, rise := cpu / total + res.rise)
  }

  /** The usage loop raises the water level by its `rise`: pools that start
      level stay level, every enabled pool of positive weight holding the same
      multiple of its weight or its whole `min(limit, desired usage)`. */
  lemma {:induction false} UsageLevel(ps: seq<Pool>, cpu: real, lam: real)
    requires AllWellFormed(ps) && cpu >= 0.0
    requires Leveled(ps, Usage, lam)
    decreases ActiveCount(ps, Usage), if cpu > Epsilon then 1 else 0
    ensures var r := UsageLoop(ps, cpu); Leveled(r.pools, Usage, lam + r.rise)
  {
    var total := EligibleWeight(ps, Usage);
    if cpu > Epsilon && total > Epsilon {
      var next := Round(ps, Usage, cpu, total);
      var delta := TotalAmount(next, Usage) - TotalAmount(ps, Usage);
      RoundAccounting(ps, Usage, cpu);
      RoundFills(ps, Usage, cpu, total);
      RoundLevel(ps, Usage, cpu, total, lam);
      var res := UsageLoop(next, cpu - delta);
      UsageLevel(next, cpu - delta, lam + cpu / total);
      assert UsageLoop(ps, cpu).pools == res.pools;
      assert lam + UsageLoop(ps, cpu).rise == (lam + cpu / total) + res.rise;
    } else {
      assert UsageLoop(ps, cpu).pools == ps;
      assert lam + UsageLoop(ps, cpu).rise == lam;
    }
  }

  /** `recalculate`: clear, then the guarantee pass, then the usage pass, each
      starting from the full capacity. Only the two computed fields change;
      each pool's guarantee lies in [0, limit] and its usage in
      [0, min(limit, desired usage)] (usage stays 0 when that cap is not
      positive); disabled and zero-weight pools get nothing; neither field
      adds up to more than the capacity. The guarantee pass ends with at most
      `Epsilon` undistributed or every enabled positive-weight pool at its
      limit, the usage pass with at most `Epsilon` undistributed or at most
      `Epsilon` of eligible weight (`RecalculateShares` adds that both passes
      share in proportion to weight). The only error is a division by zero; it happens exactly when
      an enabled zero-weight pool has a positive limit and the limits of the
      enabled pools of positive weight add up to more than `Epsilon` short of
      the capacity. */
  function Recalculate(ps: seq<Pool>): (r: Result<seq<Pool>>)
    requires AllWellFormed(ps)
    ensures r.Ok? ==> AllSameConfig(ps, r.value)
    ensures r.Ok? ==> forall i :: 0 <= i < |ps| ==> r.value[i].newCpuLimit == ps[i].newCpuLimit
    ensures r.Ok? ==> forall i :: 0 <= i < |ps| ==>
              && 0.0 <= r.value[i].cpuGuarantee <= ps[i].cpuLimit
              && 0.0 <= r.value[i].realUsage
              && (r.value[i].realUsage == 0.0 || r.value[i].realUsage <= Min(ps[i].cpuLimit, ps[i].desiredUsage))
    ensures r.Ok? ==> forall i :: 0 <= i < |ps| && (!ps[i].enabled || ps[i].weight == 0.0) ==>
              r.value[i].cpuGuarantee == 0.0 && r.value[i].realUsage == 0.0
    ensures r.Ok? ==> TotalAmount(r.value, Guarantee) <= Capacity && TotalAmount(r.value, Usage) <= Capacity
    ensures r.Ok? ==> (TotalAmount(r.value, Guarantee) >= Capacity - Epsilon
              || forall i :: 0 <= i < |ps| && ps[i].enabled && ps[i].weight > 0.0 ==>
                   r.value[i].cpuGuarantee == ps[i].cpuLimit)
    ensures r.Ok? ==> TotalAmount(r.value, Usage) >= Capacity - Epsilon || EligibleWeight(r.value, Usage) <= Epsilon
    ensures r.Err? ==> r.error == DivisionByZero
    ensures r.Err? <==> HasZeroWeightContender(ps) && Capacity - WeightedLimits(ps) > Epsilon
  {
    var cleared := Clear(ps);
    assert AllWellFormed(cleared);
    ClearedContention(ps);
    GuaranteeRoundsFails(cleared, Capacity);
    match GuaranteeRounds(cleared, Capacity)
    case Err(e) => Err(e)
    case Ok(g) =>
      var u := UsageLoop(g.pools, Capacity);
      GuaranteeFacts(ps, cleared, g);
      UsageFacts(ps, g.pools, u);
      TotalAmountSame(g.pools, u.pools, Guarantee);
      Ok(u.pools)
  }

  /** The level each pass reaches is still there at the end: the guarantee
      pass starts from level zero and the usage pass does not touch
      guarantees; the usage pass starts from level zero too, since the
      guarantee pass leaves every usage at zero. */
  lemma PassLevels(ps: seq<Pool>, g: PassResult, u: PassResult)
    requires AllWellFormed(ps)
    requires GuaranteeRounds(Clear(ps), Capacity) == Ok(g)
    requires AllWellFormed(g.pools) && forall i :: 0 <= i < |g.pools| ==> g.pools[i].realUsage == 0.0
    requires u == UsageLoop(g.pools, Capacity)
    ensures Leveled(u.pools, Guarantee, g.rise) && Leveled(u.pools, Usage, u.rise)
  {
    ClearedLevel(ps);
    GuaranteeLevel(Clear(ps), Capacity, 0.0);
    UnusedLevel(g.pools);
    UsageLevel(g.pools, Capacity, 0.0);
    LevelSurvives(g.pools, u.pools, Usage, Guarantee, g.rise);
  }

  /** Both passes of `recalculate` share in proportion to weight: each leaves
      the pools at one water level, every enabled pool of positive weight
      holding the same multiple of its weight, or its cap if that is lower
      (the limit for guarantees, `min(limit, desired usage)` for usage). */
  lemma RecalculateShares(ps: seq<Pool>)
    requires AllWellFormed(ps)
    ensures var r := Recalculate(ps);
      r.Ok? ==> (exists lam :: Leveled(r.value, Guarantee, lam)) && (exists lam :: Leveled(r.value, Usage, lam))
  {
    var cleared := Clear(ps);
    var rg := GuaranteeRounds(cleared, Capacity);
    if rg.Ok? {
      var g := rg.value;
      GuaranteeFacts(ps, cleared, g);
      var u := UsageLoop(g.pools, Capacity);
      PassLevels(ps, g, u);
      assert Recalculate(ps) == Ok(u.pools);
    }
  }

  /** Pools that use nothing sit at usage level zero. */
  lemma UnusedLevel(ps: seq<Pool>)
    requires forall i :: 0 <= i < |ps| ==> ps[i].realUsage == 0.0
    ensures Leveled(ps, Usage, 0.0)
  {
    LeveledPointwise(ps, Usage, 0.0);
  }

  /** A pass leaves the other pass's field, and so its level, alone. */
  lemma LevelSurvives(ps: seq<Pool>, qs: seq<Pool>, pass: Pass, other: Pass, lam: real)
    requires pass != other
    requires FilledFrom(ps, qs, pass) && Leveled(ps, other, lam)
    ensures Leveled(qs, other, lam)
  {
    forall i | 0 <= i < |ps|
      ensures Amount(qs[i], other) == Amount(ps[i], other) && SameConfig(qs[i], ps[i])
    {
      assert OnlyAmountChanged(ps[i], qs[i], pass);
    }
    LevelSameAmounts(ps, qs, other, lam);
  }

  lemma {:induction false} LevelSameAmounts(ps: seq<Pool>, qs: seq<Pool>, pass: Pass, lam: real)
    requires |ps| == |qs|
    requires forall i :: 0 <= i < |ps| ==> Amount(qs[i], pass) == Amount(ps[i], pass) && SameConfig(qs[i], ps[i])
    requires Leveled(ps, pass, lam)
    ensures Leveled(qs, pass, lam)
  {
    if |ps| > 0 {
      assert Cap(qs[0], pass) == Cap(ps[0], pass);
      LevelSameAmounts(ps[1..], qs[1..], pass, lam);
    }
  }

  /** What the guarantee pass leaves, stated against the pools before
      clearing. */
  lemma GuaranteeFacts(ps: seq<Pool>, cleared: seq<Pool>, g: PassResult)
    requires AllWellFormed(ps) && cleared == Clear(ps)
    requires FilledFrom(cleared, g.pools, Guarantee)
    requires TotalAmount(g.pools, Guarantee) + g.cpu == TotalAmount(cleared, Guarantee) + Capacity
    requires 0.0 <= g.cpu
    requires g.cpu <= Epsilon || ActiveCount(g.pools, Guarantee) == 0
    ensures AllSameConfig(ps, g.pools)
    ensures forall i :: 0 <= i < |ps| ==> g.pools[i].newCpuLimit == ps[i].newCpuLimit && g.pools[i].realUsage == 0.0
    ensures forall i :: 0 <= i < |ps| ==> 0.0 <= g.pools[i].cpuGuarantee <= ps[i].cpuLimit
    ensures forall i :: 0 <= i < |ps| && (!ps[i].enabled || ps[i].weight == 0.0) ==> g.pools[i].cpuGuarantee == 0.0
    ensures TotalAmount(g.pools, Guarantee) <= Capacity
    ensures TotalAmount(g.pools, Guarantee) >= Capacity - Epsilon
            || forall i :: 0 <= i < |ps| && ps[i].enabled && ps[i].weight > 0.0 ==>
                 g.pools[i].cpuGuarantee == ps[i].cpuLimit
    ensures TotalAmount(g.pools, Usage) == 0.0
  {
    TotalAmountZero(cleared, Guarantee);
    forall i | 0 <= i < |ps|
      ensures SameConfig(ps[i], g.pools[i])
      ensures g.pools[i].newCpuLimit == ps[i].newCpuLimit && g.pools[i].realUsage == 0.0
    {
    }
    TotalAmountZero(g.pools, Usage);
    if g.cpu > Epsilon {
      ActiveCountZero(g.pools, Guarantee);
      forall i | 0 <= i < |ps| && ps[i].enabled && ps[i].weight > 0.0
        ensures g.pools[i].cpuGuarantee == ps[i].cpuLimit
      {
        assert !Active(g.pools[i], Guarantee);
      }
    }
  }

  /** What the usage pass leaves, stated against the pools before clearing. */
  lemma UsageFacts(ps: seq<Pool>, gs: seq<Pool>, u: PassResult)
    requires AllWellFormed(ps) && AllSameConfig(ps, gs)
    requires forall i :: 0 <= i < |ps| ==> gs[i].realUsage == 0.0
    requires TotalAmount(gs, Usage) == 0.0
    requires FilledFrom(gs, u.pools, Usage)
    requires TotalAmount(u.pools, Usage) + u.cpu == TotalAmount(gs, Usage) + Capacity
    requires 0.0 <= u.cpu
    requires u.cpu <= Epsilon || EligibleWeight(u.pools, Usage) <= Epsilon
    ensures AllSameConfig(ps, u.pools)
    ensures forall i :: 0 <= i < |ps| ==>
              u.pools[i].newCpuLimit == gs[i].newCpuLimit && u.pools[i].cpuGuarantee == gs[i].cpuGuarantee
    ensures forall i :: 0 <= i < |ps| ==>
              && 0.0 <= u.pools[i].realUsage
              && (u.pools[i].realUsage == 0.0 || u.pools[i].realUsage <= Min(ps[i].cpuLimit, ps[i].desiredUsage))
    ensures forall i :: 0 <= i < |ps| && (!ps[i].enabled || ps[i].weight == 0.0) ==> u.pools[i].realUsage == 0.0
    ensures TotalAmount(u.pools, Usage) <= Capacity
    ensures TotalAmount(u.pools, Usage) >= Capacity - Epsilon || EligibleWeight(u.pools, Usage) <= Epsilon
  {
    forall i | 0 <= i < |ps|
      ensures SameConfig(ps[i], u.pools[i])
      ensures u.pools[i].newCpuLimit == gs[i].newCpuLimit && u.pools[i].cpuGuarantee == gs[i].cpuGuarantee
    {
    }
  }
}

/** Properties of the schedule strategy that relate several calls or fix a
    concrete configuration. */
module ScheduleFacts {
  import opened Pools
  import opened WaterFill
  import opened Schedule

  /** The outcome depends only on the configuration (and the untouched new
      limit), not on what an earlier call computed. */
  lemma RecalculateIgnoresComputedFields(ps: seq<Pool>, qs: seq<Pool>)
    requires AllWellFormed(ps) && AllSameConfig(ps, qs)
    requires forall i :: 0 <= i < |ps| ==> ps[i].newCpuLimit == qs[i].newCpuLimit
    ensures AllWellFormed(qs)
    ensures Recalculate(ps) == Recalculate(qs)
  {
    ClearForgets(ps, qs);
  }

  /** `ps` with the desired usage and the new limit of `qs`, pool by pool:
      the two fields the guarantee pass neither reads nor writes. */
  function Refit(ps: seq<Pool>, qs: seq<Pool>): (r: seq<Pool>)
    requires |ps| == |qs|
    ensures |r| == |ps|
    ensures forall i :: 0 <= i < |ps| ==>
              r[i] == ps[i].(desiredUsage := qs[i].desiredUsage, newCpuLimit := qs[i].newCpuLimit)
  {
    seq(|ps|, i requires 0 <= i < |ps| => ps[i].(desiredUsage := qs[i].desiredUsage, newCpuLimit := qs[i].newCpuLimit))
  }

  /** The guarantee pass never reads the desired usage: `recalculate` on pools
      that differ only in what they ask for (and in what an earlier call
      computed or left as new limit) fails alike and, when it succeeds, hands
      out the same guarantees. */
  lemma GuaranteeIgnoresDemand(ps: seq<Pool>, qs: seq<Pool>)
    requires AllWellFormed(ps) && |ps| == |qs|
    requires forall i :: 0 <= i < |ps| ==>
               ps[i].cpuLimit == qs[i].cpuLimit && ps[i].weight == qs[i].weight && ps[i].enabled == qs[i].enabled
    ensures AllWellFormed(qs)
    ensures Recalculate(ps).Ok? == Recalculate(qs).Ok?
    ensures Recalculate(ps).Ok? ==>
              forall i :: 0 <= i < |ps| ==> Recalculate(ps).value[i].cpuGuarantee == Recalculate(qs).value[i].cpuGuarantee
  {
    assert AllWellFormed(qs);
    var cp := Clear(ps);
    assert AllWellFormed(cp);
    assert Clear(qs) == Refit(cp, qs);
    GuaranteeRoundsRefit(cp, qs, Capacity);
    var gp := GuaranteeRounds(cp, Capacity);
    if gp.Ok? {
      var gq := Refit(gp.value.pools, qs);
      var up, uq := UsageLoop(gp.value.pools, Capacity), UsageLoop(gq, Capacity);
      assert Recalculate(ps) == Ok(up.pools) && Recalculate(qs) == Ok(uq.pools);
      forall i | 0 <= i < |ps|
        ensures up.pools[i].cpuGuarantee == uq.pools[i].cpuGuarantee
      {
        assert OnlyAmountChanged(gp.value.pools[i], up.pools[i], Usage);
        assert OnlyAmountChanged(gq[i], uq.pools[i], Usage);
      }
    }
  }

  /** The guarantee loop commutes with changing what the pools ask for: run
      on refitted pools it fails exactly when it fails on the originals, and
      otherwise ends on the refitted outcome. */
  lemma {:induction false} GuaranteeRoundsRefit(ps: seq<Pool>, qs: seq<Pool>, cpu: real)
    requires AllWellFormed(ps) && |ps| == |qs| && cpu > Epsilon
    decreases ActiveCount(ps, Guarantee)
    ensures AllWellFormed(Refit(ps, qs))
    ensures GuaranteeRounds(Refit(ps, qs), cpu).Ok? == GuaranteeRounds(ps, cpu).Ok?
    ensures GuaranteeRounds(ps, cpu).Ok? ==>
              GuaranteeRounds(Refit(ps, qs), cpu).value.pools == Refit(GuaranteeRounds(ps, cpu).value.pools, qs)
  {
    var total := EligibleWeight(ps, Guarantee);
    if total != 0.0 {
      var next := Round(ps, Guarantee, cpu, total);
      var delta := TotalAmount(next, Guarantee) - TotalAmount(ps, Guarantee);
      if cpu - delta > Epsilon && delta > 0.0 {
        GuaranteeRoundFills(ps, cpu, total, next, delta);
        GuaranteeRoundsRefit(next, qs, cpu - delta);
        RefitContinues(ps, qs, cpu, total, next, delta);
        return;
      }
    }
    RefitSettles(ps, qs, cpu);
  }

  /** The inductive step: when the loop goes on after a round, refitting
      commutes with it if it commutes with the rest of the loop. */
  lemma RefitContinues(ps: seq<Pool>, qs: seq<Pool>, cpu: real, total: real, next: seq<Pool>, delta: real)
    requires AllWellFormed(ps) && |ps| == |qs| && cpu > Epsilon
    requires total == EligibleWeight(ps, Guarantee) && total != 0.0
    requires next == Round(ps, Guarantee, cpu, total) && AllWellFormed(next)
    requires delta == TotalAmount(next, Guarantee) - TotalAmount(ps, Guarantee)
    requires cpu - delta > Epsilon && delta > 0.0
    requires GuaranteeRounds(Refit(next, qs), cpu - delta).Ok? == GuaranteeRounds(next, cpu - delta).Ok?
    requires GuaranteeRounds(next, cpu - delta).Ok? ==>
               GuaranteeRounds(Refit(next, qs), cpu - delta).value.pools
               == Refit(GuaranteeRounds(next, cpu - delta).value.pools, qs)
    ensures AllWellFormed(Refit(ps, qs))
    ensures GuaranteeRounds(Refit(ps, qs), cpu).Ok? == GuaranteeRounds(ps, cpu).Ok?
    ensures GuaranteeRounds(ps, cpu).Ok? ==>
              GuaranteeRounds(Refit(ps, qs), cpu).value.pools == Refit(GuaranteeRounds(ps, cpu).value.pools, qs)
  {
    RefitSums(ps, qs);
    RoundRefit(ps, qs, cpu, total);
    RefitSums(next, qs);
    GuaranteeRoundsContinue(ps, cpu, total, next, delta);
    GuaranteeRoundsContinue(Refit(ps, qs), cpu, total, Refit(next, qs), delta);
  }

  /** The base cases: when the loop stops at once or after one round,
      refitting commutes with it. */
  lemma RefitSettles(ps: seq<Pool>, qs: seq<Pool>, cpu: real)
    requires AllWellFormed(ps) && |ps| == |qs| && cpu > Epsilon
    requires var total := EligibleWeight(ps, Guarantee);
      total != 0.0 ==>
      var delta := TotalAmount(Round(ps, Guarantee, cpu, total), Guarantee) - TotalAmount(ps, Guarantee);
      !(cpu - delta > Epsilon && delta > 0.0)
    ensures AllWellFormed(Refit(ps, qs))
    ensures GuaranteeRounds(Refit(ps, qs), cpu).Ok? == GuaranteeRounds(ps, cpu).Ok?
    ensures GuaranteeRounds(ps, cpu).Ok? ==>
              GuaranteeRounds(Refit(ps, qs), cpu).value.pools == Refit(GuaranteeRounds(ps, cpu).value.pools, qs)
  {
    var total := EligibleWeight(ps, Guarantee);
    RefitSums(ps, qs);
    if total == 0.0 {
      GuaranteeRoundsIdle(ps, cpu);
      GuaranteeRoundsIdle(Refit(ps, qs), cpu);
    } else {
      var next := Round(ps, Guarantee, cpu, total);
      var delta := TotalAmount(next, Guarantee) - TotalAmount(ps, Guarantee);
      RoundRefit(ps, qs, cpu, total);
      RefitSums(next, qs);
      GuaranteeRoundsSettle(ps, cpu, total, next, delta);
      GuaranteeRoundsSettle(Refit(ps, qs), cpu, total, Refit(next, qs), delta);
    }
  }

  /** Refitting changes nothing the guarantee pass reads: the same pools are
      eligible with the same weight, and hold the same guarantees. */
  lemma {:induction false} RefitSums(ps: seq<Pool>, qs: seq<Pool>)
    requires |ps| == |qs|
    ensures AllWellFormed(ps) ==> AllWellFormed(Refit(ps, qs))
    ensures EligibleWeight(Refit(ps, qs), Guarantee) == EligibleWeight(ps, Guarantee)
    ensures TotalAmount(Refit(ps, qs), Guarantee) == TotalAmount(ps, Guarantee)
    ensures ActiveCount(Refit(ps, qs), Guarantee) == ActiveCount(ps, Guarantee)
    ensures NoneEligible(Refit(ps, qs), Guarantee) == NoneEligible(ps, Guarantee)
  {
    var r := Refit(ps, qs);
    assert forall i :: 0 <= i < |ps| ==> Eligible(r[i], Guarantee) == Eligible(ps[i], Guarantee);
    if |ps| > 0 {
      assert r[1..] == Refit(ps[1..], qs[1..]);
      RefitSums(ps[1..], qs[1..]);
    }
  }

  /** A guarantee round on refitted pools is the refitted round. */
  lemma RoundRefit(ps: seq<Pool>, qs: seq<Pool>, cpu: real, total: real)
    requires |ps| == |qs| && total != 0.0
    ensures Round(Refit(ps, qs), Guarantee, cpu, total) == Refit(Round(ps, Guarantee, cpu, total), qs)
  {
    var r, a, b := Refit(ps, qs), Round(Refit(ps, qs), Guarantee, cpu, total), Refit(Round(ps, Guarantee, cpu, total), qs);
    forall i | 0 <= i < |ps|
      ensures a[i] == b[i]
    {
      GiveRefit(ps[i], qs[i], cpu, total);
    }
    assert a == b;
  }

  /** A guarantee step on a refitted pool is the refitted step. */
  lemma GiveRefit(p: Pool, q: Pool, cpu: real, total: real)
    requires total != 0.0
    ensures Give(p.(desiredUsage := q.desiredUsage, newCpuLimit := q.newCpuLimit), Guarantee, cpu, total)
            == Give(p, Guarantee, cpu, total).(desiredUsage := q.desiredUsage, newCpuLimit := q.newCpuLimit)
  {
  }

  /** Recalculating a second time with unchanged inputs gives the same pools. */
  lemma RecalculateIdempotent(ps: seq<Pool>)
    requires AllWellFormed(ps) && Recalculate(ps).Ok?
    ensures AllWellFormed(Recalculate(ps).value)
    ensures Recalculate(Recalculate(ps).value) == Recalculate(ps)
  {
    RecalculateIgnoresComputedFields(ps, Recalculate(ps).value);
  }

  /** A pool alone with weight above `Epsilon` gets its whole limit as
      guarantee and uses `min(limit, desired usage)`. */
  lemma LonePool(ps: seq<Pool>, i: nat)
    requires AllWellFormed(ps) && LoneEnabled(ps, i)
    requires ps[i].weight > Epsilon && ps[i].desiredUsage >= 0.0
    ensures Recalculate(ps).Ok?
    ensures Recalculate(ps).value[i].cpuGuarantee == ps[i].cpuLimit
    ensures Recalculate(ps).value[i].realUsage == Min(ps[i].cpuLimit, ps[i].desiredUsage)
  {
    var cleared := Clear(ps);
    var gs := LoneGuarantee(cleared, i);
    var u := UsageLoop(gs, Capacity);
    LoneUsage(gs, i);
  }

  /** The guarantee pass on a lone pool: one round fills it to its limit. */
  lemma LoneGuarantee(ps: seq<Pool>, i: nat) returns (gs: seq<Pool>)
    requires AllWellFormed(ps) && LoneEnabled(ps, i)
    requires ps[i].weight > 0.0
    requires forall j :: 0 <= j < |ps| ==> ps[j].cpuGuarantee == 0.0
    ensures GuaranteeRounds(ps, Capacity).Ok? && GuaranteeRounds(ps, Capacity).value.pools == gs
    ensures gs == ps[i := ps[i].(cpuGuarantee := ps[i].cpuLimit)]
  {
    var p := ps[i];
    gs := ps[i := p.(cpuGuarantee := p.cpuLimit)];
    EligibleWeightLone(ps, Guarantee, i);
    if p.cpuLimit == 0.0 {
      assert gs == ps;
      assert NoneEligible(ps, Guarantee);
      RoundIdle(ps, Guarantee, Capacity, 0.0);
    } else {
      var total := EligibleWeight(ps, Guarantee);
      assert total == p.weight;
      Cancel(Capacity, total);
      RoundLone(ps, Guarantee, Capacity, total, i);
      assert Round(ps, Guarantee, Capacity, total) == gs;
      TotalAmountZero(ps, Guarantee);
      TotalAmountLone(gs, Guarantee, i);
      var delta := p.cpuLimit;
      assert NoneEligible(gs, Guarantee);
      EligibleWeightNone(gs, Guarantee);
      RoundIdle(gs, Guarantee, Capacity - delta, 0.0);
    }
  }

  /** A lone pool whose weight is positive but at most `Epsilon` is
      guaranteed its whole limit, yet uses nothing whatever it asks for: the
      usage loop only starts when more than `Epsilon` of weight is eligible. */
  lemma LightLonePoolIdles(ps: seq<Pool>, i: nat)
    requires AllWellFormed(ps) && LoneEnabled(ps, i)
    requires 0.0 < ps[i].weight <= Epsilon
    ensures Recalculate(ps).Ok?
    ensures Recalculate(ps).value[i].cpuGuarantee == ps[i].cpuLimit
    ensures Recalculate(ps).value[i].realUsage == 0.0
  {
    var gs := LoneGuarantee(Clear(ps), i);
    EligibleWeightLone(gs, Usage, i);
    assert UsageLoop(gs, Capacity).pools == gs;
  }

  /** The usage pass on a lone pool: one round fills it to
      `min(limit, desired usage)`. */
  lemma LoneUsage(ps: seq<Pool>, i: nat)
    requires AllWellFormed(ps) && LoneEnabled(ps, i)
    requires ps[i].weight > Epsilon && ps[i].desiredUsage >= 0.0
    requires forall j :: 0 <= j < |ps| ==> ps[j].realUsage == 0.0
    ensures UsageLoop(ps, Capacity).pools == ps[i := ps[i].(realUsage := Min(ps[i].cpuLimit, ps[i].desiredUsage))]
  {
    var p := ps[i];
    var c := Min(p.cpuLimit, p.desiredUsage);
    var us := ps[i := p.(realUsage := c)];
    EligibleWeightLone(ps, Usage, i);
    if c == 0.0 {
      assert us == ps;
    } else {
      LoneUsageRound(ps, i);
      var delta := TotalAmount(us, Usage) - TotalAmount(ps, Usage);
      assert UsageLoop(us, Capacity - delta).pools == us;
    }
  }

  /** The single round of the usage pass on a lone pool with a positive cap. */
  lemma LoneUsageRound(ps: seq<Pool>, i: nat)
    requires AllWellFormed(ps) && LoneEnabled(ps, i)
    requires ps[i].weight > Epsilon && Min(ps[i].cpuLimit, ps[i].desiredUsage) > 0.0
    requires forall j :: 0 <= j < |ps| ==> ps[j].realUsage == 0.0
    ensures var us := ps[i := ps[i].(realUsage := Min(ps[i].cpuLimit, ps[i].desiredUsage))];
      && EligibleWeight(ps, Usage) == ps[i].weight
      && Round(ps, Usage, Capacity, ps[i].weight) == us
      && TotalAmount(us, Usage) - TotalAmount(ps, Usage) == Min(ps[i].cpuLimit, ps[i].desiredUsage)
      && EligibleWeight(us, Usage) == 0.0
  {
    var p := ps[i];
    var c := Min(p.cpuLimit, p.desiredUsage);
    var us := ps[i := p.(realUsage := c)];
    EligibleWeightLone(ps, Usage, i);
    Cancel(Capacity, p.weight);
    RoundLone(ps, Usage, Capacity, p.weight, i);
    TotalAmountZero(ps, Usage);
    TotalAmountLone(us, Usage, i);
    assert NoneEligible(us, Usage);
    EligibleWeightNone(us, Usage);
  }

  /** When every enabled pool carries a weight above `Epsilon`, asks for a
      non-negative amount, and the enabled pools' asks (each capped at its
      limit) fit in the capacity with `Epsilon` to spare, the usage pass meets
      every ask. */
  lemma DemandThatFitsIsMet(ps: seq<Pool>)
    requires AllWellFormed(ps)
    requires forall i :: 0 <= i < |ps| && ps[i].enabled ==> ps[i].weight > Epsilon && ps[i].desiredUsage >= 0.0
    requires EnabledCaps(ps, Usage) < Capacity - Epsilon
    ensures Recalculate(ps).Ok?
    ensures forall i :: 0 <= i < |ps| && ps[i].enabled ==>
              Recalculate(ps).value[i].realUsage == Min(ps[i].cpuLimit, ps[i].desiredUsage)
  {
    SettledUsageIsMet(ps, Recalculate(ps).value);
  }

  /** When the enabled pools' caps add up to less than `Capacity - Epsilon`,
      a usage pass that ended cannot have handed out `Capacity - Epsilon`, so
      less than `Epsilon` of weight is still eligible, and then every enabled
      pool of weight above `Epsilon` has reached its cap. */
  lemma SettledUsageIsMet(ps: seq<Pool>, r: seq<Pool>)
    requires AllWellFormed(ps) && AllSameConfig(ps, r)
    requires forall i :: 0 <= i < |ps| && ps[i].enabled ==> ps[i].weight > Epsilon && ps[i].desiredUsage >= 0.0
    requires EnabledCaps(ps, Usage) < Capacity - Epsilon
    requires forall i :: 0 <= i < |ps| ==>
               && 0.0 <= r[i].realUsage
               && (r[i].realUsage == 0.0 || r[i].realUsage <= Min(ps[i].cpuLimit, ps[i].desiredUsage))
    requires forall i :: 0 <= i < |ps| && !ps[i].enabled ==> r[i].realUsage == 0.0
    requires TotalAmount(r, Usage) >= Capacity - Epsilon || EligibleWeight(r, Usage) <= Epsilon
    ensures forall i :: 0 <= i < |ps| && ps[i].enabled ==> r[i].realUsage == Min(ps[i].cpuLimit, ps[i].desiredUsage)
  {
    assert AllWellFormed(r);
    assert forall i :: 0 <= i < |ps| ==> Cap(r[i], Usage) == Cap(ps[i], Usage) && r[i].enabled == ps[i].enabled;
    EnabledCapsSame(ps, r);
    TotalAmountWithinCaps(r, Usage);
    forall i | 0 <= i < |ps| && ps[i].enabled
      ensures r[i].realUsage == Min(ps[i].cpuLimit, ps[i].desiredUsage)
    {
      EligibleWeightCovers(r, Usage, i);
    }
  }

  lemma {:induction false} EnabledCapsSame(ps: seq<Pool>, qs: seq<Pool>)
    requires AllSameConfig(ps, qs)
    ensures EnabledCaps(ps, Usage) == EnabledCaps(qs, Usage)
  {
    if |ps| > 0 {
      EnabledCapsSame(ps[1..], qs[1..]);
    }
  }
}
