/** The limit strategy: one proportional pass. Every enabled pool with
    positive demand gets a new limit of `min(limit, 100 * weight / total)`,
    where `total` is the weight of those pools, and uses
    `min(desired usage, new limit)`. CPU a pool leaves unused is not handed to
    the others. */
module Limit {
  import opened Pools

  /** The pools this strategy serves: enabled, with positive demand. */
  predicate Demanding(p: Pool) {
    p.enabled && p.desiredUsage > 0.0
  }

  function DemandContribution(p: Pool): real {
    if Demanding(p) then p.weight else 0.0
  }

  /** Weight summed over the demanding pools (`total_weights`). */
  function DemandWeight(ps: seq<Pool>): real {
    if |ps| == 0 then 0.0 else DemandContribution(ps[0]) + DemandWeight(ps[1..])
  }

  /** `newCpuLimit` summed over all pools. */
  function NewLimitTotal(ps: seq<Pool>): real {
    if |ps| == 0 then 0.0 else ps[0].newCpuLimit + NewLimitTotal(ps[1..])
  }

  /** Zeroes all three computed fields. */
  function ClearPool(p: Pool): Pool {
    p.(realUsage := 0.0, cpuGuarantee := 0.0, newCpuLimit := 0.0)
  }

  /** `_clear_previous_calculations`: every pool keeps its configuration and
      starts from zero usage, guarantee and new limit. */
  function Clear(ps: seq<Pool>): (r: seq<Pool>)
    ensures |r| == |ps|
    ensures forall i :: 0 <= i < |ps| ==>
              && SameConfig(r[i], ps[i])
              && r[i].realUsage == 0.0 && r[i].cpuGuarantee == 0.0 && r[i].newCpuLimit == 0.0
    ensures forall i :: 0 <= i < |ps| ==> Demanding(r[i]) == Demanding(ps[i])
    ensures forall i :: 0 <= i < |ps| ==> DemandContribution(r[i]) == DemandContribution(ps[i])
  {
    seq(|ps|, i requires 0 <= i < |ps| => ClearPool(ps[i]))
  }

  /** Clearing forgets every computed field: pools with the same
      configuration clear alike, and clearing twice is clearing once. */
  lemma ClearForgets(ps: seq<Pool>, qs: seq<Pool>)
    requires AllSameConfig(ps, qs)
    ensures Clear(ps) == Clear(qs)
    ensures Clear(Clear(ps)) == Clear(ps)
  {
  }

  /** A demanding pool's new limit is its weighted share of the capacity,
      capped at its own limit; other pools keep theirs. */
  function LimitPool(p: Pool, total: real): Pool
    requires Demanding(p) ==> total != 0.0
  {
    if Demanding(p) then p.(newCpuLimit := Min(p.cpuLimit, Capacity * p.weight / total)) else p
  }

  /** A demanding pool uses its demand capped at its new limit; other pools
      keep their usage. */
  function UsePool(p: Pool): Pool {
    if Demanding(p) then p.(realUsage := Min(p.desiredUsage, p.newCpuLimit)) else p
  }

  /** `_caluclate_new_cpu_limit` after the total is known: a demanding
      pool's new limit becomes its weighted share of the capacity, capped at
      its limit; nothing else changes. */
  function AssignNewLimits(ps: seq<Pool>, total: real): (r: seq<Pool>)
    requires total != 0.0 || forall i :: 0 <= i < |ps| ==> !Demanding(ps[i])
    ensures |r| == |ps|
    ensures forall i :: 0 <= i < |ps| ==>
              && SameConfig(r[i], ps[i])
              && r[i].realUsage == ps[i].realUsage && r[i].cpuGuarantee == ps[i].cpuGuarantee
              && r[i].newCpuLimit == (if Demanding(ps[i]) then Min(ps[i].cpuLimit, Capacity * ps[i].weight / total)
                                      else ps[i].newCpuLimit)
  {
    if |ps| == 0 then [] else [LimitPool(ps[0], total)] + AssignNewLimits(ps[1..], total)
  }

  /** `_caluclate_real_usage`: a demanding pool uses its demand capped at
      its new limit; nothing else changes. */
  function AssignUsage(ps: seq<Pool>): (r: seq<Pool>)
    ensures |r| == |ps|
    ensures forall i :: 0 <= i < |ps| ==>
              && SameConfig(r[i], ps[i])
              && r[i].cpuGuarantee == ps[i].cpuGuarantee && r[i].newCpuLimit == ps[i].newCpuLimit
              && r[i].realUsage == (if Demanding(ps[i]) then Min(ps[i].desiredUsage, ps[i].newCpuLimit)
                                    else ps[i].realUsage)
  {
    if |ps| == 0 then [] else [UsePool(ps[0])] + AssignUsage(ps[1..])
  }

  /** One pool through the whole recalculation. */
  lemma PoolOutcome(p: Pool, total: real)
    requires WellFormed(p) && total >= 0.0
    requires Demanding(p) ==> total > 0.0
    ensures var q := UsePool(LimitPool(ClearPool(p), total));
      && SameConfig(p, q) && q.cpuGuarantee == 0.0
      && (!Demanding(p) ==> q.newCpuLimit == 0.0 && q.realUsage == 0.0)
      && (Demanding(p) ==> q.newCpuLimit == Min(p.cpuLimit, Capacity * p.weight / total)
                           && q.realUsage == Min(p.desiredUsage, q.newCpuLimit))
      && 0.0 <= q.realUsage <= q.newCpuLimit <= p.cpuLimit
      && (total != 0.0 ==> q.newCpuLimit <= Capacity * DemandContribution(p) / total)
  {
    if Demanding(p) {
      assert Capacity * p.weight >= 0.0;
      assert Capacity * p.weight / total >= 0.0;
    }
  }

  /** Some pool is demanding, and every demanding pool has weight zero: the
      one configuration in which the proportional division divides by zero. */
  predicate OnlyWeightlessDemand(ps: seq<Pool>) {
    && (exists i :: 0 <= i < |ps| && Demanding(ps[i]))
    && (forall i :: 0 <= i < |ps| && Demanding(ps[i]) ==> ps[i].weight == 0.0)
  }

  /** `recalculate`: clear, assign new limits, assign usage. Non-demanding
      pools end with zero new limit and usage; a demanding pool's new limit is
      its weighted share of the capacity capped at its limit, and its usage is
      its demand capped at that new limit. Guarantees are zero. New limits,
      and so usages, add up to at most the capacity. The only error is a
      division by zero, exactly when every demanding pool has weight zero. */
  function Recalculate(ps: seq<Pool>): (r: Result<seq<Pool>>)
    requires AllWellFormed(ps)
    ensures r.Err? <==> OnlyWeightlessDemand(ps)
    ensures r.Err? ==> r.error == DivisionByZero
    ensures r.Ok? ==> AllSameConfig(ps, r.value)
    ensures r.Ok? ==> forall i :: 0 <= i < |ps| ==> r.value[i].cpuGuarantee == 0.0
    ensures r.Ok? ==> forall i :: 0 <= i < |ps| && !Demanding(ps[i]) ==>
              r.value[i].newCpuLimit == 0.0 && r.value[i].realUsage == 0.0
    ensures r.Ok? ==> forall i :: 0 <= i < |ps| && Demanding(ps[i]) ==>
              && DemandWeight(ps) > 0.0
              && r.value[i].newCpuLimit == Min(ps[i].cpuLimit, Capacity * ps[i].weight / DemandWeight(ps))
              && r.value[i].realUsage == Min(ps[i].desiredUsage, r.value[i].newCpuLimit)
    ensures r.Ok? ==> forall i :: 0 <= i < |ps| ==>
              0.0 <= r.value[i].realUsage <= r.value[i].newCpuLimit <= ps[i].cpuLimit
    ensures r.Ok? ==> NewLimitTotal(r.value) <= Capacity && EnabledUsage(r.value) <= Capacity
  {
    var cleared := Clear(ps);
    var total := DemandWeight(cleared);
    DemandWeightFacts(ps);
    assert DemandWeight(cleared) == DemandWeight(ps) by { DemandWeightSameDemand(ps, cleared); }
    if total == 0.0 && exists i :: 0 <= i < |cleared| && Demanding(cleared[i]) then
      Err(DivisionByZero)
    else
      var used := AssignUsage(AssignNewLimits(cleared, total));
      ResultFacts(ps, total);
      Ok(used)
  }

  /** Weights are not negative, so the demand weight is zero exactly when
      every demanding pool has weight zero. */
  lemma {:induction false} DemandWeightFacts(ps: seq<Pool>)
    requires AllWellFormed(ps)
    ensures DemandWeight(ps) >= 0.0
    ensures DemandWeight(ps) == 0.0 <==> forall i :: 0 <= i < |ps| && Demanding(ps[i]) ==> ps[i].weight == 0.0
  {
    if |ps| > 0 {
      DemandWeightFacts(ps[1..]);
      if DemandWeight(ps) == 0.0 {
        forall i | 0 <= i < |ps| && Demanding(ps[i]) ensures ps[i].weight == 0.0 {
          if i > 0 {
            assert ps[i] == ps[1..][i - 1];
          }
        }
      } else if DemandContribution(ps[0]) == 0.0 {
        var j :| 0 <= j < |ps[1..]| && Demanding(ps[1..][j]) && ps[1..][j].weight != 0.0;
        assert ps[j + 1] == ps[1..][j];
      }
    }
  }

  /** The demand weight reads only which pools demand and their weights. */
  lemma {:induction false} DemandWeightSameDemand(ps: seq<Pool>, qs: seq<Pool>)
    requires |ps| == |qs|
    requires forall i :: 0 <= i < |ps| ==> DemandContribution(ps[i]) == DemandContribution(qs[i])
    ensures DemandWeight(ps) == DemandWeight(qs)
  {
    if |ps| > 0 {
      DemandWeightSameDemand(ps[1..], qs[1..]);
    }
  }

  /** When only pool `i` may be demanding, the demand weight is its share. */
  lemma {:induction false} DemandWeightLone(ps: seq<Pool>, i: nat)
    requires i < |ps|
    requires forall j :: 0 <= j < |ps| && j != i ==> !Demanding(ps[j])
    ensures DemandWeight(ps) == DemandContribution(ps[i])
  {
    if i == 0 {
      DemandWeightNone(ps[1..]);
    } else {
      DemandWeightLone(ps[1..], i - 1);
    }
  }

  lemma {:induction false} DemandWeightNone(ps: seq<Pool>)
    requires forall j :: 0 <= j < |ps| ==> !Demanding(ps[j])
    ensures DemandWeight(ps) == 0.0
  {
    if |ps| > 0 {
      DemandWeightNone(ps[1..]);
    }
  }

  /** The per-pool outcome and the capacity bound, pool by pool from
      `PoolOutcome`. */
  lemma ResultFacts(ps: seq<Pool>, total: real)
    requires AllWellFormed(ps)
    requires total == DemandWeight(ps) && total >= 0.0
    requires total != 0.0 || forall i :: 0 <= i < |ps| ==> !Demanding(ps[i])
    ensures forall i :: 0 <= i < |ps| ==> Demanding(ps[i]) ==> total != 0.0
    ensures var used := AssignUsage(AssignNewLimits(Clear(ps), total));
      && AllSameConfig(ps, used)
      && (forall i :: 0 <= i < |ps| ==> used[i] == UsePool(LimitPool(ClearPool(ps[i]), total)))
      && (forall i :: 0 <= i < |ps| ==> 0.0 <= used[i].realUsage <= used[i].newCpuLimit <= ps[i].cpuLimit)
      && NewLimitTotal(used) <= Capacity && EnabledUsage(used) <= Capacity
  {
    var cleared := Clear(ps);
    var limited := AssignNewLimits(cleared, total);
    var used := AssignUsage(limited);
    forall i | 0 <= i < |ps|
      ensures used[i] == UsePool(LimitPool(ClearPool(ps[i]), total))
      ensures SameConfig(ps[i], used[i])
      ensures 0.0 <= used[i].realUsage <= used[i].newCpuLimit <= ps[i].cpuLimit
      ensures total != 0.0 ==> used[i].newCpuLimit <= Capacity * DemandContribution(ps[i]) / total
      ensures total == 0.0 ==> used[i].newCpuLimit == 0.0
    {
      PoolOutcome(ps[i], total);
    }
    if total == 0.0 {
      NewLimitTotalZero(used);
    } else {
      NewLimitsBounded(ps, used, total);
    }
    EnabledUsageBelowNewLimits(used);
  }

  lemma {:induction false} NewLimitTotalZero(ps: seq<Pool>)
    requires forall i :: 0 <= i < |ps| ==> ps[i].newCpuLimit == 0.0
    ensures NewLimitTotal(ps) == 0.0
  {
    if |ps| > 0 {
      NewLimitTotalZero(ps[1..]);
    }
  }

  /** The proportional shares of the capacity offered to the demanding
      pools, summed. */
  function Offered(ps: seq<Pool>, total: real): real
    requires total != 0.0
  {
    if |ps| == 0 then 0.0 else Capacity * DemandContribution(ps[0]) / total + Offered(ps[1..], total)
  }

  lemma {:induction false} OfferedIsProportional(ps: seq<Pool>, total: real)
    requires total != 0.0
    ensures Offered(ps, total) == Capacity * DemandWeight(ps) / total
  {
    if |ps| > 0 {
      var a, b := DemandContribution(ps[0]), DemandWeight(ps[1..]);
      OfferedIsProportional(ps[1..], total);
      assert DemandWeight(ps) == a + b;
      ShareStep(Capacity, DemandWeight(ps), a, b, Offered(ps[1..], total), total);
    }
  }

  /** Each new limit is at most the share offered to its pool, so the new
      limits add up to at most the shares offered, which is the capacity. */
  lemma NewLimitsBounded(ps: seq<Pool>, qs: seq<Pool>, total: real)
    requires |ps| == |qs| && total == DemandWeight(ps) && total > 0.0
    requires forall i :: 0 <= i < |ps| ==> qs[i].newCpuLimit <= Capacity * DemandContribution(ps[i]) / total
    ensures NewLimitTotal(qs) <= Capacity
  {
    NewLimitsBelowOffered(ps, qs, total);
    OfferedIsProportional(ps, total);
    Cancel(Capacity, DemandWeight(ps));
  }

  lemma {:induction false} NewLimitsBelowOffered(ps: seq<Pool>, qs: seq<Pool>, total: real)
    requires |ps| == |qs| && total != 0.0
    requires forall i :: 0 <= i < |ps| ==> qs[i].newCpuLimit <= Capacity * DemandContribution(ps[i]) / total
    ensures NewLimitTotal(qs) <= Offered(ps, total)
  {
    if |ps| > 0 {
      NewLimitsBelowOffered(ps[1..], qs[1..], total);
    }
  }

  /** Usage of enabled pools is bounded by the sum of new limits when each
      usage lies between zero and its new limit. */
  lemma {:induction false} EnabledUsageBelowNewLimits(ps: seq<Pool>)
    requires forall i :: 0 <= i < |ps| ==> 0.0 <= ps[i].realUsage <= ps[i].newCpuLimit
    ensures EnabledUsage(ps) <= NewLimitTotal(ps)
  {
    if |ps| > 0 {
      EnabledUsageBelowNewLimits(ps[1..]);
    }
  }
}

/** Properties of the limit strategy that relate several calls or fix a
    concrete configuration. */
module LimitFacts {
  import opened Pools
  import opened Limit

  /** The outcome depends only on the configuration. */
  lemma RecalculateIgnoresComputedFields(ps: seq<Pool>, qs: seq<Pool>)
    requires AllWellFormed(ps) && AllSameConfig(ps, qs)
    ensures AllWellFormed(qs)
    ensures Recalculate(ps) == Recalculate(qs)
  {
    ClearForgets(ps, qs);
  }

  /** Recalculating a second time with unchanged inputs gives the same pools. */
  lemma RecalculateIdempotent(ps: seq<Pool>)
    requires AllWellFormed(ps) && Recalculate(ps).Ok?
    ensures AllWellFormed(Recalculate(ps).value)
    ensures Recalculate(Recalculate(ps).value) == Recalculate(ps)
  {
    RecalculateIgnoresComputedFields(ps, Recalculate(ps).value);
  }

  /** A pool's new limit depends on which pools have positive demand, not on
      how much they demand: two configurations that differ only in demand
      amounts, with the same pools demanding, fail alike or give the same new
      limits. */
  lemma NewLimitIgnoresDemandAmount(ps: seq<Pool>, qs: seq<Pool>)
    requires AllWellFormed(ps) && AllWellFormed(qs) && |ps| == |qs|
    requires forall i :: 0 <= i < |ps| ==>
               && ps[i].cpuLimit == qs[i].cpuLimit && ps[i].weight == qs[i].weight
               && Demanding(ps[i]) == Demanding(qs[i])
    ensures Recalculate(ps).Ok? == Recalculate(qs).Ok?
    ensures Recalculate(ps).Ok? ==>
              forall i :: 0 <= i < |ps| ==> Recalculate(ps).value[i].newCpuLimit == Recalculate(qs).value[i].newCpuLimit
  {
    DemandWeightSameDemand(ps, qs);
    var rp, rq := Recalculate(ps), Recalculate(qs);
    FailAlike(ps, qs);
    if rp.Ok? {
      forall i | 0 <= i < |ps| ensures rp.value[i].newCpuLimit == rq.value[i].newCpuLimit {
        if Demanding(ps[i]) {
          assert rp.value[i].newCpuLimit == Min(ps[i].cpuLimit, Capacity * ps[i].weight / DemandWeight(ps));
        }
      }
    }
  }

  /** Pools with the same weights, demanding alike, fail alike. */
  lemma FailAlike(ps: seq<Pool>, qs: seq<Pool>)
    requires |ps| == |qs|
    requires forall i :: 0 <= i < |ps| ==> ps[i].weight == qs[i].weight && Demanding(ps[i]) == Demanding(qs[i])
    ensures OnlyWeightlessDemand(ps) == OnlyWeightlessDemand(qs)
  {
    if OnlyWeightlessDemand(ps) {
      var j :| 0 <= j < |ps| && Demanding(ps[j]);
      assert Demanding(qs[j]);
    }
    if OnlyWeightlessDemand(qs) {
      var j :| 0 <= j < |qs| && Demanding(qs[j]);
      assert Demanding(ps[j]);
    }
  }

  /** A pool alone that asks for CPU uses `min(limit, desired usage)`. */
  lemma LonePool(ps: seq<Pool>, i: nat)
    requires AllWellFormed(ps) && LoneEnabled(ps, i)
    requires ps[i].weight > 0.0 && ps[i].desiredUsage >= 0.0
    ensures Recalculate(ps).Ok?
    ensures Recalculate(ps).value[i].realUsage == Min(ps[i].cpuLimit, ps[i].desiredUsage)
  {
    DemandWeightLone(ps, i);
    if Demanding(ps[i]) {
      Cancel(Capacity, ps[i].weight);
    }
  }
}
