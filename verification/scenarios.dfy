/** Concrete configurations: the single-pool case the repository's own test
    checks, a zero-weight contender that makes the schedule strategy divide by
    zero, and two pools on which the two strategies disagree. */
module Scenarios {
  import opened Pools
  import WaterFill
  import Schedule
  import ScheduleFacts
  import Limit

  /** One enabled pool with limit 100 and weight 100 asking for 1: it is
      guaranteed its whole limit and uses exactly what it asks for. */
  lemma SinglePoolGetsItsDemand()
    ensures Schedule.Recalculate([Pool(100.0, 100.0, 1.0, true, 0.0, 0.0, 100.0)])
            == Ok([Pool(100.0, 100.0, 1.0, true, 1.0, 100.0, 100.0)])
  {
    var ps := [Pool(100.0, 100.0, 1.0, true, 0.0, 0.0, 100.0)];
    ScheduleFacts.LonePool(ps, 0);
    var r := Schedule.Recalculate(ps).value;
    assert r[0] == Pool(100.0, 100.0, 1.0, true, 1.0, 100.0, 100.0);
    assert r == [r[0]];
  }

  /** Two enabled pools with limit 50, weights 1 and 0. The first round gives
      the weighted pool its whole limit; the second round finds only the
      zero-weight pool still below its limit, and the share it would compute
      divides by a total weight of zero. */
  lemma ZeroWeightContenderFails()
    ensures Schedule.Recalculate([Pool(50.0, 1.0, 0.0, true, 0.0, 0.0, 50.0),
                                  Pool(50.0, 0.0, 0.0, true, 0.0, 0.0, 50.0)])
            == Err(DivisionByZero)
  {
    var a := Pool(50.0, 1.0, 0.0, true, 0.0, 0.0, 50.0);
    var b := Pool(50.0, 0.0, 0.0, true, 0.0, 0.0, 50.0);
    var ps := [a, b];
    assert Schedule.Clear(ps) == ps;
    assert ps[1..] == [b] && [b][1..] == [];
    assert WaterFill.EligibleWeight([b], WaterFill.Guarantee) == 0.0;
    assert WaterFill.EligibleWeight(ps, WaterFill.Guarantee) == 1.0;
    var filled := a.(cpuGuarantee := 50.0);
    assert WaterFill.Round(ps, WaterFill.Guarantee, Capacity, 1.0) == [filled, b];
    assert [filled, b][1..] == [b];
    assert WaterFill.TotalAmount([b], WaterFill.Guarantee) == 0.0;
    assert WaterFill.TotalAmount(ps, WaterFill.Guarantee) == 0.0;
    assert WaterFill.TotalAmount([filled, b], WaterFill.Guarantee) == 50.0;
    assert WaterFill.EligibleWeight([filled, b], WaterFill.Guarantee) == 0.0;
    assert !WaterFill.NoneEligible([filled, b], WaterFill.Guarantee);
    assert Schedule.GuaranteeRounds([filled, b], 50.0).Err?;
  }

  /** A heavy pool (limit 50, weight 500, asking for 500) beside a light one
      (limit 50, weight 1, asking for 10). */
  function HeavyAndLight(): seq<Pool> {
    [Pool(50.0, 500.0, 500.0, true, 0.0, 0.0, 50.0), Pool(50.0, 1.0, 10.0, true, 0.0, 0.0, 50.0)]
  }

  /** The limit strategy caps the light pool at its proportional share, 100/501
      of the capacity, although the heavy pool cannot use what is left. */
  lemma LimitCapsLightPool()
    ensures Limit.Recalculate(HeavyAndLight()).Ok?
    ensures Limit.Recalculate(HeavyAndLight()).value[1].realUsage == 100.0 / 501.0
  {
    var ps := HeavyAndLight();
    assert ps[1..] == [ps[1]] && [ps[1]][1..] == [];
    assert Limit.DemandWeight([ps[1]]) == 1.0;
    assert Limit.DemandWeight(ps) == 501.0;
  }

  /** The schedule strategy hands what the heavy pool cannot take to the light
      pool, which gets all it asks for. */
  lemma ScheduleFeedsLightPool()
    ensures Schedule.Recalculate(HeavyAndLight()).Ok?
    ensures Schedule.Recalculate(HeavyAndLight()).value[1].realUsage == 10.0
  {
    var ps := HeavyAndLight();
    assert ps[1..] == [ps[1]] && [ps[1]][1..] == [];
    assert WaterFill.EnabledCaps([ps[1]], WaterFill.Usage) == 10.0;
    assert WaterFill.EnabledCaps(ps, WaterFill.Usage) == 60.0;
    ScheduleFacts.DemandThatFitsIsMet(ps);
  }
}
