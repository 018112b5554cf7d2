/** The sweep behind both `get_charts`: for one pool, set its desired usage to
    each of 0, 1, ..., 100 in turn, recalculate, and record what the charts
    plot. The chart decoration (colours, labels, titles) is not modelled: a
    sweep is a sequence of numeric samples. */
module Sweep {
  import opened Pools
  import WaterFill
  import Schedule
  import ScheduleFacts
  import Limit
  import LimitFacts

  datatype Strategy = ScheduleWeight | LimitWeight

  /** The last sweep value; the sweep records `SweepEnd + 1` samples. */
  const SweepEnd: nat := 100

  /** The strategy's second per-pool series: the guarantee for the schedule
      strategy, the new limit for the limit strategy. */
  function Allotment(s: Strategy, p: Pool): real {
    match s
    case ScheduleWeight => p.cpuGuarantee
    case LimitWeight => p.newCpuLimit
  }

  /** When a recalculation divides by a total weight of zero, read off the
      configuration: for the schedule strategy, an enabled pool of zero
      weight and positive limit competes while the weighted pools' limits
      leave more than `Epsilon` of the capacity; for the limit strategy, some
      enabled pool asks for CPU and every such pool has zero weight. */
  predicate Fails(s: Strategy, ps: seq<Pool>) {
    match s
    case ScheduleWeight => Schedule.HasZeroWeightContender(ps) && Capacity - Schedule.WeightedLimits(ps) > Epsilon
    case LimitWeight => Limit.OnlyWeightlessDemand(ps)
  }

  /** What either strategy promises of every recalculation: it fails exactly
      in the configurations `Fails` names, and a success keeps the
      configuration, the limits and the capacity. */
  function Recalculate(s: Strategy, ps: seq<Pool>): (r: Result<seq<Pool>>)
    requires AllWellFormed(ps)
    ensures r.Err? <==> Fails(s, ps)
    ensures r.Err? ==> r.error == DivisionByZero
    ensures r.Ok? ==> AllSameConfig(ps, r.value) && AllWellFormed(r.value)
    ensures r.Ok? ==> forall i :: 0 <= i < |ps| ==>
              && 0.0 <= r.value[i].realUsage <= ps[i].cpuLimit
              && (r.value[i].realUsage == 0.0 || r.value[i].realUsage <= ps[i].desiredUsage)
              && 0.0 <= Allotment(s, r.value[i]) <= ps[i].cpuLimit
    ensures r.Ok? ==> EnabledUsage(r.value) <= Capacity
    ensures r.Ok? && s == ScheduleWeight ==>
              forall i :: 0 <= i < |ps| ==> r.value[i].newCpuLimit == ps[i].newCpuLimit
  {
    match s
    case ScheduleWeight =>
      var r := Schedule.Recalculate(ps);
      if r.Ok? then
        WaterFill.EnabledUsageIsTotal(r.value);
        r
      else r
    case LimitWeight => Limit.Recalculate(ps)
  }

  /** One point of every chart line: the swept demand, the demand of all
      enabled pools, the pool's usage, its allotment, its limit, and the usage
      of all enabled pools. */
  datatype Sample = Sample(
    desired: real,
    totalDesired: real,
    usage: real,
    allotment: real,
    limit: real,
    totalUsage: real)

  function Record(s: Strategy, x: nat, ps: seq<Pool>, i: nat): Sample
    requires i < |ps|
  {
    Sample(x as real, EnabledDemand(ps), ps[i].realUsage, Allotment(s, ps[i]), ps[i].cpuLimit, EnabledUsage(ps))
  }

  datatype SweepResult = SweepResult(samples: seq<Sample>, pools: seq<Pool>)

  /** Pool `i` asks for `x`; nothing else changes. */
  function SetDemand(ps: seq<Pool>, i: nat, x: nat): (r: seq<Pool>)
    requires i < |ps|
    ensures |r| == |ps| && r[i].desiredUsage == x as real
    ensures forall j :: 0 <= j < |ps| && j != i ==> r[j] == ps[j]
    ensures AllWellFormed(ps) ==> AllWellFormed(r)
  {
    ps[i := ps[i].(desiredUsage := x as real)]
  }

  /** The sweep from value `x` on, threading the pools from one step to the
      next as the loop of `get_charts` does. Sample `k` is what the charts
      record after pool `i` asks for `x + k` and the pools are recalculated;
      every sample keeps the pool's limit, has usage and allotment within it,
      usage at most the swept demand, and total usage within the capacity;
      afterwards only pool `i`'s demand differs from the input configuration,
      and it is the last value swept. It fails exactly when one of the
      recalculations it makes would fail on the input pools: the pools
      threaded from one step to the next change nothing. */
  function SweepFrom(s: Strategy, ps: seq<Pool>, i: nat, x: nat): (r: Result<SweepResult>)
    requires AllWellFormed(ps) && i < |ps| && x <= SweepEnd + 1
    decreases SweepEnd + 1 - x
    ensures r.Err? ==> r.error == DivisionByZero
    ensures r.Ok? <==> AllSucceed(s, ps, i, x)
    ensures r.Ok? ==> |r.value.samples| == SweepEnd + 1 - x
    ensures r.Ok? ==> AllRecorded(r.value.samples, s, ps, i, x)
    ensures r.Ok? ==> AllWithin(r.value.samples, ps[i].cpuLimit, x)
    ensures r.Ok? ==> |r.value.pools| == |ps| && AllWellFormed(r.value.pools)
    ensures r.Ok? ==> forall j :: 0 <= j < |ps| && j != i ==> SameConfig(r.value.pools[j], ps[j])
    ensures r.Ok? && x <= SweepEnd ==>
              SameConfig(r.value.pools[i], ps[i].(desiredUsage := SweepEnd as real))
    ensures r.Ok? && x > SweepEnd ==> r.value.pools == ps
    ensures r.Ok? && x <= SweepEnd ==> Recalculate(s, SetDemand(ps, i, SweepEnd)) == Ok(r.value.pools)
    ensures LoneSetting(ps, i) ==> r.Ok? && FollowsDemand(r.value.samples, ps[i].cpuLimit, x)
  {
    if x > SweepEnd then Ok(SweepResult([], ps))
    else
      LoneStep(s, ps, i, x);
      SucceedStep(s, ps, i, x);
      match Recalculate(s, SetDemand(ps, i, x))
      case Err(e) => Err(e)
      case Ok(qs) =>
        match SweepFrom(s, qs, i, x + 1)
        case Err(e) => Err(e)
        case Ok(rest) =>
          var sample := Record(s, x, qs, i);
          var r := SweepResult([sample] + rest.samples, rest.pools);
          AskAgain(s, ps, i, x, SweepEnd);
          RecordWithin(s, ps, i, x);
          WithinCons(sample, rest.samples, ps[i].cpuLimit, x);
          RecordedCons(rest.samples, s, ps, i, x);
          if LoneSetting(ps, i) then
            FollowsDemandCons(sample, rest.samples, ps[i].cpuLimit, x);
            Ok(r)
          else Ok(r)
  }

  /** `get_charts(pool_idx)`: an index outside the pools is an error;
      otherwise the sweep from 0 gives one sample for each of 0, 1, ..., 100,
      sample `k` being what a recalculation with pool `i` asking for `k`
      shows, and leaves pool `i` asking for 100. On an existing pool it
      fails exactly when one of those 101 recalculations would. */
  function GetCharts(s: Strategy, ps: seq<Pool>, i: int): (r: Result<SweepResult>)
    requires AllWellFormed(ps)
    ensures !(0 <= i < |ps|) <==> r == Err(InvalidIndex)
    ensures r.Err? ==> r.error == InvalidIndex || r.error == DivisionByZero
    ensures 0 <= i < |ps| ==> (r.Ok? <==> AllSucceed(s, ps, i, 0))
    ensures r.Ok? ==> |r.value.samples| == SweepEnd + 1 && |r.value.pools| == |ps|
    ensures r.Ok? ==> AllRecorded(r.value.samples, s, ps, i, 0)
    ensures r.Ok? ==> AllWithin(r.value.samples, ps[i].cpuLimit, 0)
    ensures r.Ok? ==> r.value.pools[i].desiredUsage == SweepEnd as real
    ensures r.Ok? ==> forall j :: 0 <= j < |ps| && j != i ==> SameConfig(r.value.pools[j], ps[j])
    ensures r.Ok? ==> Recalculate(s, SetDemand(ps, i, SweepEnd)) == Ok(r.value.pools)
    ensures 0 <= i < |ps| && LoneSetting(ps, i) ==>
              r.Ok? && FollowsDemand(r.value.samples, ps[i].cpuLimit, 0)
  {
    if !(0 <= i < |ps|) then Err(InvalidIndex) else SweepFrom(s, ps, i, 0)
  }

  /** What every sample at sweep value `x` shows: the demand swept, the
      pool's limit, a usage within both, an allotment within the limit and a
      total usage within the capacity. */
  predicate Within(sample: Sample, limit: real, x: nat) {
    && sample.desired == x as real
    && sample.limit == limit
    && 0.0 <= sample.usage <= Min(limit, x as real)
    && 0.0 <= sample.allotment <= limit
    && sample.totalUsage <= Capacity
  }

  /** `sample` is what the charts record at sweep value `x`: pool `i` asks
      for `x`, the pools are recalculated, and the recalculation succeeds. */
  predicate Recorded(sample: Sample, s: Strategy, ps: seq<Pool>, i: nat, x: nat)
    requires AllWellFormed(ps) && i < |ps|
  {
    var r := Recalculate(s, SetDemand(ps, i, x));
    r.Ok? && sample == Record(s, x, r.value, i)
  }

  /** Every sample of a series starting at sweep value `x` is `Recorded`. */
  predicate AllRecorded(samples: seq<Sample>, s: Strategy, ps: seq<Pool>, i: nat, x: nat)
    requires AllWellFormed(ps) && i < |ps|
  {
    |samples| == 0 || (Recorded(samples[0], s, ps, i, x) && AllRecorded(samples[1..], s, ps, i, x + 1))
  }

  /** No recalculation of a sweep from value `x` on fails: pool `i` asking
      for each of `x`, ..., `SweepEnd` in turn, the other pools as in `ps`. */
  predicate AllSucceed(s: Strategy, ps: seq<Pool>, i: nat, x: nat)
    requires i < |ps|
    decreases SweepEnd + 1 - x
  {
    x > SweepEnd || (!Fails(s, SetDemand(ps, i, x)) && AllSucceed(s, ps, i, x + 1))
  }

  /** Every sample of a series starting at sweep value `x` is `Within`. */
  predicate AllWithin(samples: seq<Sample>, limit: real, x: nat) {
    forall k :: 0 <= k < |samples| ==> Within(samples[k], limit, x + k)
  }

  /** The usage series from sweep value `x` on is `min(limit, demand)`. */
  predicate FollowsDemand(samples: seq<Sample>, limit: real, x: nat) {
    forall k :: 0 <= k < |samples| ==> samples[k].usage == Min(limit, (x + k) as real)
  }

  /** Pool `i` is the only enabled pool and carries a weight above
      `Epsilon`. The bound is the schedule strategy's: its usage loop runs
      only while the eligible weight exceeds `Epsilon`, so a lighter lone
      pool gets no usage at all (`ScheduleFacts.LightLonePoolIdles`). The limit
      strategy needs only a positive weight (`LimitFacts.LonePool`). */
  predicate LoneSetting(ps: seq<Pool>, i: nat) {
    AllWellFormed(ps) && LoneEnabled(ps, i) && ps[i].weight > Epsilon
  }

  /** The outcome depends only on the configuration (for the schedule
      strategy, together with the new limit it leaves alone). */
  lemma RecalculateIgnoresComputedFields(s: Strategy, ps: seq<Pool>, qs: seq<Pool>)
    requires AllWellFormed(ps) && AllSameConfig(ps, qs)
    requires s == ScheduleWeight ==> forall i :: 0 <= i < |ps| ==> ps[i].newCpuLimit == qs[i].newCpuLimit
    ensures AllWellFormed(qs)
    ensures Recalculate(s, ps) == Recalculate(s, qs)
  {
    match s
    case ScheduleWeight => ScheduleFacts.RecalculateIgnoresComputedFields(ps, qs);
    case LimitWeight => LimitFacts.RecalculateIgnoresComputedFields(ps, qs);
  }

  /** Asking again after a recalculation gives the same outcome as asking
      the original pools: the computed fields carry nothing over. */
  lemma AskAgain(s: Strategy, ps: seq<Pool>, i: nat, x: nat, y: nat)
    requires AllWellFormed(ps) && i < |ps|
    ensures var r := Recalculate(s, SetDemand(ps, i, x));
      r.Ok? ==> Recalculate(s, SetDemand(r.value, i, y)) == Recalculate(s, SetDemand(ps, i, y))
  {
    var r := Recalculate(s, SetDemand(ps, i, x));
    if r.Ok? {
      var a := SetDemand(ps, i, y);
      var b := SetDemand(r.value, i, y);
      assert AllSameConfig(a, b);
      RecalculateIgnoresComputedFields(s, a, b);
    }
  }

  /** One step of a sweep of the only enabled pool: the recalculation
      succeeds, keeps the pool alone, and gives it `min(limit, x)`. */
  lemma LoneStep(s: Strategy, ps: seq<Pool>, i: nat, x: nat)
    requires AllWellFormed(ps) && i < |ps|
    ensures LoneSetting(ps, i) ==>
      var r := Recalculate(s, SetDemand(ps, i, x));
      && r.Ok? && LoneSetting(r.value, i) && r.value[i].cpuLimit == ps[i].cpuLimit
      && r.value[i].realUsage == Min(ps[i].cpuLimit, x as real)
  {
    if LoneSetting(ps, i) {
      var asked := SetDemand(ps, i, x);
      if s == ScheduleWeight {
        ScheduleFacts.LonePool(asked, i);
      } else {
        LimitFacts.LonePool(asked, i);
      }
    }
  }

  /** What the charts record after a successful recalculation at sweep value
      `x`: the swept demand on the x-axis of the pool chart, the enabled pools'
      demand (with pool `i` asking for `x`) on the x-axis of the total chart,
      the pool's limit, a usage within the limit and the demand, an allotment
      within the limit, and a total usage within the capacity. */
  lemma RecordWithin(s: Strategy, ps: seq<Pool>, i: nat, x: nat)
    requires AllWellFormed(ps) && i < |ps|
    ensures var r := Recalculate(s, SetDemand(ps, i, x));
      r.Ok? ==>
        && Within(Record(s, x, r.value, i), ps[i].cpuLimit, x)
        && Record(s, x, r.value, i).totalDesired == EnabledDemand(SetDemand(ps, i, x))
  {
    var r := Recalculate(s, SetDemand(ps, i, x));
    if r.Ok? {
      EnabledDemandSame(SetDemand(ps, i, x), r.value);
    }
  }

  lemma {:induction false} EnabledDemandSame(ps: seq<Pool>, qs: seq<Pool>)
    requires AllSameConfig(ps, qs)
    ensures EnabledDemand(ps) == EnabledDemand(qs)
  {
    if |ps| > 0 {
      EnabledDemandSame(ps[1..], qs[1..]);
    }
  }

  /** Recording one more step in front of a recorded series: the pools a
      step leaves behind recalculate like the pools it started from. */
  lemma RecordedCons(rest: seq<Sample>, s: Strategy, ps: seq<Pool>, i: nat, x: nat)
    requires AllWellFormed(ps) && i < |ps| && Recalculate(s, SetDemand(ps, i, x)).Ok?
    requires AllRecorded(rest, s, Recalculate(s, SetDemand(ps, i, x)).value, i, x + 1)
    ensures AllRecorded([Record(s, x, Recalculate(s, SetDemand(ps, i, x)).value, i)] + rest, s, ps, i, x)
  {
    var all := [Record(s, x, Recalculate(s, SetDemand(ps, i, x)).value, i)] + rest;
    RecordedTransfer(rest, s, ps, i, x, x + 1);
    assert all[1..] == rest;
  }

  /** A series recorded from the pools one step leaves behind is recorded
      from the pools the step started from. */
  lemma {:induction false} RecordedTransfer(samples: seq<Sample>, s: Strategy, ps: seq<Pool>, i: nat, x: nat, y: nat)
    requires AllWellFormed(ps) && i < |ps| && Recalculate(s, SetDemand(ps, i, x)).Ok?
    requires AllRecorded(samples, s, Recalculate(s, SetDemand(ps, i, x)).value, i, y)
    decreases |samples|
    ensures AllRecorded(samples, s, ps, i, y)
  {
    if |samples| > 0 {
      AskAgain(s, ps, i, x, y);
      RecordedTransfer(samples[1..], s, ps, i, x, y + 1);
    }
  }

  /** Whether a recalculation fails depends only on the configuration. */
  lemma FailsSameConfig(s: Strategy, ps: seq<Pool>, qs: seq<Pool>)
    requires AllSameConfig(ps, qs)
    ensures Fails(s, ps) == Fails(s, qs)
  {
    match s
    case ScheduleWeight =>
      Schedule.WeightedLimitsSame(ps, qs);
      if Schedule.HasZeroWeightContender(ps) {
        var j :| 0 <= j < |ps| && ps[j].enabled && ps[j].weight == 0.0 && ps[j].cpuLimit > 0.0;
        assert qs[j].enabled && qs[j].weight == 0.0 && qs[j].cpuLimit > 0.0;
      }
      if Schedule.HasZeroWeightContender(qs) {
        var j :| 0 <= j < |qs| && qs[j].enabled && qs[j].weight == 0.0 && qs[j].cpuLimit > 0.0;
        assert ps[j].enabled && ps[j].weight == 0.0 && ps[j].cpuLimit > 0.0;
      }
    case LimitWeight =>
      assert forall j :: 0 <= j < |ps| ==> Limit.Demanding(ps[j]) == Limit.Demanding(qs[j]);
  }

  /** The pools a step leaves behind, which keep the configuration the step
      asked with, succeed on the rest of a sweep exactly when the pools the
      step started from do. */
  /** A sweep from `x` on succeeds exactly when its first recalculation
      does and the sweep from the pools it leaves behind does. */
  lemma SucceedStep(s: Strategy, ps: seq<Pool>, i: nat, x: nat)
    requires AllWellFormed(ps) && i < |ps| && x <= SweepEnd
    ensures var r := Recalculate(s, SetDemand(ps, i, x));
      AllSucceed(s, ps, i, x) <==> r.Ok? && AllSucceed(s, r.value, i, x + 1)
  {
    var r := Recalculate(s, SetDemand(ps, i, x));
    if r.Ok? {
      SucceedTransfer(s, ps, r.value, i, x, x + 1);
    }
  }

  lemma {:induction false} SucceedTransfer(s: Strategy, ps: seq<Pool>, qs: seq<Pool>, i: nat, x: nat, y: nat)
    requires i < |ps| && AllSameConfig(SetDemand(ps, i, x), qs)
    decreases SweepEnd + 1 - y
    ensures AllSucceed(s, qs, i, y) == AllSucceed(s, ps, i, y)
  {
    if y <= SweepEnd {
      FailsSameConfig(s, SetDemand(qs, i, y), SetDemand(ps, i, y));
      SucceedTransfer(s, ps, qs, i, x, y + 1);
    }
  }

  lemma WithinCons(head: Sample, rest: seq<Sample>, limit: real, x: nat)
    requires Within(head, limit, x) && AllWithin(rest, limit, x + 1)
    ensures AllWithin([head] + rest, limit, x)
  {
    var all := [head] + rest;
    forall k | 1 <= k < |all|
      ensures Within(all[k], limit, x + k)
    {
      assert all[k] == rest[k - 1];
    }
  }

  lemma FollowsDemandCons(head: Sample, rest: seq<Sample>, limit: real, x: nat)
    requires head.usage == Min(limit, x as real) && FollowsDemand(rest, limit, x + 1)
    ensures FollowsDemand([head] + rest, limit, x)
  {
    var all := [head] + rest;
    forall k | 1 <= k < |all|
      ensures all[k].usage == Min(limit, (x + k) as real)
    {
      assert all[k] == rest[k - 1];
    }
  }
}

/** What a sweep shows of a pool sweeping on its own. */
module SweepFacts {
  import opened Pools
  import opened Sweep

  /** Sweeping the only enabled pool (with weight above `Epsilon`) gives a
      usage series that never decreases, follows the demand up to the limit,
      and ends at the limit. */
  lemma LoneSweepSaturates(s: Strategy, ps: seq<Pool>, i: nat)
    requires LoneSetting(ps, i)
    ensures GetCharts(s, ps, i).Ok?
    ensures var samples := GetCharts(s, ps, i).value.samples;
      && (forall k, l :: 0 <= k <= l < |samples| ==> samples[k].usage <= samples[l].usage)
      && samples[SweepEnd].usage == ps[i].cpuLimit
  {
    var samples := GetCharts(s, ps, i).value.samples;
    FollowingSaturates(samples, ps[i].cpuLimit);
  }

  /** A series of `SweepEnd + 1` samples whose usage is `min(limit, x)` never
      decreases and ends at a limit of at most `SweepEnd`. */
  lemma FollowingSaturates(samples: seq<Sample>, limit: real)
    requires |samples| == SweepEnd + 1 && limit <= SweepEnd as real
    requires FollowsDemand(samples, limit, 0)
    ensures forall k, l :: 0 <= k <= l < |samples| ==> samples[k].usage <= samples[l].usage
    ensures samples[SweepEnd].usage == limit
  {
  }
}
