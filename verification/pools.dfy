/** The resource pool record shared by both allocation strategies, the error
    taxonomy, and the sums over a collection of pools that the strategies and
    the sweep read. CPU amounts are percentages of one core, as exact reals. */
module Pools {

  /** Convergence threshold of both schedule passes. */
  const Epsilon: real := 0.01

  /** Total shareable CPU handed out by every pass. */
  const Capacity: real := 100.0

  /** One consumer of CPU. The first four fields are configuration set by the
      caller; the last three are computed by a strategy. */
  datatype Pool = Pool(
    cpuLimit: real,
    weight: real,
    desiredUsage: real,
    enabled: bool,
    realUsage: real,
    cpuGuarantee: real,
    newCpuLimit: real)

  datatype Error =
    | InvalidConfiguration  // a pool built with a limit outside [0, 100] or a negative weight
    | InvalidIndex          // a sweep asked for a pool that does not exist
    | DivisionByZero        // a proportional division by a total weight of zero

  datatype Result<T> = Ok(value: T) | Err(error: Error)

  function Min(a: real, b: real): real {
    if a <= b then a else b
  }

  /** What the constructor checks; the strategies rely on it. */
  predicate WellFormed(p: Pool) {
    0.0 <= p.cpuLimit <= Capacity && 0.0 <= p.weight
  }

  predicate AllWellFormed(ps: seq<Pool>) {
    forall i :: 0 <= i < |ps| ==> WellFormed(ps[i])
  }

  /** Two pools carry the same configuration. */
  predicate SameConfig(p: Pool, q: Pool) {
    p.cpuLimit == q.cpuLimit && p.weight == q.weight
    && p.desiredUsage == q.desiredUsage && p.enabled == q.enabled
  }

  predicate AllSameConfig(ps: seq<Pool>, qs: seq<Pool>) {
    |ps| == |qs| && forall i :: 0 <= i < |ps| ==> SameConfig(ps[i], qs[i])
  }

  /** Only pool `i` is enabled. */
  predicate LoneEnabled(ps: seq<Pool>, i: nat) {
    i < |ps| && ps[i].enabled && forall j :: 0 <= j < |ps| && j != i ==> !ps[j].enabled
  }

  /** Builds a pool: the limit must lie in [0, 100] and the weight must not be
      negative; the new limit starts at the configured limit and the other
      computed fields at zero. */
  function NewPool(limit: real, weight: real, desired: real, enabled: bool): (r: Result<Pool>)
    ensures r.Ok? <==> 0.0 <= limit <= 100.0 && 0.0 <= weight
    ensures r.Err? ==> r.error == InvalidConfiguration
    ensures r.Ok? ==> WellFormed(r.value)
    ensures r.Ok? ==> r.value.cpuLimit == limit && r.value.weight == weight
                      && r.value.desiredUsage == desired && r.value.enabled == enabled
    ensures r.Ok? ==> r.value.realUsage == 0.0 && r.value.cpuGuarantee == 0.0
                      && r.value.newCpuLimit == limit
  {
    if !(0.0 <= limit && limit <= 100.0) then Err(InvalidConfiguration)
    else if !(0.0 <= weight) then Err(InvalidConfiguration)
    else Ok(Pool(limit, weight, desired, enabled, 0.0, 0.0, limit))
  }

  /** Sum of `realUsage` over the enabled pools. */
  function EnabledUsage(ps: seq<Pool>): real {
    if |ps| == 0 then 0.0
    else (if ps[0].enabled then ps[0].realUsage else 0.0) + EnabledUsage(ps[1..])
  }

  /** Sum of `desiredUsage` over the enabled pools. */
  function EnabledDemand(ps: seq<Pool>): real {
    if |ps| == 0 then 0.0
    else (if ps[0].enabled then ps[0].desiredUsage else 0.0) + EnabledDemand(ps[1..])
  }

  /** `cpu * sum / total` splits along `sum == a + b`. */
  lemma ShareSplit(cpu: real, sum: real, a: real, b: real, total: real)
    requires total != 0.0 && sum == a + b
    ensures cpu * sum / total == cpu * a / total + cpu * b / total
  {
  }

  /** One step of summing shares: the share of `a` added to the shares
      already summed for `b` is the share of `a + b`. */
  lemma ShareStep(cpu: real, sum: real, a: real, b: real, rest: real, total: real)
    requires total != 0.0 && sum == a + b && rest == cpu * b / total
    ensures cpu * a / total + rest == cpu * sum / total
  {
    ShareSplit(cpu, sum, a, b, total);
  }

  lemma Cancel(x: real, y: real)
    requires y != 0.0
    ensures x * y / y == x
  {
  }
}
