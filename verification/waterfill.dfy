/** One round of weighted water-filling, shared by the two passes of the
    schedule strategy. Both passes hand the remaining CPU out to the enabled
    pools still below their cap, in proportion to weight, clipping each pool
    at its cap; they differ only in the field they fill and in the cap. */
module WaterFill {
  import opened Pools

  /** The guarantee pass fills `cpuGuarantee` up to `cpuLimit`; the usage pass
      fills `realUsage` up to `min(cpuLimit, desiredUsage)`. */
  datatype Pass = Guarantee | Usage

  function Amount(p: Pool, pass: Pass): real {
    match pass
    case Guarantee => p.cpuGuarantee
    case Usage => p.realUsage
  }

  function Cap(p: Pool, pass: Pass): real {
    match pass
    case Guarantee => p.cpuLimit
    case Usage => Min(p.cpuLimit, p.desiredUsage)
  }

  function WithAmount(p: Pool, pass: Pass, v: real): (q: Pool)
    ensures Amount(q, pass) == v && SameConfig(q, p) && q.newCpuLimit == p.newCpuLimit
  {
    match pass
    case Guarantee => p.(cpuGuarantee := v)
    case Usage => p.(realUsage := v)
  }

  /** `q` differs from `p` at most in the field the pass fills. */
  predicate OnlyAmountChanged(p: Pool, q: Pool, pass: Pass) {
    q == WithAmount(p, pass, Amount(q, pass))
  }

  /** A pool takes part in a round when it is enabled and below its cap. */
  predicate Eligible(p: Pool, pass: Pass) {
    p.enabled && Amount(p, pass) < Cap(p, pass)
  }

  /** An eligible pool with positive weight: one that a round actually feeds. */
  predicate Active(p: Pool, pass: Pass) {
    Eligible(p, pass) && p.weight > 0.0
  }

  predicate NoneEligible(ps: seq<Pool>, pass: Pass) {
    forall i :: 0 <= i < |ps| ==> !Eligible(ps[i], pass)
  }

  /** An eligible pool whose weight is zero: it makes a round divide by zero
      when it is the only kind of eligible pool left. */
  predicate HasIdleContender(ps: seq<Pool>, pass: Pass) {
    exists i :: 0 <= i < |ps| && Eligible(ps[i], pass) && ps[i].weight == 0.0
  }

  /** A pool's weight when it is eligible, zero otherwise. */
  function Contribution(p: Pool, pass: Pass): real {
    if Eligible(p, pass) then p.weight else 0.0
  }

  /** Weight summed over the eligible pools (`total_weights`). */
  function EligibleWeight(ps: seq<Pool>, pass: Pass): real {
    if |ps| == 0 then 0.0 else Contribution(ps[0], pass) + EligibleWeight(ps[1..], pass)
  }

  /** The filled field summed over all pools. */
  function TotalAmount(ps: seq<Pool>, pass: Pass): real {
    if |ps| == 0 then 0.0 else Amount(ps[0], pass) + TotalAmount(ps[1..], pass)
  }

  /** Number of active pools: the termination measure of both passes. */
  function ActiveCount(ps: seq<Pool>, pass: Pass): nat {
    if |ps| == 0 then 0
    else (if Active(ps[0], pass) then 1 else 0) + ActiveCount(ps[1..], pass)
  }

  /** One pool's step in a round: an eligible pool gets its weighted share of
      `cpu`, clipped at its cap; any other pool is left alone. */
  function Give(p: Pool, pass: Pass, cpu: real, total: real): (q: Pool)
    requires Eligible(p, pass) ==> total != 0.0
  {
    if !Eligible(p, pass) then p
    else WithAmount(p, pass, Min(Amount(p, pass) + cpu * p.weight / total, Cap(p, pass)))
  }

  /** One round over all pools with `cpu` and `total` fixed for the round.
      Within a Python round a pool's eligibility is not affected by the pools
      updated before it, so the round is the step applied to every pool in
      place: pool `i` of the result is pool `i` of the input after one step. */
  function Round(ps: seq<Pool>, pass: Pass, cpu: real, total: real): (r: seq<Pool>)
    requires total != 0.0 || NoneEligible(ps, pass)
    ensures |r| == |ps|
    ensures forall i :: 0 <= i < |ps| ==> r[i] == Give(ps[i], pass, cpu, total)
  {
    if |ps| == 0 then []
    else [Give(ps[0], pass, cpu, total)] + Round(ps[1..], pass, cpu, total)
  }

  /** What a single step does to one pool: it changes only the field the pass
      fills, never lowers it, never pushes an eligible pool past its cap, gives
      at most the weighted share, leaves zero-weight pools alone, and gives an
      active pool something when there is CPU to give. */
  lemma GiveBounds(p: Pool, pass: Pass, cpu: real, total: real)
    requires p.weight >= 0.0 && cpu >= 0.0 && total > 0.0
    ensures var q := Give(p, pass, cpu, total);
      && OnlyAmountChanged(p, q, pass)
      && (!Eligible(p, pass) ==> q == p)
      && Amount(p, pass) <= Amount(q, pass)
      && (Eligible(p, pass) ==> Amount(q, pass) <= Cap(p, pass))
      && Amount(q, pass) - Amount(p, pass) <= cpu * Contribution(p, pass) / total
      && (p.weight == 0.0 ==> q == p)
  {
    GiveNeverTakes(p, pass, cpu, total);
    GiveWithinShare(p, pass, cpu, total, cpu * Contribution(p, pass) / total);
    if p.weight == 0.0 && Eligible(p, pass) {
      assert cpu * p.weight / total == 0.0;
    }
  }

  /** A step never lowers the amount. */
  lemma GiveNeverTakes(p: Pool, pass: Pass, cpu: real, total: real)
    requires p.weight >= 0.0 && cpu >= 0.0 && total > 0.0
    ensures Amount(p, pass) <= Amount(Give(p, pass, cpu, total), pass)
  {
    if Eligible(p, pass) {
      assert cpu * p.weight / total >= 0.0;
    }
  }

  /** A step hands a pool at most its weighted share. */
  lemma GiveWithinShare(p: Pool, pass: Pass, cpu: real, total: real, share: real)
    requires p.weight >= 0.0 && cpu >= 0.0 && total > 0.0
    requires share == cpu * Contribution(p, pass) / total
    ensures Amount(Give(p, pass, cpu, total), pass) - Amount(p, pass) <= share
  {
    if !Eligible(p, pass) {
      assert cpu * 0.0 / total == 0.0;
    }
  }

  /** An active pool gets something from a step when there is CPU to give. */
  lemma GiveProgress(p: Pool, pass: Pass, cpu: real, total: real)
    requires Active(p, pass) && cpu > 0.0 && total > 0.0
    ensures Amount(Give(p, pass, cpu, total), pass) > Amount(p, pass)
  {
    assert cpu * p.weight > 0.0;
    assert cpu * p.weight / total > 0.0;
  }

  /** A step never makes a pool active, and an active pool either gets exactly
      its share and stays active or reaches its cap and stops being active. */
  lemma GiveClipping(p: Pool, pass: Pass, cpu: real, total: real)
    requires p.weight >= 0.0 && cpu >= 0.0 && total > 0.0
    ensures var q := Give(p, pass, cpu, total);
      && (Active(q, pass) ==> Active(p, pass))
      && (Active(q, pass) == Active(p, pass) ==>
            Amount(q, pass) - Amount(p, pass) == cpu * Contribution(p, pass) / total)
  {
    var q := Give(p, pass, cpu, total);
    if Eligible(p, pass) {
      assert Cap(q, pass) == Cap(p, pass);
      if p.weight == 0.0 {
        assert cpu * p.weight / total == 0.0;
      }
    }
  }

  /** The weighted shares of `cpu` a round offers, summed over all pools. */
  function Offered(ps: seq<Pool>, pass: Pass, cpu: real, total: real): real
    requires total != 0.0
  {
    if |ps| == 0 then 0.0 else cpu * Contribution(ps[0], pass) / total + Offered(ps[1..], pass, cpu, total)
  }

  /** The shares offered add up to `cpu` scaled by the eligible weight. */
  lemma {:induction false} OfferedIsProportional(ps: seq<Pool>, pass: Pass, cpu: real, total: real)
    requires total != 0.0
    ensures Offered(ps, pass, cpu, total) == cpu * EligibleWeight(ps, pass) / total
  {
    if |ps| > 0 {
      var a, b, rest := OfferedHead(ps, pass, cpu, total);
      OfferedIsProportional(ps[1..], pass, cpu, total);
      ShareStep(cpu, EligibleWeight(ps, pass), a, b, rest, total);
    }
  }

  /** The first pool's share and weight split off `Offered` and
      `EligibleWeight`. */
  lemma OfferedHead(ps: seq<Pool>, pass: Pass, cpu: real, total: real) returns (a: real, b: real, rest: real)
    requires |ps| > 0 && total != 0.0
    ensures a == Contribution(ps[0], pass) && b == EligibleWeight(ps[1..], pass)
    ensures rest == Offered(ps[1..], pass, cpu, total)
    ensures EligibleWeight(ps, pass) == a + b
    ensures Offered(ps, pass, cpu, total) == cpu * a / total + rest
  {
    a, b, rest := Contribution(ps[0], pass), EligibleWeight(ps[1..], pass), Offered(ps[1..], pass, cpu, total);
  }

  /** The totals of a round split into the first pool's step and the round
      over the rest. */
  lemma RoundHead(ps: seq<Pool>, pass: Pass, cpu: real, total: real)
    requires |ps| > 0 && total > 0.0
    ensures var r := Round(ps, pass, cpu, total);
      var q := Give(ps[0], pass, cpu, total);
      var rest := Round(ps[1..], pass, cpu, total);
      && TotalAmount(r, pass) == Amount(q, pass) + TotalAmount(rest, pass)
      && ActiveCount(r, pass) == (if Active(q, pass) then 1 else 0) + ActiveCount(rest, pass)
  {
    var r := Round(ps, pass, cpu, total);
    assert r[1..] == Round(ps[1..], pass, cpu, total);
  }

  /** A round never takes CPU back. */
  lemma {:induction false} RoundNeverTakes(ps: seq<Pool>, pass: Pass, cpu: real, total: real)
    requires AllWellFormed(ps)
    requires cpu >= 0.0 && total > 0.0
    ensures TotalAmount(ps, pass) <= TotalAmount(Round(ps, pass, cpu, total), pass)
  {
    if |ps| > 0 {
      RoundHead(ps, pass, cpu, total);
      GiveNeverTakes(ps[0], pass, cpu, total);
      RoundNeverTakes(ps[1..], pass, cpu, total);
    }
  }

  /** A round hands out at most the shares it offers. */
  lemma RoundWithinOffered(ps: seq<Pool>, pass: Pass, cpu: real, total: real)
    requires AllWellFormed(ps)
    requires cpu >= 0.0 && total > 0.0
    ensures TotalAmount(Round(ps, pass, cpu, total), pass) - TotalAmount(ps, pass) <= Offered(ps, pass, cpu, total)
  {
    RoundGainsWithinShares(ps, pass, cpu, total);
    GainsWithinBounds(ps, Round(ps, pass, cpu, total), pass, Shares(ps, pass, cpu, total));
    OfferedIsSum(ps, pass, cpu, total);
  }

  /** The weighted share of `cpu` each pool is offered, pool by pool. */
  function Shares(ps: seq<Pool>, pass: Pass, cpu: real, total: real): (r: seq<real>)
    requires total != 0.0
    ensures |r| == |ps|
  {
    if |ps| == 0 then [] else [cpu * Contribution(ps[0], pass) / total] + Shares(ps[1..], pass, cpu, total)
  }

  function Sum(xs: seq<real>): real {
    if |xs| == 0 then 0.0 else xs[0] + Sum(xs[1..])
  }

  /** Pool by pool, `qs` gains at most `bounds` over `ps`. */
  predicate GainsBounded(ps: seq<Pool>, qs: seq<Pool>, pass: Pass, bounds: seq<real>)
    requires |ps| == |qs| == |bounds|
  {
    |ps| == 0
    || (Amount(qs[0], pass) - Amount(ps[0], pass) <= bounds[0]
        && GainsBounded(ps[1..], qs[1..], pass, bounds[1..]))
  }

  /** Each pool gains at most its share in a round. */
  lemma {:induction false} RoundGainsWithinShares(ps: seq<Pool>, pass: Pass, cpu: real, total: real)
    requires AllWellFormed(ps)
    requires cpu >= 0.0 && total > 0.0
    ensures GainsBounded(ps, Round(ps, pass, cpu, total), pass, Shares(ps, pass, cpu, total))
  {
    if |ps| > 0 {
      var r := Round(ps, pass, cpu, total);
      var shares := Shares(ps, pass, cpu, total);
      assert WellFormed(ps[0]) && AllWellFormed(ps[1..]);
      assert r[0] == Give(ps[0], pass, cpu, total) && r[1..] == Round(ps[1..], pass, cpu, total);
      assert shares[1..] == Shares(ps[1..], pass, cpu, total);
      GiveWithinShare(ps[0], pass, cpu, total, shares[0]);
      RoundGainsWithinShares(ps[1..], pass, cpu, total);
    }
  }

  /** Gains bounded pool by pool are bounded in sum. */
  lemma {:induction false} GainsWithinBounds(ps: seq<Pool>, qs: seq<Pool>, pass: Pass, bounds: seq<real>)
    requires |ps| == |qs| == |bounds|
    requires GainsBounded(ps, qs, pass, bounds)
    ensures TotalAmount(qs, pass) - TotalAmount(ps, pass) <= Sum(bounds)
  {
    if |ps| > 0 {
      GainsWithinBounds(ps[1..], qs[1..], pass, bounds[1..]);
    }
  }

  /** The shares listed pool by pool add up to `Offered`. */
  lemma {:induction false} OfferedIsSum(ps: seq<Pool>, pass: Pass, cpu: real, total: real)
    requires total != 0.0
    ensures Offered(ps, pass, cpu, total) == Sum(Shares(ps, pass, cpu, total))
  {
    if |ps| > 0 {
      OfferedIsSum(ps[1..], pass, cpu, total);
      var r := Shares(ps, pass, cpu, total);
      assert r[1..] == Shares(ps[1..], pass, cpu, total);
    }
  }

  /** A round hands out something when some pool is active and there is CPU
      to give. */
  lemma {:induction false} RoundProgress(ps: seq<Pool>, pass: Pass, cpu: real, total: real)
    requires AllWellFormed(ps)
    requires cpu > 0.0 && total > 0.0 && ActiveCount(ps, pass) > 0
    ensures TotalAmount(Round(ps, pass, cpu, total), pass) > TotalAmount(ps, pass)
  {
    RoundHead(ps, pass, cpu, total);
    GiveNeverTakes(ps[0], pass, cpu, total);
    if Active(ps[0], pass) {
      GiveProgress(ps[0], pass, cpu, total);
      RoundNeverTakes(ps[1..], pass, cpu, total);
    } else {
      RoundProgress(ps[1..], pass, cpu, total);
    }
  }

  /** A round never makes a pool active; when the number of active pools stays
      the same, no pool was clipped at its cap, so every share offered was
      handed out in full. */
  lemma {:induction false} RoundClipping(ps: seq<Pool>, pass: Pass, cpu: real, total: real)
    requires AllWellFormed(ps)
    requires cpu >= 0.0 && total > 0.0
    ensures var r := Round(ps, pass, cpu, total);
      && ActiveCount(r, pass) <= ActiveCount(ps, pass)
      && (ActiveCount(r, pass) == ActiveCount(ps, pass) ==>
            TotalAmount(r, pass) - TotalAmount(ps, pass) == Offered(ps, pass, cpu, total))
  {
    if |ps| > 0 {
      RoundHead(ps, pass, cpu, total);
      GiveClipping(ps[0], pass, cpu, total);
      RoundClipping(ps[1..], pass, cpu, total);
      var share := cpu * Contribution(ps[0], pass) / total;
      assert Offered(ps, pass, cpu, total) == share + Offered(ps[1..], pass, cpu, total);
      assert TotalAmount(ps, pass) == Amount(ps[0], pass) + TotalAmount(ps[1..], pass);
      assert ActiveCount(ps, pass) == (if Active(ps[0], pass) then 1 else 0) + ActiveCount(ps[1..], pass);
    }
  }

  /** The same bookkeeping against the whole remaining `cpu`: with `total` the
      eligible weight, a round hands out at most `cpu`, and exactly `cpu` when
      no active pool was clipped. */
  lemma RoundAccounting(ps: seq<Pool>, pass: Pass, cpu: real)
    requires AllWellFormed(ps)
    requires cpu >= 0.0 && EligibleWeight(ps, pass) > 0.0
    ensures var r := Round(ps, pass, cpu, EligibleWeight(ps, pass));
      && TotalAmount(ps, pass) <= TotalAmount(r, pass) <= TotalAmount(ps, pass) + cpu
      && ActiveCount(r, pass) <= ActiveCount(ps, pass)
      && (ActiveCount(r, pass) == ActiveCount(ps, pass) ==> TotalAmount(r, pass) == TotalAmount(ps, pass) + cpu)
      && (ActiveCount(ps, pass) > 0 && cpu > 0.0 ==> TotalAmount(r, pass) > TotalAmount(ps, pass))
  {
    var total := EligibleWeight(ps, pass);
    RoundNeverTakes(ps, pass, cpu, total);
    RoundWithinOffered(ps, pass, cpu, total);
    if ActiveCount(ps, pass) > 0 && cpu > 0.0 {
      RoundProgress(ps, pass, cpu, total);
    }
    RoundClipping(ps, pass, cpu, total);
    OfferedEverything(ps, pass, cpu);
  }

  /** Offered against the full eligible weight, the shares add up to `cpu`. */
  lemma OfferedEverything(ps: seq<Pool>, pass: Pass, cpu: real)
    requires EligibleWeight(ps, pass) != 0.0
    ensures Offered(ps, pass, cpu, EligibleWeight(ps, pass)) == cpu
  {
    OfferedIsProportional(ps, pass, cpu, EligibleWeight(ps, pass));
    Cancel(cpu, EligibleWeight(ps, pass));
  }


  /** Pools that are not eligible have no weight in the total, so an eligible
      weight of zero with something eligible means every eligible pool has
      weight zero; conversely one eligible pool of positive weight makes the
      total positive. */
  lemma {:induction false} EligibleWeightPositive(ps: seq<Pool>, pass: Pass)
    requires AllWellFormed(ps)
    ensures EligibleWeight(ps, pass) >= 0.0
    ensures EligibleWeight(ps, pass) > 0.0 <==> ActiveCount(ps, pass) > 0
    ensures EligibleWeight(ps, pass) == 0.0 && !NoneEligible(ps, pass) ==> HasIdleContender(ps, pass)
  {
    if |ps| > 0 {
      EligibleWeightPositive(ps[1..], pass);
      if EligibleWeight(ps, pass) == 0.0 && !NoneEligible(ps, pass) {
        if Eligible(ps[0], pass) {
          assert ps[0].weight == 0.0;
        } else {
          var i :| 0 <= i < |ps| && Eligible(ps[i], pass);
          assert Eligible(ps[1..][i - 1], pass);
          var j :| 0 <= j < |ps[1..]| && Eligible(ps[1..][j], pass) && ps[1..][j].weight == 0.0;
          assert ps[j + 1] == ps[1..][j];
        }
      }
    }
  }

  /** Every pool of a round's output is its input pool after one step: only
      the filled field changes, it never decreases, an eligible pool stays at
      or below its cap, ineligible and zero-weight pools are untouched, and no
      pool becomes eligible. */
  lemma RoundEffect(ps: seq<Pool>, pass: Pass, cpu: real, total: real)
    requires AllWellFormed(ps)
    requires cpu >= 0.0 && total > 0.0
    ensures var r := Round(ps, pass, cpu, total);
      && AllWellFormed(r)
      && forall i :: 0 <= i < |ps| ==>
           && OnlyAmountChanged(ps[i], r[i], pass)
           && Amount(ps[i], pass) <= Amount(r[i], pass)
           && (Eligible(ps[i], pass) ==> Amount(r[i], pass) <= Cap(ps[i], pass))
           && (!Eligible(ps[i], pass) || ps[i].weight == 0.0 ==> r[i] == ps[i])
           && (Eligible(r[i], pass) ==> Eligible(ps[i], pass))
  {
    var r := Round(ps, pass, cpu, total);
    forall i | 0 <= i < |ps|
      ensures OnlyAmountChanged(ps[i], r[i], pass)
      ensures Amount(ps[i], pass) <= Amount(r[i], pass)
      ensures Eligible(ps[i], pass) ==> Amount(r[i], pass) <= Cap(ps[i], pass)
      ensures !Eligible(ps[i], pass) || ps[i].weight == 0.0 ==> r[i] == ps[i]
      ensures Eligible(r[i], pass) ==> Eligible(ps[i], pass)
      ensures WellFormed(r[i])
    {
      GiveBounds(ps[i], pass, cpu, total);
    }
  }

  /** A round changes no configuration. */
  lemma RoundKeepsWellFormed(ps: seq<Pool>, pass: Pass, cpu: real, total: real)
    requires AllWellFormed(ps)
    requires total != 0.0 || NoneEligible(ps, pass)
    ensures AllSameConfig(ps, Round(ps, pass, cpu, total)) && AllWellFormed(Round(ps, pass, cpu, total))
  {
  }

  /** With nothing eligible a round changes nothing. */
  lemma RoundIdle(ps: seq<Pool>, pass: Pass, cpu: real, total: real)
    requires NoneEligible(ps, pass)
    ensures Round(ps, pass, cpu, total) == ps
  {
  }

  /** Each pool's contribution is part of the eligible weight. */
  lemma {:induction false} EligibleWeightCovers(ps: seq<Pool>, pass: Pass, i: nat)
    requires AllWellFormed(ps) && i < |ps|
    ensures Contribution(ps[i], pass) <= EligibleWeight(ps, pass)
  {
    EligibleWeightPositive(ps, pass);
    EligibleWeightPositive(ps[1..], pass);
    if i > 0 {
      EligibleWeightCovers(ps[1..], pass, i - 1);
    }
  }

  /** The cap summed over the enabled pools. */
  function EnabledCaps(ps: seq<Pool>, pass: Pass): real {
    if |ps| == 0 then 0.0
    else (if ps[0].enabled then Cap(ps[0], pass) else 0.0) + EnabledCaps(ps[1..], pass)
  }

  /** The filled field summed over all pools stays within the enabled pools'
      caps when each enabled pool stays within its cap and the disabled pools
      hold nothing. */
  lemma {:induction false} TotalAmountWithinCaps(ps: seq<Pool>, pass: Pass)
    requires forall i :: 0 <= i < |ps| ==>
               if ps[i].enabled then Amount(ps[i], pass) <= Cap(ps[i], pass) else Amount(ps[i], pass) == 0.0
    ensures TotalAmount(ps, pass) <= EnabledCaps(ps, pass)
  {
    if |ps| > 0 {
      TotalAmountWithinCaps(ps[1..], pass);
    }
  }

  lemma {:induction false} TotalAmountZero(ps: seq<Pool>, pass: Pass)
    requires forall i :: 0 <= i < |ps| ==> Amount(ps[i], pass) == 0.0
    ensures TotalAmount(ps, pass) == 0.0
  {
    if |ps| > 0 {
      TotalAmountZero(ps[1..], pass);
    }
  }

  /** Totals agree when the amounts agree pool by pool. */
  lemma {:induction false} TotalAmountSame(ps: seq<Pool>, qs: seq<Pool>, pass: Pass)
    requires |ps| == |qs|
    requires forall i :: 0 <= i < |ps| ==> Amount(ps[i], pass) == Amount(qs[i], pass)
    ensures TotalAmount(ps, pass) == TotalAmount(qs, pass)
  {
    if |ps| > 0 {
      TotalAmountSame(ps[1..], qs[1..], pass);
    }
  }

  /** When only pool `i` may hold anything, the total is what pool `i` holds. */
  lemma {:induction false} TotalAmountLone(ps: seq<Pool>, pass: Pass, i: nat)
    requires i < |ps|
    requires forall j :: 0 <= j < |ps| && j != i ==> Amount(ps[j], pass) == 0.0
    ensures TotalAmount(ps, pass) == Amount(ps[i], pass)
  {
    if i == 0 {
      TotalAmountZero(ps[1..], pass);
    } else {
      TotalAmountLone(ps[1..], pass, i - 1);
    }
  }

  lemma {:induction false} EligibleWeightNone(ps: seq<Pool>, pass: Pass)
    requires NoneEligible(ps, pass)
    ensures EligibleWeight(ps, pass) == 0.0 && ActiveCount(ps, pass) == 0
  {
    if |ps| > 0 {
      EligibleWeightNone(ps[1..], pass);
    }
  }

  /** When only pool `i` may be eligible, the eligible weight is its weight if
      it is eligible, and zero otherwise. */
  lemma {:induction false} EligibleWeightLone(ps: seq<Pool>, pass: Pass, i: nat)
    requires i < |ps|
    requires forall j :: 0 <= j < |ps| && j != i ==> !Eligible(ps[j], pass)
    ensures EligibleWeight(ps, pass) == Contribution(ps[i], pass)
  {
    if i == 0 {
      EligibleWeightNone(ps[1..], pass);
    } else {
      EligibleWeightLone(ps[1..], pass, i - 1);
    }
  }

  /** No active pool is left exactly when the active count is zero. */
  lemma {:induction false} ActiveCountZero(ps: seq<Pool>, pass: Pass)
    ensures ActiveCount(ps, pass) == 0 <==> forall i :: 0 <= i < |ps| ==> !Active(ps[i], pass)
  {
    if |ps| > 0 {
      ActiveCountZero(ps[1..], pass);
      if ActiveCount(ps, pass) == 0 {
        forall i | 0 <= i < |ps| ensures !Active(ps[i], pass) {
          if i > 0 {
            assert ps[i] == ps[1..][i - 1];
          }
        }
      } else if !Active(ps[0], pass) {
        var j :| 0 <= j < |ps[1..]| && Active(ps[1..][j], pass);
        assert ps[j + 1] == ps[1..][j];
      }
    }
  }

  /** When only pool `i` may be eligible, a round is one step of pool `i`. */
  lemma RoundLone(ps: seq<Pool>, pass: Pass, cpu: real, total: real, i: nat)
    requires i < |ps| && total != 0.0
    requires forall j :: 0 <= j < |ps| && j != i ==> !Eligible(ps[j], pass)
    ensures Round(ps, pass, cpu, total) == ps[i := Give(ps[i], pass, cpu, total)]
  {
  }

  /** When disabled pools hold no usage, the usage summed over the enabled
      pools is the usage summed over all of them. */
  lemma {:induction false} EnabledUsageIsTotal(ps: seq<Pool>)
    requires forall i :: 0 <= i < |ps| && !ps[i].enabled ==> ps[i].realUsage == 0.0
    ensures EnabledUsage(ps) == TotalAmount(ps, Usage)
  {
    if |ps| > 0 {
      EnabledUsageIsTotal(ps[1..]);
    }
  }

  /** How much more an active pool can take before it reaches its cap; zero
      for a pool a round does not feed. */
  function Room(p: Pool, pass: Pass): real {
    if Active(p, pass) then Cap(p, pass) - Amount(p, pass) else 0.0
  }

  /** The room summed over all pools: what the active pools can still take. */
  function Headroom(ps: seq<Pool>, pass: Pass): real {
    if |ps| == 0 then 0.0 else Room(ps[0], pass) + Headroom(ps[1..], pass)
  }

  lemma {:induction false} HeadroomNonNegative(ps: seq<Pool>, pass: Pass)
    ensures Headroom(ps, pass) >= 0.0
  {
    if |ps| > 0 {
      HeadroomNonNegative(ps[1..], pass);
    }
  }

  /** With no active pool there is no room left. */
  lemma {:induction false} HeadroomNone(ps: seq<Pool>, pass: Pass)
    requires ActiveCount(ps, pass) == 0
    ensures Headroom(ps, pass) == 0.0
  {
    if |ps| > 0 {
      HeadroomNone(ps[1..], pass);
    }
  }

  /** A step moves room into the amount and loses none: an active pool either
      keeps its cap as amount plus room, or is filled to its cap. */
  lemma GiveRoom(p: Pool, pass: Pass, cpu: real, total: real)
    requires p.weight >= 0.0 && cpu >= 0.0 && total > 0.0
    ensures var q := Give(p, pass, cpu, total);
      Room(q, pass) + Amount(q, pass) == Room(p, pass) + Amount(p, pass)
  {
    var q := Give(p, pass, cpu, total);
    GiveBounds(p, pass, cpu, total);
    if Active(p, pass) {
      assert Cap(q, pass) == Cap(p, pass) && q.enabled && q.weight == p.weight;
    }
  }

  /** A round moves room into amounts and loses none, so what a round hands
      out is exactly the room it uses up. */
  lemma {:induction false} RoundRoom(ps: seq<Pool>, pass: Pass, cpu: real, total: real)
    requires AllWellFormed(ps)
    requires cpu >= 0.0 && total > 0.0
    ensures var r := Round(ps, pass, cpu, total);
      Headroom(r, pass) + TotalAmount(r, pass) == Headroom(ps, pass) + TotalAmount(ps, pass)
  {
    if |ps| > 0 {
      var r := Round(ps, pass, cpu, total);
      assert WellFormed(ps[0]) && AllWellFormed(ps[1..]);
      assert r[1..] == Round(ps[1..], pass, cpu, total);
      GiveRoom(ps[0], pass, cpu, total);
      RoundRoom(ps[1..], pass, cpu, total);
    }
  }

  /** The water level of weighted water-filling: an enabled pool of positive
      weight and non-negative cap holds `lam * weight`, or its cap if that is
      lower. Every such pool sits at the same level, which is what sharing in
      proportion to weight means. */
  predicate AtLevel(p: Pool, pass: Pass, lam: real) {
    p.enabled && p.weight > 0.0 && Cap(p, pass) >= 0.0 ==>
      Amount(p, pass) == Min(Cap(p, pass), lam * p.weight)
  }

  /** All pools sit at the non-negative water level `lam`. */
  predicate Leveled(ps: seq<Pool>, pass: Pass, lam: real) {
    0.0 <= lam && (|ps| == 0 || (AtLevel(ps[0], pass, lam) && Leveled(ps[1..], pass, lam)))
  }

  /** `Leveled` pool by pool. */
  lemma {:induction false} LeveledPointwise(ps: seq<Pool>, pass: Pass, lam: real)
    ensures Leveled(ps, pass, lam) <==> 0.0 <= lam && forall i :: 0 <= i < |ps| ==> AtLevel(ps[i], pass, lam)
  {
    if |ps| > 0 {
      LeveledPointwise(ps[1..], pass, lam);
      assert forall i :: 1 <= i < |ps| ==> ps[i] == ps[1..][i - 1];
    }
  }

  /** A step raises a pool's level by `cpu / total`: below its cap it held
      `lam * weight` and gets `cpu * weight / total` more, clipped at the cap;
      at its cap it stays there. */
  lemma GiveLevel(p: Pool, pass: Pass, cpu: real, total: real, lam: real)
    requires p.weight >= 0.0 && cpu >= 0.0 && total > 0.0 && lam >= 0.0
    requires AtLevel(p, pass, lam)
    ensures AtLevel(Give(p, pass, cpu, total), pass, lam + cpu / total)
  {
    var q := Give(p, pass, cpu, total);
    if p.enabled && p.weight > 0.0 && Cap(p, pass) >= 0.0 {
      var w := p.weight;
      var rise := cpu / total;
      assert Cap(q, pass) == Cap(p, pass);
      assert rise >= 0.0;
      assert rise * w >= 0.0;
      assert (lam + rise) * w == lam * w + rise * w;
      assert rise * w == cpu * w / total;
    }
  }

  /** A round with `cpu` and `total` raises the water level by `cpu / total`. */
  lemma RoundLevel(ps: seq<Pool>, pass: Pass, cpu: real, total: real, lam: real)
    requires AllWellFormed(ps)
    requires cpu >= 0.0 && total > 0.0
    requires Leveled(ps, pass, lam)
    ensures Leveled(Round(ps, pass, cpu, total), pass, lam + cpu / total)
  {
    var r := Round(ps, pass, cpu, total);
    assert cpu / total >= 0.0;
    LeveledPointwise(ps, pass, lam);
    forall i | 0 <= i < |ps|
      ensures AtLevel(r[i], pass, lam + cpu / total)
    {
      GiveLevel(ps[i], pass, cpu, total, lam);
    }
    LeveledPointwise(r, pass, lam + cpu / total);
  }
}
