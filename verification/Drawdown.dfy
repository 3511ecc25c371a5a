/** Online drawdown loops. */
module Drawdown {
  // The online drawdown loops of `scripts/evidence_ac05.py` and
  // `scripts/evidence_workstream_b_verify.py`, against the quadratic definition. Exact reals.

  import opened Arithmetic
  import opened Wrappers

  // ------------------------------------------------------------- equity-based loop

  function PeakOf(equity: seq<real>): real
    requires equity != []
  {
    if |equity| == 1 then equity[0] else Max(PeakOf(equity[..|equity| - 1]), equity[|equity| - 1])
  }

  /** Drop from a peak to a value, as a fraction of the peak. */
  function Fraction(peak: real, value: real): real {
    if peak > 0.0 then (peak - value) / peak else 0.0
  }

  function DropOf(equity: seq<real>): real
    requires equity != []
  {
    Fraction(PeakOf(equity), equity[|equity| - 1])
  }

  function WorstDrop(equity: seq<real>): real {
    if equity == [] then 0.0 else Max(WorstDrop(equity[..|equity| - 1]), DropOf(equity))
  }

  /** `oracle_max_drawdown`. */
  method OracleMaxDrawdown(equity: seq<real>) returns (r: real)
    requires equity != []
    ensures r == WorstDrop(equity) * 100.0
  {
    var peak, worst := equity[0], 0.0;
    for i := 0 to |equity|
      invariant i > 0 ==> peak == PeakOf(equity[..i])
      invariant i == 0 ==> peak == equity[0]
      invariant worst == WorstDrop(equity[..i])
    {
      assert equity[..i + 1][..i] == equity[..i];
      peak := Max(peak, equity[i]);
      worst := Max(worst, Fraction(peak, equity[i]));
    }
    assert equity[..|equity|] == equity;
    r := worst * 100.0;
  }

  // ------------------------------------------------------------ return-based loop

  function Next(cum: real, r: real): real {
    cum * (1.0 + r)
  }

  /** The compounded curve from 1; a return that is None or not finite is skipped. */
  function Compound(rets: seq<Option<real>>): (curve: seq<real>)
    ensures curve != []
  {
    if rets == [] then [1.0]
    else
      var before, r := Compound(rets[..|rets| - 1]), rets[|rets| - 1];
      if r.None? then before else before + [Next(before[|before| - 1], r.value)]
  }

  /** `max_drawdown_from_returns`. */
  method MaxDrawdownFromReturns(rets: seq<Option<real>>) returns (r: real)
    ensures r == WorstDrop(Compound(rets)) * 100.0
  {
    if rets == [] {
      CompoundStart();
      return 0.0;
    }
    hide PeakOf, WorstDrop, DropOf, Fraction, Next, Compound;
    var cum, peak, worst := 1.0, 1.0, 0.0;
    CompoundStart();
    for i := 0 to |rets|
      invariant var curve := Compound(rets[..i]);
                && cum == curve[|curve| - 1] && peak == PeakOf(curve) && peak >= 1.0
                && worst == WorstDrop(curve) * 100.0
    {
      CompoundStep(rets, i);
      if rets[i].Some? {
        ghost var curve := Compound(rets[..i]);
        cum := Next(cum, rets[i].value);
        CurveGrows(curve, cum);
        if cum > peak {
          peak := cum;
        }
        if peak > 0.0 {
          var dd := Fraction(peak, cum) * 100.0;
          Percent(WorstDrop(curve), Fraction(peak, cum));
          if dd > worst {
            worst := dd;
          }
        }
      }
    }
    assert rets[..|rets|] == rets;
    return worst;
  }

  lemma {:induction false} CompoundStep(rets: seq<Option<real>>, i: nat)
    requires i < |rets|
    ensures var before := Compound(rets[..i]);
            Compound(rets[..i + 1]) ==
            if rets[i].None? then before else before + [Next(before[|before| - 1], rets[i].value)]
  {
    assert rets[..i + 1][..i] == rets[..i];
  }

  lemma {:induction false} CurveGrows(curve: seq<real>, next: real)
    requires curve != []
    ensures PeakOf(curve + [next]) == Max(PeakOf(curve), next)
    ensures WorstDrop(curve + [next]) == Max(WorstDrop(curve), Fraction(PeakOf(curve + [next]), next))
  {
    assert (curve + [next])[..|curve|] == curve;
  }

  lemma {:induction false} CompoundStart()
    ensures Compound([]) == [1.0] && PeakOf([1.0]) == 1.0 && WorstDrop([1.0]) == 0.0
  {
    assert [1.0][..0] == [];
  }

  lemma {:induction false} Percent(a: real, b: real)
    ensures Max(a, b) * 100.0 == Max(a * 100.0, b * 100.0)
  {
  }

  // --------------------------------------------------------- the quadratic definition

  ghost predicate NoDebt(equity: seq<real>) {
    forall i :: 0 <= i < |equity| ==> equity[i] >= 0.0
  }

  /** The drop between two points. */
  function Drop(equity: seq<real>, i: nat, j: nat): real
    requires i <= j < |equity| && equity[i] != 0.0
  {
    (equity[i] - equity[j]) / equity[i]
  }

  /** The largest drop from any positive point to any later one (or itself). */
  ghost predicate IsMaxDrop(equity: seq<real>, d: real) {
    && (forall i, j :: 0 <= i <= j < |equity| && equity[i] > 0.0 ==> Drop(equity, i, j) <= d)
    && (exists i, j :: 0 <= i <= j < |equity| && equity[i] > 0.0 && Drop(equity, i, j) == d)
  }

  lemma {:induction false} PeakIsMaximum(equity: seq<real>)
    requires equity != []
    ensures forall i :: 0 <= i < |equity| ==> equity[i] <= PeakOf(equity)
    ensures exists i :: 0 <= i < |equity| && equity[i] == PeakOf(equity)
  {
    if |equity| > 1 {
      var front := equity[..|equity| - 1];
      PeakIsMaximum(front);
      var i :| 0 <= i < |front| && front[i] == PeakOf(front);
      assert equity[i] == PeakOf(front);
      forall k | 0 <= k < |front| ensures equity[k] == front[k] {
      }
    } else {
      assert equity[0] == PeakOf(equity);
    }
  }

  lemma {:induction false} Quotient(a: real, q: real, p: real)
    requires p > 0.0 && q * p == a
    ensures a / p == q
  {
  }

  lemma {:induction false} ShrinkFactor(b: real, low: real, high: real)
    requires b > 0.0 && low <= high
    ensures b * low <= b * high
  {
  }

  lemma {:induction false} HigherPeakDropsMore(low: real, high: real, last: real)
    requires 0.0 < low <= high && last >= 0.0
    ensures (low - last) / low <= (high - last) / high
  {
    var a, b := last / low, last / high;
    assert a * low == last && b * high == last;
    Quotient(low - last, 1.0 - a, low);
    Quotient(high - last, 1.0 - b, high);
    CancelFactor(0.0, b, high, 0.0, last);
    if b > 0.0 {
      ShrinkFactor(b, low, high);
      CancelFactor(b, a, low, b * low, last);
    } else {
      CancelFactor(0.0, a, low, 0.0, last);
    }
  }

  /** The running drop at j is the largest drop that ends at j. */
  lemma {:induction false} DropIsLargestHere(equity: seq<real>, n: nat)
    requires |equity| == n + 1 && NoDebt(equity) && equity[0] > 0.0
    ensures forall i :: 0 <= i <= n && equity[i] > 0.0 ==> Drop(equity, i, n) <= DropOf(equity)
    ensures exists i :: 0 <= i <= n && equity[i] > 0.0 && Drop(equity, i, n) == DropOf(equity)
    ensures DropOf(equity) >= 0.0
  {
    PeakIsMaximum(equity);
    forall i | 0 <= i <= n && equity[i] > 0.0 ensures Drop(equity, i, n) <= DropOf(equity) {
      HigherPeakDropsMore(equity[i], PeakOf(equity), equity[n]);
    }
    var i :| 0 <= i < |equity| && equity[i] == PeakOf(equity);
    assert equity[i] > 0.0 && Drop(equity, i, n) == DropOf(equity);
    FractionIsPositive(PeakOf(equity), equity[n]);
  }

  /** On a curve that starts above zero and never falls below it the online maximum is the quadratic
      one. */
  lemma {:induction false} OnlineIsQuadratic(equity: seq<real>)
    requires equity != [] && equity[0] > 0.0 && NoDebt(equity)
    ensures IsMaxDrop(equity, WorstDrop(equity)) && WorstDrop(equity) >= 0.0
  {
    var n := |equity| - 1;
    var front := equity[..n];
    DropIsLargestHere(equity, n);
    if front != [] {
      OnlineIsQuadratic(front);
      forall i, j | 0 <= i <= j < |equity| && equity[i] > 0.0 ensures Drop(equity, i, j) <= WorstDrop(equity) {
        if j < n {
          assert front[i] > 0.0 && Drop(equity, i, j) == Drop(front, i, j);
        }
      }
      if WorstDrop(front) > DropOf(equity) {
        var i, j :| 0 <= i <= j < |front| && front[i] > 0.0 && Drop(front, i, j) == WorstDrop(front);
        assert equity[i] > 0.0 && Drop(equity, i, j) == WorstDrop(equity);
      }
    } else {
      assert WorstDrop(front) == 0.0;
    }
  }

  lemma {:induction false} CompoundHasNoDebt(rets: seq<Option<real>>)
    requires forall i :: 0 <= i < |rets| && rets[i].Some? ==> rets[i].value >= -1.0
    ensures NoDebt(Compound(rets))
  {
    if rets != [] {
      var front := rets[..|rets| - 1];
      CompoundHasNoDebt(front);
      var before, r := Compound(front), rets[|rets| - 1];
      if r.Some? {
        Grows(before[|before| - 1], 1.0 + r.value);
        OneMoreCredit(before, Next(before[|before| - 1], r.value));
      }
    }
  }

  lemma {:induction false} OneMoreCredit(curve: seq<real>, next: real)
    requires NoDebt(curve) && next >= 0.0
    ensures NoDebt(curve + [next])
  {
  }

  lemma {:induction false} Grows(a: real, b: real)
    requires a >= 0.0 && b >= 0.0
    ensures a * b >= 0.0
  {
  }

  /** For all returns from -1 on: both loops compute the largest drop from any positive point of the
      compounded curve to any later one. */
  lemma {:induction false} ReturnDrawdownIsQuadratic(rets: seq<Option<real>>)
    requires forall i :: 0 <= i < |rets| && rets[i].Some? ==> rets[i].value >= -1.0
    ensures IsMaxDrop(Compound(rets), WorstDrop(Compound(rets)))
  {
    CompoundStartsAtOne(rets);
    CompoundHasNoDebt(rets);
    OnlineIsQuadratic(Compound(rets));
  }

  // ------------------------------------------------------------------- all returns

  /** A highest point up to j, above zero. */
  ghost predicate IsPeak(equity: seq<real>, i: nat, j: nat) {
    i <= j < |equity| && equity[i] > 0.0 && forall k :: 0 <= k <= j ==> equity[k] <= equity[i]
  }

  /** The largest drop from a highest point so far. */
  ghost predicate IsMaxPeakDrop(equity: seq<real>, d: real) {
    && (forall i: nat, j: nat :: IsPeak(equity, i, j) ==> Drop(equity, i, j) <= d)
    && (exists i: nat, j: nat :: IsPeak(equity, i, j) && Drop(equity, i, j) == d)
  }

  lemma {:induction false} PeakDropHere(equity: seq<real>, n: nat)
    requires |equity| == n + 1
    ensures forall i: nat :: IsPeak(equity, i, n) ==> Drop(equity, i, n) == DropOf(equity)
    ensures PeakOf(equity) > 0.0 ==> exists i: nat :: IsPeak(equity, i, n)
    ensures PeakOf(equity) <= 0.0 ==> DropOf(equity) == 0.0
    ensures DropOf(equity) >= 0.0
  {
    PeakIsMaximum(equity);
    var i :| 0 <= i < |equity| && equity[i] == PeakOf(equity);
    if PeakOf(equity) > 0.0 {
      assert IsPeak(equity, i, n);
    }
    forall k: nat | IsPeak(equity, k, n) ensures Drop(equity, k, n) == DropOf(equity) {
      assert equity[k] == PeakOf(equity);
    }
    FractionIsPositive(PeakOf(equity), equity[n]);
  }

  lemma {:induction false} FractionIsPositive(peak: real, value: real)
    requires value <= peak
    ensures Fraction(peak, value) >= 0.0
  {
  }

  /** A peak of the curve without its last point is one of the curve. */
  lemma {:induction false} PeaksStay(equity: seq<real>, n: nat)
    requires |equity| == n + 1
    ensures forall i: nat, j: nat :: j < n ==>
              (IsPeak(equity, i, j) <==> IsPeak(equity[..n], i, j)) &&
              (IsPeak(equity, i, j) ==> Drop(equity, i, j) == Drop(equity[..n], i, j))
  {
  }

  lemma {:induction false} NoDropSoFar()
    ensures WorstDrop([]) == 0.0
  {
  }

  /** On every curve the loop computes the largest drop from a highest point so far above zero, and
      zero where nothing is above zero. */
  lemma {:induction false} OnlineIsPeakDrop(equity: seq<real>)
    requires equity != []
    ensures WorstDrop(equity) >= 0.0
    ensures if exists i :: 0 <= i < |equity| && equity[i] > 0.0 then IsMaxPeakDrop(equity, WorstDrop(equity))
            else WorstDrop(equity) == 0.0
  {
    var n := |equity| - 1;
    var front := equity[..n];
    PeakDropHere(equity, n);
    PeaksStay(equity, n);
    PeakIsMaximum(equity);
    if front == [] {
      NoDropSoFar();
      BestOfBoth(equity, n, 0.0);
    } else {
      OnlineIsPeakDrop(front);
      BestOfBoth(equity, n, WorstDrop(front));
    }
  }

  /** The drops that end before the last point, and those that end there. */
  lemma {:induction false} BestOfBoth(equity: seq<real>, n: nat, before: real)
    requires |equity| == n + 1 && before >= 0.0 && WorstDrop(equity) == Max(before, DropOf(equity))
    requires if exists i :: 0 <= i < n && equity[..n][i] > 0.0 then IsMaxPeakDrop(equity[..n], before)
             else before == 0.0
    ensures WorstDrop(equity) >= 0.0
    ensures if exists i :: 0 <= i < |equity| && equity[i] > 0.0 then IsMaxPeakDrop(equity, WorstDrop(equity))
            else WorstDrop(equity) == 0.0
  {
    var front, d := equity[..n], WorstDrop(equity);
    PeakDropHere(equity, n);
    PeaksStay(equity, n);
    PeakIsMaximum(equity);
    hide WorstDrop, DropOf, PeakOf;
    if k :| 0 <= k < |equity| && equity[k] > 0.0 {
      forall i: nat, j: nat | IsPeak(equity, i, j) ensures Drop(equity, i, j) <= d {
        if j < n {
          assert IsPeak(front, i, j) && front[i] > 0.0;
        }
      }
      if d == DropOf(equity) {
        var i: nat :| IsPeak(equity, i, n);
        assert Drop(equity, i, n) == d;
      } else {
        var i: nat, j: nat :| IsPeak(front, i, j) && Drop(front, i, j) == before;
        assert IsPeak(equity, i, j) && Drop(equity, i, j) == d;
      }
    }
  }

  lemma {:induction false} CompoundStartsAtOne(rets: seq<Option<real>>)
    ensures Compound(rets)[0] == 1.0
  {
    if rets != [] {
      CompoundStartsAtOne(rets[..|rets| - 1]);
    }
  }

  /** For all returns, also those below -1. */
  lemma {:induction false} ReturnDrawdownIsPeakDrop(rets: seq<Option<real>>)
    ensures IsMaxPeakDrop(Compound(rets), WorstDrop(Compound(rets)))
  {
    CompoundStartsAtOne(rets);
    OnlineIsPeakDrop(Compound(rets));
    assert Compound(rets)[0] > 0.0;
  }

  /** Below zero a lower peak drops more: after returns of -1/2 and -2 the loop reports 150 percent,
      while the largest drop between two points is 200. */
  lemma {:induction false} QuadraticFailsBelowZero()
    ensures var curve := [1.0, 0.5, -0.5];
            && Compound([Some(-0.5), Some(-2.0)]) == curve
            && WorstDrop(curve) == 1.5 && Drop(curve, 1, 2) == 2.0
  {
    var rets := [Some(-0.5), Some(-2.0)];
    assert rets[..1] == [Some(-0.5)];
    CompoundStart();
    assert rets[..1][..0] == rets[..0];
    assert Compound(rets[..0]) == [1.0];
    assert Compound(rets[..1]) == [1.0] + [0.5];
    assert Compound(rets) == [1.0, 0.5] + [-0.5];
    var curve := [1.0, 0.5, -0.5];
    var one, two := [1.0], [1.0, 0.5];
    assert curve[..2] == two && two[..1] == one && one[..0] == [];
    assert WorstDrop([1.0]) == 0.0;
    assert WorstDrop([1.0, 0.5]) == 0.5;
  }

  // --------------------------------------------------------- time below the peak

  /** Points strictly below their running peak, up to the last one without a break. */
  function Streak(equity: seq<real>): nat {
    if equity == [] || equity[|equity| - 1] >= PeakOf(equity) then 0 else Streak(equity[..|equity| - 1]) + 1
  }

  function LongestStreak(equity: seq<real>): nat {
    if equity == [] then 0
    else
      var before, here := LongestStreak(equity[..|equity| - 1]), Streak(equity);
      if before >= here then before else here
  }

  /** `oracle_max_drawdown_duration`. */
  method OracleMaxDrawdownDuration(equity: seq<real>) returns (longest: nat)
    requires equity != []
    ensures longest == LongestStreak(equity)
  {
    var peak, duration := equity[0], 0;
    longest := 0;
    for i := 0 to |equity|
      invariant i > 0 ==> peak == PeakOf(equity[..i])
      invariant i == 0 ==> peak == equity[0]
      invariant duration == Streak(equity[..i]) && longest == LongestStreak(equity[..i])
    {
      assert equity[..i + 1][..i] == equity[..i];
      peak := Max(peak, equity[i]);
      if equity[i] < peak {
        duration := duration + 1;
      } else {
        duration := 0;
      }
      if duration > longest {
        longest := duration;
      }
    }
    assert equity[..|equity|] == equity;
  }

  ghost predicate UnderWater(equity: seq<real>, k: nat)
    requires k < |equity|
  {
    exists i :: 0 <= i < k && equity[i] > equity[k]
  }

  /** a .. b - 1 are all below an earlier point. */
  ghost predicate Submerged(equity: seq<real>, a: nat, b: nat) {
    a <= b <= |equity| && forall k :: a <= k < b ==> UnderWater(equity, k)
  }

  lemma {:induction false} BelowPeakMeansUnderWater(equity: seq<real>)
    requires equity != []
    ensures equity[|equity| - 1] < PeakOf(equity) <==> UnderWater(equity, |equity| - 1)
  {
    PeakIsMaximum(equity);
    if equity[|equity| - 1] < PeakOf(equity) {
      var i :| 0 <= i < |equity| && equity[i] == PeakOf(equity);
      assert equity[i] > equity[|equity| - 1];
    }
  }

  lemma {:induction false} UnderWaterInPrefix(equity: seq<real>, n: nat, k: nat)
    requires k < n <= |equity|
    ensures UnderWater(equity[..n], k) <==> UnderWater(equity, k)
  {
    if UnderWater(equity, k) {
      var i :| 0 <= i < k && equity[i] > equity[k];
      assert equity[..n][i] > equity[..n][k];
    }
  }

  lemma {:induction false} StreakIsMaximal(equity: seq<real>)
    ensures Streak(equity) <= |equity| && Submerged(equity, |equity| - Streak(equity), |equity|)
    ensures forall a :: 0 <= a <= |equity| && Submerged(equity, a, |equity|) ==> |equity| - a <= Streak(equity)
  {
    if equity != [] {
      var n := |equity| - 1;
      BelowPeakMeansUnderWater(equity);
      StreakIsMaximal(equity[..n]);
      forall k | 0 <= k < n ensures UnderWater(equity[..n], k) <==> UnderWater(equity, k) {
        UnderWaterInPrefix(equity, n, k);
      }
      forall a | 0 <= a <= |equity| && Submerged(equity, a, |equity|) ensures |equity| - a <= Streak(equity) {
        if a <= n {
          assert UnderWater(equity, n);
          assert Submerged(equity[..n], a, n);
        }
      }
    }
  }

  /** The duration is the length of the longest stretch under water. */
  lemma {:induction false} DurationIsLongestStretch(equity: seq<real>)
    ensures forall a, b :: 0 <= a <= b && Submerged(equity, a, b) ==> b - a <= LongestStreak(equity)
    ensures exists a, b :: 0 <= a <= b && Submerged(equity, a, b) && b - a == LongestStreak(equity)
  {
    StreakIsMaximal(equity);
    if equity == [] {
      assert Submerged(equity, 0, 0);
    } else {
      var n := |equity| - 1;
      DurationIsLongestStretch(equity[..n]);
      forall a, b | 0 <= a <= b && Submerged(equity, a, b) ensures b - a <= LongestStreak(equity) {
        if b <= n {
          PrefixSubmerged(equity, n, a, b);
        }
      }
      if LongestStreak(equity) == Streak(equity) {
        assert Submerged(equity, |equity| - Streak(equity), |equity|);
      } else {
        var a, b :| 0 <= a <= b && Submerged(equity[..n], a, b) && b - a == LongestStreak(equity[..n]);
        PrefixSubmerged(equity, n, a, b);
      }
    }
  }

  lemma {:induction false} PrefixSubmerged(equity: seq<real>, n: nat, a: nat, b: nat)
    requires n <= |equity| && b <= n
    ensures Submerged(equity[..n], a, b) <==> Submerged(equity, a, b)
  {
    forall k | a <= k < b ensures UnderWater(equity[..n], k) <==> UnderWater(equity, k) {
      UnderWaterInPrefix(equity, n, k);
    }
  }
}
