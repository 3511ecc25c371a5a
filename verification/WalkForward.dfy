/** Walk-forward folds and frozen choices. */
module WalkForward {
  // Walk-forward folds and the frozen parameter choice of `scripts/fast_wfo.py`.

  import opened Arithmetic
  import opened Wrappers

  const TRAIN_MONTHS := 12
  const VAL_MONTHS := 3
  const TEST_MONTHS := 3
  const STEP_MONTHS := 3

  // ----------------------------------------------------------------- bars per month

  datatype Timeframe = Minutes(n: nat) | Hours(n: nat) | Days(n: nat) | Unknown

  /** None when the script would divide by zero. */
  function BarsPerMonth(tf: Timeframe): Option<nat> {
    match tf
    case Minutes(n) => if n == 0 then None else Some(30 * 24 * 60 / n)
    case Hours(n) => if n == 0 then None else Some(30 * 24 / n)
    case Days(n) => if n == 0 then None else Some(30 / n)
    case Unknown => Some(720)
  }

  // ------------------------------------------------------------------------- folds

  datatype Fold = Fold(id: nat, trainStart: int, trainEnd: int, valStart: int, valEnd: int, testStart: int,
                       testEnd: int)

  function Total(bpm: nat): nat {
    TRAIN_MONTHS * bpm + VAL_MONTHS * bpm + TEST_MONTHS * bpm
  }

  function StepBars(bpm: nat): nat {
    STEP_MONTHS * bpm
  }

  function FoldFrom(id: nat, start: int, bpm: nat): Fold {
    var trainEnd := start + TRAIN_MONTHS * bpm;
    var valEnd := trainEnd + VAL_MONTHS * bpm;
    Fold(id, start, trainEnd, trainEnd, valEnd, valEnd, valEnd + TEST_MONTHS * bpm)
  }

  /** Where the loop variable stands after k iterations. */
  function StartAfter(k: nat, bpm: nat): nat {
    k * StepBars(bpm)
  }

  function FoldAt(k: nat, bpm: nat): Fold {
    FoldFrom(k, StartAfter(k, bpm), bpm)
  }

  function FoldCount(bars: nat, bpm: nat): nat
    requires bpm > 0
  {
    if bars < Total(bpm) then 0 else (bars - Total(bpm)) / StepBars(bpm) + 1
  }

  lemma {:induction false} GuardCounts(bars: nat, bpm: nat, k: nat)
    requires bpm > 0
    ensures StartAfter(k, bpm) + Total(bpm) <= bars <==> k < FoldCount(bars, bpm)
  {
    if bars >= Total(bpm) {
      DivideBound(bars - Total(bpm), StepBars(bpm), k);
    }
  }

  lemma {:induction false} DivideBound(a: nat, d: nat, k: nat)
    requires d > 0
    ensures k * d <= a <==> k <= a / d
  {
    var q, r := a / d, a % d;
    assert a == q * d + r;
    if k <= q {
      MulMonotone(k, q, d);
    } else {
      MulMonotone(q + 1, k, d);
    }
  }

  /** `compute_folds`; it only ends when there is at least one bar per month. */
  method ComputeFolds(bars: nat, bpm: nat) returns (folds: seq<Fold>)
    requires bpm > 0
    ensures |folds| == FoldCount(bars, bpm)
    ensures forall k :: 0 <= k < |folds| ==> folds[k] == FoldAt(k, bpm)
  {
    folds := [];
    var start := 0;
    GuardCounts(bars, bpm, 0);
    while start + Total(bpm) <= bars
      invariant start == StartAfter(|folds|, bpm)
      invariant |folds| <= FoldCount(bars, bpm)
      invariant forall k :: 0 <= k < |folds| ==> folds[k] == FoldAt(k, bpm)
      decreases FoldCount(bars, bpm) - |folds|
    {
      GuardCounts(bars, bpm, |folds|);
      folds := folds + [FoldFrom(|folds|, start, bpm)];
      start := start + StepBars(bpm);
    }
    GuardCounts(bars, bpm, |folds|);
  }

  /** The loop of `compute_folds` leaves its guard after some iteration exactly when there is a
      bar per month; a timeframe longer than a month makes it run forever. */
  lemma {:induction false} FoldLoopEnds(bars: nat, bpm: nat)
    ensures (exists k: nat :: StartAfter(k, bpm) + Total(bpm) > bars) <==> bpm > 0
  {
    if bpm > 0 {
      GuardCounts(bars, bpm, FoldCount(bars, bpm));
      assert StartAfter(FoldCount(bars, bpm), bpm) + Total(bpm) > bars;
    } else {
      forall k: nat ensures StartAfter(k, bpm) == 0 {
      }
    }
  }

  lemma {:induction false} LongTimeframesHaveNoBar(tf: Timeframe)
    ensures BarsPerMonth(tf) == Some(0) <==>
            (tf.Minutes? && tf.n > 43200) || (tf.Hours? && tf.n > 720) || (tf.Days? && tf.n > 30)
  {
    match tf
    case Minutes(n) => if n > 0 { DivideBound(43200, n, 1); }
    case Hours(n) => if n > 0 { DivideBound(720, n, 1); }
    case Days(n) => if n > 0 { DivideBound(30, n, 1); }
    case Unknown =>
  }

  /** Minutes of one bar; None for a name the script does not know. */
  function MinutesOf(tf: Timeframe): Option<nat> {
    match tf
    case Minutes(n) => Some(n)
    case Hours(n) => Some(n * 60)
    case Days(n) => Some(n * 60 * 24)
    case Unknown => None
  }

  /** The bars per month are as many whole bars as fit thirty days, and 720 for an unknown name. */
  lemma {:induction false} BarsFillTheMonth(tf: Timeframe, k: nat)
    ensures MinutesOf(tf) == Some(0) <==> BarsPerMonth(tf).None?
    ensures MinutesOf(tf).None? ==> BarsPerMonth(tf) == Some(720)
    ensures MinutesOf(tf).Some? && MinutesOf(tf).value > 0 ==>
              (k <= BarsPerMonth(tf).value <==> k * MinutesOf(tf).value <= 30 * 24 * 60)
  {
    match tf
    case Minutes(n) => if n > 0 { DivideBound(43200, n, k); }
    case Hours(n) =>
      if n > 0 {
        DivideBound(720, n, k);
        assert k * (n * 60) == (k * n) * 60;
      }
    case Days(n) =>
      if n > 0 {
        DivideBound(30, n, k);
        assert k * (n * 60 * 24) == (k * n) * 1440;
      }
    case Unknown =>
  }

  /** Twelve months of training, three of validation, three of test, three months further each time,
      for as long as they fit. */
  lemma {:induction false} FoldsAreMonths(bars: nat, bpm: nat, k: nat)
    requires bpm > 0
    ensures var f := FoldAt(k, bpm);
            && f.id == k && f.trainStart == k * (3 * bpm)
            && f.trainEnd == f.trainStart + 12 * bpm == f.valStart
            && f.valEnd == f.valStart + 3 * bpm == f.testStart
            && f.testEnd == f.testStart + 3 * bpm
            && (k < FoldCount(bars, bpm) <==> f.testEnd <= bars)
  {
    GuardCounts(bars, bpm, k);
  }

  /** The test windows tile: each starts where the one before ends, all fit, and what is left at
      the end is shorter than one step. */
  lemma {:induction false} TestWindowsTile(bars: nat, bpm: nat, k: nat)
    requires bpm > 0 && k < FoldCount(bars, bpm)
    ensures FoldAt(k, bpm).testEnd == FoldAt(k + 1, bpm).testStart
    ensures FoldAt(k, bpm).testStart == FoldAt(k, bpm).valEnd && FoldAt(k, bpm).testEnd <= bars
    ensures k == FoldCount(bars, bpm) - 1 ==> bars - FoldAt(k, bpm).testEnd < StepBars(bpm)
  {
    GuardCounts(bars, bpm, k);
    GuardCounts(bars, bpm, k + 1);
    assert StartAfter(k + 1, bpm) == StartAfter(k, bpm) + StepBars(bpm);
  }

  /** Every bar after the first train and validation span, up to the last test end, is tested once. */
  lemma {:induction false} EachBarIsTestedOnce(bars: nat, bpm: nat, bar: nat)
    requires bpm > 0 && FoldCount(bars, bpm) > 0
    requires FoldAt(0, bpm).testStart <= bar < FoldAt(FoldCount(bars, bpm) - 1, bpm).testEnd
    ensures exists k :: 0 <= k < FoldCount(bars, bpm) && FoldAt(k, bpm).testStart <= bar < FoldAt(k, bpm).testEnd
    ensures forall j, k :: 0 <= j < k ==> FoldAt(j, bpm).testEnd <= FoldAt(k, bpm).testStart
  {
    var d := StepBars(bpm);
    var base := bar - FoldAt(0, bpm).testStart;
    var k := base / d;
    DivideBound(base, d, k);
    DivideBound(base, d, k + 1);
    DivideBound(base, d, FoldCount(bars, bpm));
    assert (k + 1) * d == k * d + d;
    assert FoldAt(k, bpm).testStart <= bar < FoldAt(k, bpm).testEnd;
    assert (FoldCount(bars, bpm) - 1) * d + d == FoldCount(bars, bpm) * d;
    forall i, j | 0 <= i < j ensures FoldAt(i, bpm).testEnd <= FoldAt(j, bpm).testStart {
      MulMonotone(i + 1, j, d);
      assert (i + 1) * d == i * d + d;
    }
  }

  // ------------------------------------------------------------------------- grid

  /** itertools.product: the last list moves fastest. */
  function Product<V>(lists: seq<seq<V>>): seq<seq<V>> {
    if lists == [] then [[]] else Prepend(lists[0], Product(lists[1..]))
  }

  function Prepend<V>(values: seq<V>, rest: seq<seq<V>>): seq<seq<V>> {
    if values == [] then [] else PrependOne(values[0], rest) + Prepend(values[1..], rest)
  }

  function PrependOne<V>(v: V, rest: seq<seq<V>>): (r: seq<seq<V>>)
    ensures |r| == |rest| && forall i :: 0 <= i < |r| ==> r[i] == [v] + rest[i]
  {
    seq(|rest|, i requires 0 <= i < |rest| => [v] + rest[i])
  }

  function Size<V>(lists: seq<seq<V>>): nat {
    if lists == [] then 1 else |lists[0]| * Size(lists[1..])
  }

  lemma {:induction false} PrependSize<V>(values: seq<V>, rest: seq<seq<V>>)
    ensures |Prepend(values, rest)| == |values| * |rest|
  {
    if values != [] {
      PrependSize(values[1..], rest);
      assert |values| * |rest| == (|values| - 1) * |rest| + |rest|;
    }
  }

  lemma {:induction false} PrependMembers<V>(values: seq<V>, rest: seq<seq<V>>, c: seq<V>)
    ensures c in Prepend(values, rest) <==> c != [] && c[0] in values && c[1..] in rest
  {
    if values != [] {
      PrependMembers(values[1..], rest, c);
      var first := PrependOne(values[0], rest);
      if c != [] && c[0] == values[0] && c[1..] in rest {
        var i :| 0 <= i < |rest| && rest[i] == c[1..];
        assert first[i] == c;
      }
      if c in first {
        var i :| 0 <= i < |first| && first[i] == c;
        assert c[1..] == rest[i];
      }
    }
  }

  /** The grid holds exactly the combinations that take one value of every list. */
  lemma {:induction false} ProductIsTheGrid<V>(lists: seq<seq<V>>, c: seq<V>)
    ensures c in Product(lists) <==> |c| == |lists| && forall i :: 0 <= i < |c| ==> c[i] in lists[i]
    ensures |Product(lists)| == Size(lists)
  {
    if lists != [] {
      var rest := Product(lists[1..]);
      PrependSize(lists[0], rest);
      PrependMembers(lists[0], rest, c);
      if c == [] {
        ProductIsTheGrid(lists[1..], c);
      } else {
        ProductIsTheGrid(lists[1..], c[1..]);
        if |c| == |lists| {
          forall i | 0 < i < |c| ensures c[i] == c[1..][i - 1] && lists[i] == lists[1..][i - 1] {
          }
        }
      }
    }
  }

  /** One position in every list. */
  predicate Digits<V>(lists: seq<seq<V>>, d: seq<nat>) {
    |d| == |lists| && forall i :: 0 <= i < |d| ==> d[i] < |lists[i]|
  }

  /** The values at those positions. */
  function Pick<V>(lists: seq<seq<V>>, d: seq<nat>): (c: seq<V>)
    requires Digits(lists, d)
    ensures |c| == |lists| && forall i :: 0 <= i < |c| ==> c[i] == lists[i][d[i]]
  {
    seq(|d|, i requires 0 <= i < |d| => lists[i][d[i]])
  }

  /** The first position that differs decides. */
  predicate Earlier(d: seq<nat>, e: seq<nat>)
    requires |d| == |e|
  {
    d != [] && (d[0] < e[0] || (d[0] == e[0] && Earlier(d[1..], e[1..])))
  }

  /** Where a combination stands in the grid. */
  function Rank<V>(lists: seq<seq<V>>, d: seq<nat>): nat
    requires |d| == |lists|
  {
    if lists == [] then 0 else d[0] * Size(lists[1..]) + Rank(lists[1..], d[1..])
  }

  lemma {:induction false} PrependAt<V>(values: seq<V>, rest: seq<seq<V>>, k: nat, j: nat)
    requires k < |values| && j < |rest|
    ensures 0 <= k * |rest| + j < |Prepend(values, rest)|
    ensures Prepend(values, rest)[k * |rest| + j] == [values[k]] + rest[j]
  {
    PrependSize(values[1..], rest);
    if k > 0 {
      PrependAt(values[1..], rest, k - 1, j);
      assert k * |rest| + j == |rest| + ((k - 1) * |rest| + j);
    }
  }

  lemma {:induction false} DigitsTail<V>(lists: seq<seq<V>>, d: seq<nat>)
    requires lists != [] && Digits(lists, d)
    ensures Digits(lists[1..], d[1..]) && d[0] < |lists[0]|
    ensures Pick(lists, d) == [lists[0][d[0]]] + Pick(lists[1..], d[1..])
  {
    forall i | 0 <= i < |d| - 1 ensures d[1..][i] < |lists[1..][i]| {
      assert d[1..][i] == d[i + 1] && lists[1..][i] == lists[i + 1];
    }
  }

  lemma {:induction false} GridSize<V>(lists: seq<seq<V>>)
    ensures |Product(lists)| == Size(lists)
  {
    if lists != [] {
      GridSize(lists[1..]);
      PrependSize(lists[0], Product(lists[1..]));
    }
  }

  /** The grid lists every combination at its rank. */
  lemma {:induction false} ProductAt<V>(lists: seq<seq<V>>, d: seq<nat>)
    requires Digits(lists, d)
    ensures Rank(lists, d) < |Product(lists)| && Product(lists)[Rank(lists, d)] == Pick(lists, d)
  {
    if lists != [] {
      DigitsTail(lists, d);
      ProductAt(lists[1..], d[1..]);
      GridSize(lists[1..]);
      PrependAt(lists[0], Product(lists[1..]), d[0], Rank(lists[1..], d[1..]));
    }
  }

  lemma {:induction false} RankFits<V>(lists: seq<seq<V>>, d: seq<nat>)
    requires Digits(lists, d)
    ensures Rank(lists, d) < Size(lists)
  {
    ProductAt(lists, d);
    GridSize(lists);
  }

  lemma {:induction false} BlockOrder(a: nat, b: nat, size: nat, x: nat, y: nat)
    requires x < size && y < size
    ensures a < b ==> a * size + x < b * size + y
  {
    if a < b {
      MulMonotone(a + 1, b, size);
      assert (a + 1) * size == a * size + size;
    }
  }

  /** The last list moves fastest: ranks order the combinations by the first position that differs. */
  lemma {:induction false} GridIsOrdered<V>(lists: seq<seq<V>>, d: seq<nat>, e: seq<nat>)
    requires Digits(lists, d) && Digits(lists, e)
    ensures Rank(lists, d) < Rank(lists, e) <==> Earlier(d, e)
  {
    if lists != [] {
      DigitsTail(lists, d);
      DigitsTail(lists, e);
      GridIsOrdered(lists[1..], d[1..], e[1..]);
      RankFits(lists[1..], d[1..]);
      RankFits(lists[1..], e[1..]);
      var size, x, y := Size(lists[1..]), Rank(lists[1..], d[1..]), Rank(lists[1..], e[1..]);
      BlockOrder(d[0], e[0], size, x, y);
      BlockOrder(e[0], d[0], size, y, x);
    }
  }

  /** Every place in the grid is some combination's. */
  lemma {:induction false} RankIsOnto<V>(lists: seq<seq<V>>, r: nat) returns (d: seq<nat>)
    requires r < Size(lists)
    ensures Digits(lists, d) && Rank(lists, d) == r
  {
    if lists == [] {
      d := [];
    } else {
      var size := Size(lists[1..]);
      SizePositive(|lists[0]|, size, r);
      var k, rest := r / size, r % size;
      assert r == k * size + rest;
      BlockIndex(k, |lists[0]|, size, rest);
      var tail := RankIsOnto(lists[1..], rest);
      d := [k] + tail;
      assert d[1..] == tail;
      forall i | 0 <= i < |d| ensures d[i] < |lists[i]| {
        assert i > 0 ==> d[i] == tail[i - 1] && lists[i] == lists[1..][i - 1];
      }
    }
  }

  lemma {:induction false} SizePositive(n: nat, size: nat, r: nat)
    requires r < n * size
    ensures size > 0
  {
  }

  lemma {:induction false} BlockIndex(k: nat, n: nat, size: nat, rest: nat)
    requires k * size + rest < n * size
    ensures k < n
  {
    if n <= k {
      MulMonotone(n, k, size);
    }
  }

  // -------------------------------------------------------------------- selection

  datatype Run = Completed(sharpe: real) | Skipped | Failed

  predicate Eligible(r: Run) {
    r.Completed? && r.sharpe > -999.0
  }

  /** The first of the best completed runs. */
  ghost predicate FirstBest(runs: seq<Run>, i: nat) {
    && i < |runs| && Eligible(runs[i])
    && (forall j :: 0 <= j < i && Eligible(runs[j]) ==> runs[j].sharpe < runs[i].sharpe)
    && (forall j :: i < j < |runs| && Eligible(runs[j]) ==> runs[j].sharpe <= runs[i].sharpe)
  }

  function Best(runs: seq<Run>): (best: Option<nat>)
    ensures best.None? ==> forall j :: 0 <= j < |runs| ==> !Eligible(runs[j])
    ensures best.Some? ==> FirstBest(runs, best.value)
  {
    if runs == [] then None
    else
      var n := |runs| - 1;
      var before := Best(runs[..n]);
      if Eligible(runs[n]) && (before.None? || runs[n].sharpe > runs[before.value].sharpe) then Some(n) else before
  }

  lemma {:induction false} FirstBestIsUnique(runs: seq<Run>, i: nat, j: nat)
    requires FirstBest(runs, i) && FirstBest(runs, j)
    ensures i == j
  {
  }

  /** The running maximum of the script: -999 means nothing found yet. */
  method SelectBest(runs: seq<Run>) returns (best: Option<nat>)
    ensures best == Best(runs)
  {
    var bestSharpe := -999.0;
    best := None;
    for i := 0 to |runs|
      invariant best == Best(runs[..i])
      invariant bestSharpe == if best.Some? then runs[best.value].sharpe else -999.0
    {
      assert runs[..i + 1][..i] == runs[..i];
      if runs[i].Completed? && runs[i].sharpe > bestSharpe {
        bestSharpe := runs[i].sharpe;
        best := Some(i);
      }
    }
    assert runs[..|runs|] == runs;
  }

  /** First bar the inner backtest of a fold reads. */
  function SimStart(fold: Fold, warmup: nat): nat {
    if fold.trainStart - warmup - 200 > 0 then fold.trainStart - warmup - 200 else 0
  }

  /** The runs of all combinations on the bars from SimStart to the end of validation. `backtest`
      is the deterministic engine. */
  function InnerRuns<P, B>(backtest: (P, seq<B>) -> Run, combos: seq<P>, bars: seq<B>, fold: Fold,
                           warmup: nat): (r: seq<Run>)
    requires SimStart(fold, warmup) <= fold.valEnd <= |bars|
    ensures |r| == |combos|
  {
    var window := bars[SimStart(fold, warmup)..fold.valEnd];
    seq(|combos|, i requires 0 <= i < |combos| => backtest(combos[i], window))
  }

  /** The parameters a fold freezes; the first combination when nothing completed. */
  function Chosen<P, B>(backtest: (P, seq<B>) -> Run, combos: seq<P>, bars: seq<B>, fold: Fold, warmup: nat): P
    requires combos != [] && SimStart(fold, warmup) <= fold.valEnd <= |bars|
  {
    var best := Best(InnerRuns(backtest, combos, bars, fold, warmup));
    if best.None? then combos[0] else combos[best.value]
  }

  lemma {:induction false} FoldFits(bars: nat, bpm: nat, k: nat, warmup: nat)
    requires bpm > 0 && k < FoldCount(bars, bpm)
    ensures var f := FoldAt(k, bpm); SimStart(f, warmup) <= f.valEnd <= bars
  {
  }

  /** Phase 1 of `run_fast_wfo`: one frozen choice per fold. */
  method ChooseParameters<P, B>(backtest: (P, seq<B>) -> Run, combos: seq<P>, bars: seq<B>, bpm: nat, warmup: nat)
      returns (folds: seq<Fold>, chosen: seq<P>)
    requires bpm > 0 && combos != []
    ensures |folds| == |chosen| == FoldCount(|bars|, bpm)
    ensures forall k :: 0 <= k < |chosen| ==>
              && folds[k] == FoldAt(k, bpm) && SimStart(folds[k], warmup) <= folds[k].valEnd <= |bars|
              && chosen[k] == Chosen(backtest, combos, bars, folds[k], warmup)
  {
    folds := ComputeFolds(|bars|, bpm);
    chosen := [];
    for k := 0 to |folds|
      invariant |chosen| == k
      invariant forall j :: 0 <= j < k ==>
                  && SimStart(folds[j], warmup) <= folds[j].valEnd <= |bars|
                  && chosen[j] == Chosen(backtest, combos, bars, folds[j], warmup)
    {
      FoldFits(|bars|, bpm, k, warmup);
      var best := SelectBest(InnerRuns(backtest, combos, bars, folds[k], warmup));
      chosen := chosen + [if best.None? then combos[0] else combos[best.value]];
    }
  }

  /** Parameters are frozen before the test window: two tables, of any lengths in which fold k
      exists, that agree before its test start get the same parameters. */
  lemma {:induction false} ParametersAreFrozen<P, B>(backtest: (P, seq<B>) -> Run, combos: seq<P>, a: seq<B>, b: seq<B>,
                                                     bpm: nat, k: nat, warmup: nat)
    requires bpm > 0 && combos != [] && k < FoldCount(|a|, bpm) && k < FoldCount(|b|, bpm)
    requires var f := FoldAt(k, bpm); f.testStart <= |a| && f.testStart <= |b| && a[..f.testStart] == b[..f.testStart]
    ensures var f := FoldAt(k, bpm);
            && SimStart(f, warmup) <= f.valEnd <= |a| && f.valEnd <= |b|
            && Chosen(backtest, combos, a, f, warmup) == Chosen(backtest, combos, b, f, warmup)
  {
  }

  /** Where the inner runs of a fold begin: 200 bars and the warm-up before training, or at the
      first bar. */
  ghost predicate BeginsAt(fold: Fold, warmup: nat, from: nat) {
    from as int >= fold.trainStart - warmup - 200 && (from == 0 || from as int == fold.trainStart - warmup - 200)
  }

  lemma {:induction false} SimBegins(fold: Fold, warmup: nat, from: nat)
    ensures BeginsAt(fold, warmup, from) <==> from == SimStart(fold, warmup)
  {
  }

  /** When no combination completes with a Sharpe ratio above -999 the first one is taken. */
  lemma {:induction false} FirstIsTheFallback<P, B>(backtest: (P, seq<B>) -> Run, combos: seq<P>, bars: seq<B>,
                                                    fold: Fold, warmup: nat, from: nat)
    requires combos != [] && BeginsAt(fold, warmup, from) && from <= fold.valEnd <= |bars|
    requires forall p :: p in combos ==>
               var r := backtest(p, bars[from..fold.valEnd]); !(r.Completed? && r.sharpe > -999.0)
    ensures SimStart(fold, warmup) == from && Chosen(backtest, combos, bars, fold, warmup) == combos[0]
  {
    SimBegins(fold, warmup, from);
    var runs := InnerRuns(backtest, combos, bars, fold, warmup);
    forall i | 0 <= i < |runs| ensures !Eligible(runs[i]) {
      assert combos[i] in combos;
    }
  }

  /** The choice beats or ties every combination that completes, strictly if that one comes earlier in
      the grid. */
  lemma {:induction false} ChoiceIsTheFirstMaximum<P, B>(backtest: (P, seq<B>) -> Run, combos: seq<P>, bars: seq<B>,
                                                         fold: Fold, warmup: nat, from: nat, j: nat)
    requires combos != [] && BeginsAt(fold, warmup, from) && from <= fold.valEnd <= |bars| && j < |combos|
    requires var r := backtest(combos[j], bars[from..fold.valEnd]); r.Completed? && r.sharpe > -999.0
    ensures SimStart(fold, warmup) == from
    ensures var window := bars[from..fold.valEnd];
            exists i :: 0 <= i < |combos| && Chosen(backtest, combos, bars, fold, warmup) == combos[i] &&
                        var mine, theirs := backtest(combos[i], window), backtest(combos[j], window);
                        mine.Completed? && mine.sharpe >= theirs.sharpe && (j < i ==> mine.sharpe > theirs.sharpe)
  {
    SimBegins(fold, warmup, from);
    var runs := InnerRuns(backtest, combos, bars, fold, warmup);
    var best := Best(runs);
    assert Eligible(runs[j]);
    assert Chosen(backtest, combos, bars, fold, warmup) == combos[best.value];
  }

  /** Over the grid of parameter lists: the choice beats or ties every combination that completes,
      strictly if that one comes earlier, the last list moving fastest. */
  lemma {:induction false} GridChoiceIsTheFirstMaximum<V, B>(backtest: (seq<V>, seq<B>) -> Run, lists: seq<seq<V>>,
                                                             bars: seq<B>, fold: Fold, warmup: nat,
                                                             from: nat, e: seq<nat>)
    requires BeginsAt(fold, warmup, from) && from <= fold.valEnd <= |bars| && Digits(lists, e)
    requires var r := backtest(Pick(lists, e), bars[from..fold.valEnd]); r.Completed? && r.sharpe > -999.0
    ensures Product(lists) != [] && SimStart(fold, warmup) == from
    ensures exists d :: ChosenAt(backtest, lists, bars, fold, warmup, d) &&
                        var window := bars[from..fold.valEnd];
                        var mine, theirs := backtest(Pick(lists, d), window), backtest(Pick(lists, e), window);
                        && mine.Completed? && mine.sharpe >= theirs.sharpe
                        && (Earlier(e, d) ==> mine.sharpe > theirs.sharpe)
  {
    var combos, j := Product(lists), Rank(lists, e);
    ProductAt(lists, e);
    GridSize(lists);
    SimBegins(fold, warmup, from);
    ChoiceIsTheFirstMaximum(backtest, combos, bars, fold, warmup, from, j);
    var window := bars[from..fold.valEnd];
    var i :| 0 <= i < |combos| && Chosen(backtest, combos, bars, fold, warmup) == combos[i] &&
             var mine, theirs := backtest(combos[i], window), backtest(combos[j], window);
             mine.Completed? && mine.sharpe >= theirs.sharpe && (j < i ==> mine.sharpe > theirs.sharpe);
    var d := RankIsOnto(lists, i);
    ProductAt(lists, d);
    GridIsOrdered(lists, e, d);
    assert ChosenAt(backtest, lists, bars, fold, warmup, d);
  }

  /** The fold freezes the combination at these positions. */
  ghost predicate ChosenAt<V, B>(backtest: (seq<V>, seq<B>) -> Run, lists: seq<seq<V>>, bars: seq<B>, fold: Fold,
                                 warmup: nat, d: seq<nat>)
    requires SimStart(fold, warmup) <= fold.valEnd <= |bars|
  {
    && Digits(lists, d) && Product(lists) != []
    && Chosen(backtest, Product(lists), bars, fold, warmup) == Pick(lists, d)
  }
}
