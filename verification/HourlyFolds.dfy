/** Gapless hourly folds. */
module HourlyFolds {
  // The fold ranges and the hourly coverage check of `scripts/generate_live_strategy_evidence.py`.
  // Instants are counted in microseconds, as datetimes are.

  import opened Arithmetic
  import opened Wrappers

  const HOUR := 3600000000
  const DAY := 24 * HOUR

  datatype Range = Range(start: int, end: int)

  datatype Error =
    | TooFewFolds
    | FoldTooShort
    | MissingColumns(names: set<string>)
    | DuplicateTimestamps
    | EmptyData
    | NonFiniteValues
    | NegativeVolume
    | BadFold(index: nat)

  /** `count` adjoining folds of `days` days that end one hour after the latest candle. */
  function FoldRanges(latest: int, count: int, days: int): Result<seq<Range>, Error> {
    if count < 6 then Err(TooFewFolds)
    else if days < 90 then Err(FoldTooShort)
    else
      var start := latest + HOUR - count * days * DAY;
      Ok(seq(count, i => Range(start + i * days * DAY, start + (i + 1) * days * DAY)))
  }

  // ------------------------------------------------------------------- one fold

  /** `expected_bars`: truncation of a non-negative length. */
  function ExpectedBars(r: Range): nat
    requires r.start <= r.end
  {
    (r.end - r.start) / HOUR
  }

  predicate ValidFold(ts: seq<int>, r: Range)
    requires r.start <= r.end
  {
    && |ts| == ExpectedBars(r)
    && ts != [] && ts[0] == r.start && ts[|ts| - 1] == r.end - HOUR
    && forall i :: 0 < i < |ts| ==> ts[i] - ts[i - 1] == HOUR
  }

  /** n rows, one an hour. */
  function HourGrid(start: int, n: nat): (g: seq<int>)
    ensures |g| == n && forall i :: 0 <= i < n ==> g[i] == start + i * HOUR
  {
    seq(n, i => start + i * HOUR)
  }

  lemma {:induction false} HourlyIsGrid(ts: seq<int>, start: int, i: nat)
    requires i < |ts| && ts[0] == start && forall j :: 0 < j < |ts| ==> ts[j] - ts[j - 1] == HOUR
    ensures ts[i] == start + i * HOUR
  {
    if i > 0 {
      HourlyIsGrid(ts, start, i - 1);
    }
  }

  /** A fold of whole hours passes exactly when it is the full hourly grid. */
  lemma {:induction false} FoldPassesIffFull(ts: seq<int>, r: Range, n: nat)
    requires n > 0 && r.end == r.start + n * HOUR
    ensures ValidFold(ts, r) <==> ts == HourGrid(r.start, n)
  {
    assert ExpectedBars(r) == n;
    if ValidFold(ts, r) {
      forall i | 0 <= i < n ensures ts[i] == HourGrid(r.start, n)[i] {
        HourlyIsGrid(ts, r.start, i);
      }
    }
  }

  // ------------------------------------------------------------------- filtering

  function Filter(ts: seq<int>, r: Range): seq<int> {
    if ts == [] then []
    else if r.start <= ts[|ts| - 1] < r.end then Filter(ts[..|ts| - 1], r) + [ts[|ts| - 1]]
    else Filter(ts[..|ts| - 1], r)
  }

  ghost predicate Sorted(ts: seq<int>) {
    forall i, j :: 0 <= i < j < |ts| ==> ts[i] < ts[j]
  }

  /** Adjoining ranges split the rows between them. */
  lemma {:induction false} FilterSplits(ts: seq<int>, a: int, b: int, c: int)
    requires Sorted(ts) && a <= b <= c
    ensures Filter(ts, Range(a, c)) == Filter(ts, Range(a, b)) + Filter(ts, Range(b, c))
  {
    if ts != [] {
      var front, x := ts[..|ts| - 1], ts[|ts| - 1];
      FilterSplits(front, a, b, c);
      if a <= x < b {
        NoneAbove(front, b, c, x);
      }
    }
  }

  lemma {:induction false} NoneAbove(ts: seq<int>, b: int, c: int, x: int)
    requires x < b && forall i :: 0 <= i < |ts| ==> ts[i] < x
    ensures Filter(ts, Range(b, c)) == []
  {
    if ts != [] {
      NoneAbove(ts[..|ts| - 1], b, c, x);
    }
  }

  /** Narrowing a filter in two steps is narrowing it at once. */
  lemma {:induction false} FilterNarrows(ts: seq<int>, outer: Range, inner: Range)
    requires outer.start <= inner.start && inner.end <= outer.end
    ensures Filter(Filter(ts, outer), inner) == Filter(ts, inner)
  {
    if ts != [] {
      var front, x := ts[..|ts| - 1], ts[|ts| - 1];
      FilterNarrows(front, outer, inner);
      if outer.start <= x < outer.end {
        assert Filter(ts, outer)[..|Filter(ts, outer)| - 1] == Filter(front, outer);
      }
    }
  }

  lemma {:induction false} FilterAll(ts: seq<int>, r: Range)
    requires forall i :: 0 <= i < |ts| ==> r.start <= ts[i] < r.end
    ensures Filter(ts, r) == ts
  {
    if ts != [] {
      FilterAll(ts[..|ts| - 1], r);
    }
  }

  lemma {:induction false} FilterNone(ts: seq<int>, r: Range)
    requires forall i :: 0 <= i < |ts| ==> !(r.start <= ts[i] < r.end)
    ensures Filter(ts, r) == []
  {
    if ts != [] {
      FilterNone(ts[..|ts| - 1], r);
    }
  }

  lemma {:induction false} FilterAppend(a: seq<int>, b: seq<int>, r: Range)
    ensures Filter(a + b, r) == Filter(a, r) + Filter(b, r)
  {
    if b == [] {
      assert a + b == a;
    } else {
      FilterAppend(a, b[..|b| - 1], r);
      assert (a + b)[..|a + b| - 1] == a + b[..|b| - 1];
    }
  }

  // ------------------------------------------------------------------- all folds

  /** count adjoining ranges of n hours from `start` on. */
  function Chain(start: int, n: nat, count: nat): (r: seq<Range>)
    ensures |r| == count && forall i :: 0 <= i < count ==>
            r[i] == Range(start + i * (n * HOUR), start + (i + 1) * (n * HOUR))
  {
    seq(count, i => Range(start + i * (n * HOUR), start + (i + 1) * (n * HOUR)))
  }

  lemma {:induction false} RangesChain(latest: int, count: int, days: int)
    requires count >= 6 && days >= 90
    ensures FoldRanges(latest, count, days) ==
            Ok(Chain(latest + HOUR - count * days * DAY, 24 * days, count))
  {
    var start := latest + HOUR - count * days * DAY;
    var ranges, chain := FoldRanges(latest, count, days).value, Chain(start, 24 * days, count);
    forall i | 0 <= i < count ensures ranges[i] == chain[i] {
      Reassociate(i, days);
      Reassociate(i + 1, days);
    }
    assert ranges == chain;
  }

  lemma {:induction false} Reassociate(i: int, days: int)
    ensures i * days * DAY == i * ((24 * days) * HOUR)
  {
    assert (24 * days) * HOUR == days * DAY;
    assert i * days * DAY == i * (days * DAY);
  }

  predicate AllPass(ts: seq<int>, ranges: seq<Range>)
    requires forall i :: 0 <= i < |ranges| ==> ranges[i].start <= ranges[i].end
  {
    forall i :: 0 <= i < |ranges| ==> ValidFold(Filter(ts, ranges[i]), ranges[i])
  }

  lemma {:induction false} ChainOrdered(start: int, n: nat, count: nat)
    ensures forall i :: 0 <= i < count ==> Chain(start, n, count)[i].start <= Chain(start, n, count)[i].end
  {
    forall i | 0 <= i < count ensures Chain(start, n, count)[i].start <= Chain(start, n, count)[i].end {
      assert (i + 1) * (n * HOUR) == i * (n * HOUR) + n * HOUR;
    }
  }

  lemma {:induction false} GridAppend(start: int, m: nat, n: nat)
    ensures HourGrid(start, m + n) == HourGrid(start, m) + HourGrid(start + m * HOUR, n)
  {
    var second := HourGrid(start + m * HOUR, n);
    forall i | 0 <= i < n ensures HourGrid(start, m + n)[m + i] == second[i] {
      assert (m + i) * HOUR == m * HOUR + i * HOUR;
    }
    assert HourGrid(start, m + n)[..m] == HourGrid(start, m);
    assert HourGrid(start, m + n)[m..] == second;
  }

  /** Every fold passes exactly when the rows in the whole span are the gapless hourly series. */
  lemma {:induction false} FoldsPassIffGapless(ts: seq<int>, start: int, n: nat, count: nat)
    requires Sorted(ts) && n > 0
    requires forall i :: 0 <= i < count ==> Chain(start, n, count)[i].start <= Chain(start, n, count)[i].end
    ensures AllPass(ts, Chain(start, n, count)) <==>
            Filter(ts, Range(start, start + count * (n * HOUR))) == HourGrid(start, count * n)
  {
    hide Filter, ValidFold, HourGrid;
    if count == 0 {
      FilterNothing(ts, start);
    } else {
      var end := start + (count - 1) * (n * HOUR);
      var last := Range(end, end + n * HOUR);
      ChainOrdered(start, n, count - 1);
      ChainSnoc(start, n, count);
      FoldsPassIffGapless(ts, start, n, count - 1);
      AllPassSnoc(ts, Chain(start, n, count - 1), last);
      FoldPassesIffFull(Filter(ts, last), last, n);
      Widths(n, count);
      SplitGrid(ts, start, end, last.end, (count - 1) * n, n);
    }
  }

  lemma {:induction false} FilterNothing(ts: seq<int>, start: int)
    ensures Filter(ts, Range(start, start)) == HourGrid(start, 0)
  {
    FilterNone(ts, Range(start, start));
  }

  lemma {:induction false} Widths(n: nat, count: nat)
    requires count > 0
    ensures count * (n * HOUR) == (count - 1) * (n * HOUR) + n * HOUR
    ensures (count - 1) * (n * HOUR) == ((count - 1) * n) * HOUR >= 0
    ensures count * n == (count - 1) * n + n
  {
    OneMoreWidth(count, n * HOUR);
    OneMoreWidth(count, n);
    IntMulAssoc(count - 1, n, HOUR);
    MulMonotone(0, count - 1, n * HOUR);
  }

  lemma {:induction false} OneMoreWidth(count: int, width: int)
    ensures count * width == (count - 1) * width + width
  {
  }

  lemma {:induction false} ChainSnoc(start: int, n: nat, count: nat)
    requires count > 0
    ensures var end := start + (count - 1) * (n * HOUR);
            Chain(start, n, count) == Chain(start, n, count - 1) + [Range(end, end + n * HOUR)]
  {
    assert count * (n * HOUR) == (count - 1) * (n * HOUR) + n * HOUR;
  }

  lemma {:induction false} AllPassSnoc(ts: seq<int>, front: seq<Range>, last: Range)
    requires last.start <= last.end && forall i :: 0 <= i < |front| ==> front[i].start <= front[i].end
    ensures forall i :: 0 <= i < |front + [last]| ==> (front + [last])[i].start <= (front + [last])[i].end
    ensures AllPass(ts, front + [last]) <==> AllPass(ts, front) && ValidFold(Filter(ts, last), last)
  {
    assert (front + [last])[|front|] == last;
    assert forall i :: 0 <= i < |front| ==> (front + [last])[i] == front[i];
  }

  /** The grid over two adjoining ranges splits where the rows do. */
  lemma {:induction false} SplitGrid(ts: seq<int>, a: int, b: int, c: int, m: nat, n: nat)
    requires Sorted(ts) && a <= b <= c && b == a + m * HOUR && c == b + n * HOUR
    ensures Filter(ts, Range(a, c)) == HourGrid(a, m + n) <==>
            Filter(ts, Range(a, b)) == HourGrid(a, m) && Filter(ts, Range(b, c)) == HourGrid(b, n)
  {
    hide Filter, HourGrid, Sorted;
    FilterSplits(ts, a, b, c);
    GridAppend(a, m, n);
    FilterNarrows(ts, Range(a, c), Range(a, b));
    FilterNarrows(ts, Range(a, c), Range(b, c));
    GridParts(a, b, c, m, n);
  }

  lemma {:induction false} GridInside(a: int, n: nat, r: Range)
    requires r.start <= a && a + n * HOUR <= r.end
    ensures Filter(HourGrid(a, n), r) == HourGrid(a, n)
  {
    forall i | 0 <= i < n ensures r.start <= HourGrid(a, n)[i] < r.end {
      MulMonotone(i + 1, n, HOUR);
    }
    FilterAll(HourGrid(a, n), r);
  }

  lemma {:induction false} GridOutside(a: int, n: nat, r: Range)
    requires a + n * HOUR <= r.start || r.end <= a
    ensures Filter(HourGrid(a, n), r) == []
  {
    forall i | 0 <= i < n ensures !(r.start <= HourGrid(a, n)[i] < r.end) {
      MulMonotone(i + 1, n, HOUR);
    }
    FilterNone(HourGrid(a, n), r);
  }

  lemma {:induction false} GridParts(a: int, b: int, c: int, m: nat, n: nat)
    requires b == a + m * HOUR && c == b + n * HOUR
    ensures Filter(HourGrid(a, m + n), Range(a, b)) == HourGrid(a, m)
    ensures Filter(HourGrid(a, m + n), Range(b, c)) == HourGrid(b, n)
  {
    hide Filter;
    GridAppend(a, m, n);
    FilterAppend(HourGrid(a, m), HourGrid(b, n), Range(a, b));
    FilterAppend(HourGrid(a, m), HourGrid(b, n), Range(b, c));
    GridInside(a, m, Range(a, b));
    GridOutside(b, n, Range(a, b));
    GridOutside(a, m, Range(b, c));
    GridInside(b, n, Range(b, c));
  }

  /** Fewer than six folds are refused first, then folds under ninety days; otherwise the folds adjoin,
      take `days` days each, and end one hour after the latest candle. */
  lemma {:induction false} FoldRangesIsExact(latest: int, count: int, days: int)
    ensures var r := FoldRanges(latest, count, days);
            && (r == Err(TooFewFolds) <==> count <= 5)
            && (r == Err(FoldTooShort) <==> count >= 6 && days <= 89)
            && (r.Ok? <==> count >= 6 && days >= 90)
            && (r.Ok? ==>
                  && |r.value| == count && r.value[count - 1].end == latest + 3600000000
                  && (forall i :: 0 <= i < count ==> r.value[i].end - r.value[i].start == days * 86400000000)
                  && (forall i :: 0 < i < count ==> r.value[i].start == r.value[i - 1].end))
  {
    if count >= 6 && days >= 90 {
      var width := days * DAY;
      forall i ensures i * days * DAY == i * width && (i + 1) * days * DAY == i * width + width {
        IntMulAssoc(i, days, DAY);
        IntMulAssoc(i + 1, days, DAY);
      }
    }
  }

  /** The folds of `fold_ranges` all pass exactly when the data holds every hour of the span once
      and nothing else in it. */
  lemma {:induction false} AcceptedDataIsGapless(ts: seq<int>, latest: int, count: int, days: int)
    requires Sorted(ts) && count >= 6 && days >= 90
    ensures FoldRanges(latest, count, days).Ok?
    ensures var ranges := FoldRanges(latest, count, days).value;
            var end := latest + HOUR;
            var start := end - count * (24 * days * HOUR);
            && (forall i :: 0 <= i < |ranges| ==> ranges[i].start <= ranges[i].end)
            && (AllPass(ts, ranges) <==> Filter(ts, Range(start, end)) == HourGrid(start, count * (24 * days)))
  {
    Reassociate(count, days);
    RangesChain(latest, count, days);
    var start := latest + HOUR - count * days * DAY;
    ChainOrdered(start, 24 * days, count);
    FoldsPassIffGapless(ts, start, 24 * days, count);
  }

  /** Each row of the span lies in exactly one fold. */
  lemma {:induction false} EachRowIsInOneFold(start: int, n: nat, count: nat, x: int)
    requires n > 0 && start <= x < start + count * (n * HOUR)
    ensures exists k :: 0 <= k < count && Chain(start, n, count)[k].start <= x < Chain(start, n, count)[k].end
    ensures forall j, k :: 0 <= j < k < count ==> Chain(start, n, count)[j].end <= Chain(start, n, count)[k].start
  {
    forall j, k | 0 <= j < k < count ensures Chain(start, n, count)[j].end <= Chain(start, n, count)[k].start {
      MulMonotone(j + 1, k, n * HOUR);
    }
    var k := BlockOf(x - start, n * HOUR, count);
    assert Chain(start, n, count)[k].start <= x < Chain(start, n, count)[k].end;
  }

  /** Which of `count` blocks of length d holds an offset. */
  lemma {:induction false} BlockOf(offset: nat, d: nat, count: nat) returns (k: nat)
    requires d > 0 && offset < count * d
    ensures k < count && k * d <= offset < (k + 1) * d
  {
    k := offset / d;
    OneMoreWidth(k + 1, d);
    assert k * d <= offset < k * d + d;
    if k >= count {
      MulMonotone(count, k, d);
    }
  }

  // ------------------------------------------------------------- the evaluating loop

  /** The timestamps in order. */
  function InsertRow(ts: seq<int>, x: int): seq<int> {
    if ts == [] || ts[|ts| - 1] <= x then ts + [x] else InsertRow(ts[..|ts| - 1], x) + [ts[|ts| - 1]]
  }

  function SortRows(ts: seq<int>): seq<int> {
    if ts == [] then [] else InsertRow(SortRows(ts[..|ts| - 1]), ts[|ts| - 1])
  }

  lemma {:induction false} InsertRowMembers(ts: seq<int>, x: int)
    ensures multiset(InsertRow(ts, x)) == multiset(ts) + multiset{x}
  {
    if ts != [] && ts[|ts| - 1] > x {
      InsertRowMembers(ts[..|ts| - 1], x);
      assert ts == ts[..|ts| - 1] + [ts[|ts| - 1]];
    }
  }

  lemma {:induction false} InsertRowSorts(ts: seq<int>, x: int)
    requires Sorted(ts) && x !in ts
    ensures Sorted(InsertRow(ts, x))
  {
    if ts != [] {
      var front, last := ts[..|ts| - 1], ts[|ts| - 1];
      assert last in ts;
      if last > x {
        InsertRowSorts(front, x);
        InsertRowMembers(front, x);
        var r := InsertRow(front, x);
        forall i | 0 <= i < |r| ensures r[i] < last {
          assert r[i] in multiset(r);
          assert r[i] == x || r[i] in multiset(front);
        }
      }
    }
  }

  predicate Distinct(ts: seq<int>) {
    forall i, j :: 0 <= i < j < |ts| ==> ts[i] != ts[j]
  }

  lemma {:induction false} DistinctFront(front: seq<int>, x: int)
    requires Distinct(front + [x])
    ensures Distinct(front) && x !in front
  {
    var ts := front + [x];
    forall i | 0 <= i < |front| ensures front[i] != x {
      assert ts[i] == front[i] && ts[|front|] == x;
    }
    forall i, j | 0 <= i < j < |front| ensures front[i] != front[j] {
      assert ts[i] == front[i] && ts[j] == front[j];
    }
  }

  lemma {:induction false} SameMembers(a: seq<int>, b: seq<int>, x: int)
    requires multiset(a) == multiset(b)
    ensures x in a <==> x in b
  {
    assert x in a <==> x in multiset(a);
    assert x in b <==> x in multiset(b);
  }

  lemma {:induction false} SortRowsSorts(ts: seq<int>)
    requires Distinct(ts)
    ensures Sorted(SortRows(ts)) && multiset(SortRows(ts)) == multiset(ts)
  {
    if ts != [] {
      var front, x := ts[..|ts| - 1], ts[|ts| - 1];
      assert ts == front + [x];
      DistinctFront(front, x);
      SortRowsSorts(front);
      hide Distinct, Sorted, InsertRow;
      InsertRowMembers(SortRows(front), x);
      SameMembers(SortRows(front), front, x);
      InsertRowSorts(SortRows(front), x);
    }
  }

  /** A number of the data frame; a null passes the checks on numbers. */
  datatype Cell = Finite(value: real) | NotFinite | Null

  datatype Bar = Bar(ts: int, open: Cell, high: Cell, low: Cell, close: Cell, volume: Cell)

  datatype Frame = Frame(columns: set<string>, bars: seq<Bar>)

  const REQUIRED := {"timestamp", "open", "high", "low", "close", "volume"}

  function Timestamps(bars: seq<Bar>): (ts: seq<int>)
    ensures |ts| == |bars| && forall i :: 0 <= i < |ts| ==> ts[i] == bars[i].ts
  {
    seq(|bars|, i requires 0 <= i < |bars| => bars[i].ts)
  }

  predicate AllFinite(b: Bar) {
    !b.open.NotFinite? && !b.high.NotFinite? && !b.low.NotFinite? && !b.close.NotFinite? && !b.volume.NotFinite?
  }

  predicate Negative(c: Cell) {
    c.Finite? && c.value < 0.0
  }

  /** Data that the folds are cut from. */
  ghost predicate Usable(frame: Frame) {
    && Complete(frame.columns) && Distinct(Timestamps(frame.bars)) && frame.bars != []
    && forall i :: 0 <= i < |frame.bars| ==> Regular(frame.bars[i]) && Traded(frame.bars[i].volume)
  }

  /** No number is infinite or not a number; null passes. */
  predicate Regular(b: Bar) {
    forall c :: c in [b.open, b.high, b.low, b.close, b.volume] ==> c != NotFinite
  }

  predicate Traded(volume: Cell) {
    match volume
    case Finite(v) => v >= 0.0
    case _ => true
  }

  lemma {:induction false} FilterMembers(ts: seq<int>, r: Range)
    ensures forall x :: x in Filter(ts, r) <==> x in ts && r.start <= x < r.end
  {
    if ts != [] {
      FilterMembers(ts[..|ts| - 1], r);
      assert ts == ts[..|ts| - 1] + [ts[|ts| - 1]];
    }
  }

  lemma {:induction false} FilterSorts(ts: seq<int>, r: Range)
    requires Sorted(ts)
    ensures Sorted(Filter(ts, r))
  {
    if ts != [] {
      var front, x := ts[..|ts| - 1], ts[|ts| - 1];
      FilterSorts(front, r);
      FilterMembers(front, r);
      var kept := Filter(front, r);
      forall i | 0 <= i < |kept| ensures kept[i] < x {
        assert kept[i] in kept;
      }
    }
  }

  lemma {:induction false} LastIsGone(ts: seq<int>)
    requires Sorted(ts) && ts != []
    ensures forall x :: x in ts[..|ts| - 1] <==> x in ts && x != ts[|ts| - 1]
  {
    var n := |ts| - 1;
    forall x | x in ts && x != ts[n] ensures x in ts[..n] {
      var i :| 0 <= i < |ts| && ts[i] == x;
      assert ts[..n][i] == x;
    }
  }

  /** An ordered list is determined by its members. */
  lemma {:induction false} SortedIsUnique(a: seq<int>, b: seq<int>)
    requires Sorted(a) && Sorted(b) && forall x :: x in a <==> x in b
    ensures a == b
  {
    if b != [] {
      assert b[0] in b && b[0] in a;
    }
    if a != [] {
      var x := a[|a| - 1];
      assert x in b && b[|b| - 1] in a;
      assert b[|b| - 1] == x;
      LastIsGone(a);
      LastIsGone(b);
      var p, q := a[..|a| - 1], b[..|b| - 1];
      forall y ensures y in p <==> y in q {
        assert y in p <==> y in a && y != x;
        assert y in q <==> y in b && y != x;
      }
      SortedIsUnique(p, q);
      assert a == p + [x] && b == q + [x];
    }
  }

  lemma {:induction false} GridMembers(start: int, n: nat)
    ensures Sorted(HourGrid(start, n))
    ensures forall x :: x in HourGrid(start, n) <==> start <= x < start + n * HOUR && (x - start) % HOUR == 0
  {
    var g := HourGrid(start, n);
    forall x | start <= x < start + n * HOUR && (x - start) % HOUR == 0 ensures x in g {
      var i := BlockOf(x - start, HOUR, n);
      assert g[i] == x;
    }
    forall x | x in g ensures start <= x < start + n * HOUR && (x - start) % HOUR == 0 {
      var i :| 0 <= i < n && g[i] == x;
      MulMonotone(i + 1, n, HOUR);
    }
  }

  /** Usable data passes all folds exactly when the span of the folds, in order, is the gapless
      hourly series: when just the full hours of the span are among the timestamps. */
  lemma {:induction false} AcceptedFrameIsGapless(frame: Frame, latest: int, count: int, days: int)
    requires Usable(frame) && count >= 6 && days >= 90
    ensures FoldRanges(latest, count, days).Ok?
    ensures var ts, ranges := Timestamps(frame.bars), FoldRanges(latest, count, days).value;
            var end := latest + HOUR;
            var start := end - count * (24 * days * HOUR);
            && (forall i :: 0 <= i < |ranges| ==> ranges[i].start <= ranges[i].end)
            && (AllPass(SortRows(ts), ranges) <==>
                Filter(SortRows(ts), Range(start, end)) == HourGrid(start, count * (24 * days)))
            && end == latest + 3600000000 && start == end - count * (days * (24 * 3600000000))
            && (AllPass(SortRows(ts), ranges) <==>
                forall x :: start <= x < end ==> (x in ts <==> (x - start) % 3600000000 == 0))
  {
    hide Distinct, Filter, HourGrid, SortRows, AllPass, FoldRanges;
    var ts := Timestamps(frame.bars);
    SortRowsSorts(ts);
    AcceptedDataIsGapless(SortRows(ts), latest, count, days);
    SpanIsGrid(ts, latest + HOUR - count * (24 * days * HOUR), count * (24 * days));
    IntMulAssoc(count, 24 * days, HOUR);
  }

  lemma {:induction false} SpanIsGrid(ts: seq<int>, start: int, n: nat)
    requires Sorted(SortRows(ts)) && multiset(SortRows(ts)) == multiset(ts)
    ensures Filter(SortRows(ts), Range(start, start + n * HOUR)) == HourGrid(start, n) <==>
            forall x :: start <= x < start + n * HOUR ==> (x in ts <==> (x - start) % HOUR == 0)
  {
    hide Sorted, Filter, HourGrid, SortRows;
    var span := Filter(SortRows(ts), Range(start, start + n * HOUR));
    FilterMembers(SortRows(ts), Range(start, start + n * HOUR));
    FilterSorts(SortRows(ts), Range(start, start + n * HOUR));
    GridMembers(start, n);
    forall x ensures x in SortRows(ts) <==> x in ts {
      SameMembers(SortRows(ts), ts, x);
    }
    if forall x :: x in span <==> x in HourGrid(start, n) {
      SortedIsUnique(span, HourGrid(start, n));
    }
  }

  /** The checks before the folds: the first that fails. */
  function Complaint(frame: Frame): Option<Error> {
    var bars := frame.bars;
    if !(REQUIRED <= frame.columns) then Some(MissingColumns(REQUIRED - frame.columns))
    else if !Distinct(Timestamps(bars)) then Some(DuplicateTimestamps)
    else if bars == [] then Some(EmptyData)
    else if exists i :: 0 <= i < |bars| && !AllFinite(bars[i]) then Some(NonFiniteValues)
    else if exists i :: 0 <= i < |bars| && Negative(bars[i].volume) then Some(NegativeVolume)
    else None
  }

  lemma {:induction false} CellsAre(b: Bar)
    ensures AllFinite(b) <==> Regular(b)
    ensures Negative(b.volume) <==> !Traded(b.volume)
  {
    var cells := [b.open, b.high, b.low, b.close, b.volume];
    assert cells[0] in cells && cells[1] in cells && cells[2] in cells && cells[3] in cells && cells[4] in cells;
  }

  /** All six columns are there. */
  ghost predicate Complete(columns: set<string>) {
    && "timestamp" in columns && "open" in columns && "high" in columns
    && "low" in columns && "close" in columns && "volume" in columns
  }

  lemma {:induction false} ColumnsAre(columns: set<string>)
    ensures var all := {"timestamp", "open", "high", "low", "close", "volume"};
            && (REQUIRED <= columns <==> Complete(columns))
            && REQUIRED - columns == all - columns && (all - columns != {} <==> !Complete(columns))
  {
    var all := {"timestamp", "open", "high", "low", "close", "volume"};
    assert REQUIRED == all;
    if all - columns != {} {
      var n :| n in all - columns;
    }
    forall n | n in all && n !in columns ensures n in all - columns {
    }
  }

  /** What the data are refused for, before any fold is cut. */
  ghost predicate Refused(frame: Frame, e: Error) {
    var bars := frame.bars;
    match e
    case MissingColumns(names) =>
      names == {"timestamp", "open", "high", "low", "close", "volume"} - frame.columns && names != {}
    case DuplicateTimestamps => Complete(frame.columns) && !Distinct(Timestamps(bars))
    case EmptyData => Complete(frame.columns) && bars == []
    case NonFiniteValues =>
      && Complete(frame.columns) && Distinct(Timestamps(bars))
      && exists i :: 0 <= i < |bars| && !Regular(bars[i])
    case NegativeVolume =>
      && Complete(frame.columns) && Distinct(Timestamps(bars)) && (forall i :: 0 <= i < |bars| ==> Regular(bars[i]))
      && exists i :: 0 <= i < |bars| && !Traded(bars[i].volume)
    case _ => false
  }

  /** No infinite number, and no volume below zero. */
  lemma {:induction false} BarsAre(bars: seq<Bar>)
    ensures (exists i :: 0 <= i < |bars| && !AllFinite(bars[i])) <==> exists i :: 0 <= i < |bars| && !Regular(bars[i])
    ensures (exists i :: 0 <= i < |bars| && Negative(bars[i].volume)) <==>
            exists i :: 0 <= i < |bars| && !Traded(bars[i].volume)
  {
    forall i | 0 <= i < |bars|
      ensures AllFinite(bars[i]) <==> Regular(bars[i])
      ensures Negative(bars[i].volume) <==> !Traded(bars[i].volume)
    {
      CellsAre(bars[i]);
    }
    hide AllFinite, Negative, Regular, Traded;
  }

  lemma {:induction false} ComplaintIs(frame: Frame)
    ensures Complaint(frame).None? <==> Usable(frame)
    ensures Complaint(frame).Some? ==> !Complaint(frame).value.BadFold?
    ensures forall e :: Complaint(frame) == Some(e) <==> Refused(frame, e)
  {
    var bars := frame.bars;
    ColumnsAre(frame.columns);
    BarsAre(bars);
    hide AllFinite, Negative, Regular, Traded, Complete;
    if bars == [] {
      assert Distinct(Timestamps(bars));
    }
    hide Distinct;
    forall e ensures Complaint(frame) == Some(e) <==> Refused(frame, e) {
    }
  }

  /** The checks of `evaluate_symbol` and its loop over the folds: the first bad fold raises. */
  method EvaluateSymbol(frame: Frame, ranges: seq<Range>) returns (r: Result<nat, Error>)
    requires forall i :: 0 <= i < |ranges| ==> ranges[i].start <= ranges[i].end
    ensures r.Ok? <==> Usable(frame) && AllPass(SortRows(Timestamps(frame.bars)), ranges)
    ensures r.Ok? ==> r.value == |ranges|
    ensures r.Err? && !r.error.BadFold? ==> Refused(frame, r.error)
    ensures forall e :: Refused(frame, e) ==> r == Err(e)
    ensures r.Err? && r.error.BadFold? ==>
              && Usable(frame)
              && var k, ts := r.error.index, SortRows(Timestamps(frame.bars));
                 && k < |ranges| && !ValidFold(Filter(ts, ranges[k]), ranges[k])
                 && forall i :: 0 <= i < k ==> ValidFold(Filter(ts, ranges[i]), ranges[i])
  {
    hide SortRows, Filter, ValidFold, Usable, Refused, Complaint;
    ComplaintIs(frame);
    var complaint := Complaint(frame);
    if complaint.Some? {
      return Err(complaint.value);
    }
    var ordered := SortRows(Timestamps(frame.bars));
    for i := 0 to |ranges|
      invariant forall j :: 0 <= j < i ==> ValidFold(Filter(ordered, ranges[j]), ranges[j])
    {
      if !ValidFold(Filter(ordered, ranges[i]), ranges[i]) {
        return Err(BadFold(i));
      }
    }
    return Ok(|ranges|);
  }
}
