/** Fail-closed candle validation. */
module CandleIntake {
  // Fail-closed candle intake: validation of live hourly bars and the polling loop of
  // `scripts/live_data_pipeline.py`, in live mode with the 1h timeframe.

  import opened Wrappers

  const HOUR_MS := 3600000
  const MAX_LAG_MS := 5400000

  type Symbol = string

  /** A price or volume; None when it is not finite. */
  type Number = Option<real>

  /** One bar as the exchange returns it. */
  datatype RawBar =
    | Malformed
    | NonNumeric
    | Bar(ts: int, open: Number, high: Number, low: Number, close: Number, volume: Number)

  datatype Candle = Candle(ts: int, open: real, high: real, low: real, close: real, volume: real)

  datatype TrustError =
    | MalformedBar(index: nat)
    | NonNumericBar(index: nat)
    | InvalidPrice(index: nat)
    | InvalidVolume(index: nat)
    | InconsistentRange(index: nat)
    | Unordered
    | Gap
    | Stale
    | Insufficient

  predicate Positive(x: Number) {
    x.Some? && x.value > 0.0
  }

  function Max3(a: real, b: real, c: real): real {
    var m := if a >= b then a else b;
    if m >= c then m else c
  }

  function Min3(a: real, b: real, c: real): real {
    var m := if a <= b then a else b;
    if m <= c then m else c
  }

  /** Is the bar still being formed? */
  predicate Forming(b: RawBar, now: int) {
    b.Bar? && b.ts + HOUR_MS > now
  }

  function CheckBar(b: RawBar, index: nat, now: int): Result<Option<Candle>, TrustError> {
    match b
    case Malformed => Err(MalformedBar(index))
    case NonNumeric => Err(NonNumericBar(index))
    case Bar(ts, open, high, low, close, volume) =>
      if Forming(b, now) then Ok(None)
      else if !Positive(open) || !Positive(high) || !Positive(low) || !Positive(close) then Err(InvalidPrice(index))
      else if volume.None? || volume.value < 0.0 then Err(InvalidVolume(index))
      else if high.value < Max3(open.value, low.value, close.value) ||
          low.value > Min3(open.value, high.value, close.value) then
        Err(InconsistentRange(index))
      else Ok(Some(Candle(ts, open.value, high.value, low.value, close.value, volume.value)))
  }

  /** The closed candles, or the first bad bar. */
  function Closed(bars: seq<RawBar>, now: int): Result<seq<Candle>, TrustError> {
    if bars == [] then Ok([])
    else
      var n := |bars| - 1;
      match Closed(bars[..n], now)
      case Err(e) => Err(e)
      case Ok(cs) =>
        match CheckBar(bars[n], n, now)
        case Err(e) => Err(e)
        case Ok(None) => Ok(cs)
        case Ok(Some(c)) => Ok(cs + [c])
  }

  predicate Increasing(cs: seq<Candle>) {
    forall i :: 0 < i < |cs| ==> cs[i - 1].ts < cs[i].ts
  }

  predicate Hourly(cs: seq<Candle>) {
    forall i :: 0 < i < |cs| ==> cs[i].ts - cs[i - 1].ts == HOUR_MS
  }

  function CheckSeries(cs: seq<Candle>, now: int): Result<seq<Candle>, TrustError> {
    if !Increasing(cs) then Err(Unordered)
    else if !Hourly(cs) then Err(Gap)
    else if cs != [] && now - (cs[|cs| - 1].ts + HOUR_MS) > MAX_LAG_MS then Err(Stale)
    else Ok(cs)
  }

  function Validate(bars: seq<RawBar>, now: int): Result<seq<Candle>, TrustError> {
    match Closed(bars, now)
    case Err(e) => Err(e)
    case Ok(cs) => CheckSeries(cs, now)
  }

  /** `validate_live_hourly_bars`. */
  method ValidateLiveHourlyBars(bars: seq<RawBar>, now: int) returns (r: Result<seq<Candle>, TrustError>)
    ensures r == Validate(bars, now)
  {
    var closed: seq<Candle> := [];
    for i := 0 to |bars|
      invariant Closed(bars[..i], now) == Ok(closed)
    {
      assert bars[..i + 1][..i] == bars[..i];
      match CheckBar(bars[i], i, now)
      case Err(e) =>
        FirstErrorStays(bars, now, i + 1);
        return Err(e);
      case Ok(None) =>
      case Ok(Some(c)) => closed := closed + [c];
    }
    assert bars[..|bars|] == bars;
    r := CheckSeries(closed, now);
  }

  lemma {:induction false} FirstErrorStays(bars: seq<RawBar>, now: int, i: nat)
    requires i <= |bars| && Closed(bars[..i], now).Err?
    ensures Closed(bars, now) == Closed(bars[..i], now)
    decreases |bars| - i
  {
    if i < |bars| {
      assert bars[..i + 1][..i] == bars[..i];
      FirstErrorStays(bars, now, i + 1);
    } else {
      assert bars[..i] == bars;
    }
  }

  // ------------------------------------------------------------- what acceptance means

  predicate Sane(c: Candle) {
    && c.open > 0.0 && c.high > 0.0 && c.low > 0.0 && c.close > 0.0 && c.volume >= 0.0
    && c.low <= c.open <= c.high && c.low <= c.close <= c.high
  }

  /** Consecutive closed hours of sane candles, the last one recent. */
  ghost predicate Trustworthy(cs: seq<Candle>, now: int) {
    && (forall i :: 0 <= i < |cs| ==> Sane(cs[i]) && cs[i].ts + 3600000 <= now)
    && (forall i :: 0 < i < |cs| ==> cs[i].ts - cs[i - 1].ts == 3600000)
    && (cs != [] ==> now - cs[|cs| - 1].ts - 3600000 <= 5400000)
  }

  function ToBar(c: Candle): RawBar {
    Bar(c.ts, Some(c.open), Some(c.high), Some(c.low), Some(c.close), Some(c.volume))
  }

  /** The bars are the candles, in order, with forming bars in between. */
  ghost predicate ClosedPart(bars: seq<RawBar>, now: int, cs: seq<Candle>) {
    if bars == [] then cs == []
    else
      var n := |bars| - 1;
      if Forming(bars[n], now) then ClosedPart(bars[..n], now, cs)
      else cs != [] && bars[n] == ToBar(cs[|cs| - 1]) && ClosedPart(bars[..n], now, cs[..|cs| - 1])
  }

  lemma {:induction false} ClosedIsTheClosedPart(bars: seq<RawBar>, now: int, cs: seq<Candle>)
    ensures Closed(bars, now) == Ok(cs) <==>
            ClosedPart(bars, now, cs) && forall i :: 0 <= i < |cs| ==> Sane(cs[i]) && cs[i].ts + HOUR_MS <= now
  {
    if bars != [] {
      var n := |bars| - 1;
      if Forming(bars[n], now) {
        ClosedIsTheClosedPart(bars[..n], now, cs);
      } else if cs != [] {
        var front, c := cs[..|cs| - 1], cs[|cs| - 1];
        ClosedIsTheClosedPart(bars[..n], now, front);
        OneBar(bars[n], n, now, c);
        assert cs == front + [c];
        if Closed(bars, now) == Ok(cs) {
          assert Closed(bars[..n], now).value + [CheckBar(bars[n], n, now).value.value] == front + [c];
          assert Closed(bars[..n], now).value == front;
        }
      }
    }
  }

  lemma {:induction false} OneBar(b: RawBar, n: nat, now: int, c: Candle)
    requires !Forming(b, now)
    ensures CheckBar(b, n, now) == Ok(Some(c)) <==> b == ToBar(c) && Sane(c) && c.ts + HOUR_MS <= now
    ensures CheckBar(b, n, now) != Ok(None)
  {
  }

  /** Validation accepts exactly the lists whose closed part can be trusted, and returns it. */
  lemma {:induction false} ValidationIsExact(bars: seq<RawBar>, now: int, cs: seq<Candle>)
    ensures Validate(bars, now) == Ok(cs) <==> ClosedPart(bars, now, cs) && Trustworthy(cs, now)
  {
    ClosedIsTheClosedPart(bars, now, cs);
    if Hourly(cs) {
      HourlyIsIncreasing(cs);
    }
  }

  lemma {:induction false} HourlyIsIncreasing(cs: seq<Candle>)
    requires Hourly(cs)
    ensures Increasing(cs)
  {
  }

  // ---------------------------------------------------------------- what rejection means

  /** What is wrong with one bar; a bar still being formed is never wrong. */
  ghost predicate BadBar(b: RawBar, index: nat, now: int, e: TrustError) {
    match b
    case Malformed => e == MalformedBar(index)
    case NonNumeric => e == NonNumericBar(index)
    case Bar(ts, open, high, low, close, volume) =>
      var priced := open.Some? && high.Some? && low.Some? && close.Some? &&
                    open.value > 0.0 && high.value > 0.0 && low.value > 0.0 && close.value > 0.0;
      var traded := volume.Some? && volume.value >= 0.0;
      && ts + 3600000 <= now
      && if !priced then e == InvalidPrice(index)
         else if !traded then e == InvalidVolume(index)
         else
           && e == InconsistentRange(index)
           && !(low.value <= open.value <= high.value && low.value <= close.value <= high.value)
  }

  /** The bars are refused exactly for their first bad bar, or, when no bar is bad, for candles out of
      order, then for a gap, then for being old. */
  ghost predicate Refused(bars: seq<RawBar>, now: int, e: TrustError) {
    || (exists i :: 0 <= i < |bars| && BadBar(bars[i], i, now, e) && AllGood(bars[..i], now))
    || (exists cs :: AllGood(bars, now) && Closed(bars, now) == Ok(cs) && BadSeries(cs, now, e))
  }

  ghost predicate AllGood(bars: seq<RawBar>, now: int) {
    forall i, e :: 0 <= i < |bars| ==> !BadBar(bars[i], i, now, e)
  }

  ghost predicate BadSeries(cs: seq<Candle>, now: int, e: TrustError) {
    if exists i, j :: 0 <= i < j < |cs| && cs[i].ts >= cs[j].ts then e == Unordered
    else if exists i :: 0 < i < |cs| && cs[i].ts - cs[i - 1].ts != 3600000 then e == Gap
    else e == Stale && cs != [] && now - cs[|cs| - 1].ts - 3600000 > 5400000
  }

  lemma {:induction false} BarIsBad(b: RawBar, index: nat, now: int, e: TrustError)
    ensures CheckBar(b, index, now) == Err(e) <==> BadBar(b, index, now, e)
  {
  }

  lemma {:induction false} ClosedFails(bars: seq<RawBar>, now: int, e: TrustError)
    ensures Closed(bars, now) == Err(e) <==>
            exists i :: 0 <= i < |bars| && BadBar(bars[i], i, now, e) && AllGood(bars[..i], now)
    ensures Closed(bars, now).Ok? <==> AllGood(bars, now)
  {
    hide BadBar, CheckBar, AllGood;
    if bars == [] {
      NoBars(now);
    } else {
      var n := |bars| - 1;
      ClosedFails(bars[..n], now, e);
      AllGoodSnoc(bars[..n], bars[n], now);
      assert bars[..n] + [bars[n]] == bars;
      forall x ensures CheckBar(bars[n], n, now) == Err(x) <==> BadBar(bars[n], n, now, x) {
        BarIsBad(bars[n], n, now, x);
      }
      forall i | 0 <= i < n ensures bars[..n][..i] == bars[..i] && bars[..n][i] == bars[i] {
      }
      FirstBad(bars, now, e);
    }
  }

  lemma {:induction false} NoBars(now: int)
    ensures AllGood([], now)
  {
  }

  lemma {:induction false} AllGoodSnoc(bars: seq<RawBar>, b: RawBar, now: int)
    ensures AllGood(bars + [b], now) <==> AllGood(bars, now) && forall e :: !BadBar(b, |bars|, now, e)
  {
    var more := bars + [b];
    assert forall i :: 0 <= i < |bars| ==> more[i] == bars[i];
    assert more[|bars|] == b;
  }

  /** The first bad bar is among the front bars, or it is the last. */
  lemma {:induction false} FirstBad(bars: seq<RawBar>, now: int, e: TrustError)
    requires bars != []
    ensures var n := |bars| - 1;
            (exists i :: 0 <= i < |bars| && BadBar(bars[i], i, now, e) && AllGood(bars[..i], now)) <==>
            (exists i :: 0 <= i < n && BadBar(bars[..n][i], i, now, e) && AllGood(bars[..n][..i], now)) ||
            (BadBar(bars[n], n, now, e) && AllGood(bars[..n], now))
  {
    hide BadBar, AllGood;
    var n := |bars| - 1;
    forall i | 0 <= i < n ensures bars[..n][..i] == bars[..i] && bars[..n][i] == bars[i] {
    }
  }

  /** Bars are refused exactly for the first bad one, or, when none is bad, for what is wrong with the
      closed candles together. */
  lemma {:induction false} RejectionIsExact(bars: seq<RawBar>, now: int, e: TrustError)
    ensures Validate(bars, now) == Err(e) <==> Refused(bars, now, e)
  {
    hide BadBar, CheckBar, AllGood;
    ClosedFails(bars, now, e);
    if Closed(bars, now).Ok? {
      hide Closed;
      SeriesIsBad(Closed(bars, now).value, now, e);
    }
  }

  lemma {:induction false} IncreasingIsOrdered(cs: seq<Candle>, i: nat, j: nat)
    requires Increasing(cs) && i < j < |cs|
    ensures cs[i].ts < cs[j].ts
  {
    if i + 1 < j {
      IncreasingIsOrdered(cs, i, j - 1);
    }
  }

  lemma {:induction false} SeriesIsBad(cs: seq<Candle>, now: int, e: TrustError)
    ensures CheckSeries(cs, now) == Err(e) <==> BadSeries(cs, now, e)
  {
    if Increasing(cs) {
      forall i, j | 0 <= i < j < |cs| ensures cs[i].ts < cs[j].ts {
        IncreasingIsOrdered(cs, i, j);
      }
    } else {
      var i :| 0 < i < |cs| && cs[i - 1].ts >= cs[i].ts;
    }
  }
}
