/** Four equity curves of one trading loop. */
module EquityCurves {
  // The scripts mark the position at different opens and close it in different ways.

  import opened Arithmetic
  import opened LongOnly

  /** Cash plus the position at a price. */
  function MarkAt(b: Book, price: real): real {
    b.cash + if b.qty > 0.0 then b.qty * price else 0.0
  }

  /** The loops that run over every bar trade on all but the last. */
  function Traded(n: nat, i: nat): nat {
    if i + 1 < n then i + 1 else i
  }

  ghost predicate FullMarket(signals: seq<int>, opens: seq<real>, bf: real) {
    Market(signals, opens, bf) && |opens| <= |signals|
  }

  // --------------------------------------------------------------- evidence_ac14

  /** Factors of the oracle: a quarter of the spread, the slippage and the commission on each side. */
  function OracleBuy(commission: real, slippage: real, spreadBps: real): real {
    1.0 + spreadBps / 20000.0 / 2.0 + slippage + commission
  }

  function OracleSell(commission: real, slippage: real, spreadBps: real): real {
    1.0 - spreadBps / 20000.0 / 2.0 - slippage - commission
  }

  ghost predicate OracleCurve(signals: seq<int>, opens: seq<real>, bf: real, sf: real, initial: real, curve: seq<real>,
                              n: nat)
    requires FullMarket(signals, opens, bf) && n <= |opens|
  {
    n <= |curve| && forall i :: 0 <= i < n ==>
      curve[i] == MarkAt(Walk(signals, opens, bf, sf, initial, Traded(|opens|, i)), opens[i])
  }

  /** Marks, among the first i, with a position. */
  ghost function Exposure(signals: seq<int>, opens: seq<real>, bf: real, sf: real, initial: real, i: nat): nat
    requires FullMarket(signals, opens, bf) && i <= |opens|
  {
    if i == 0 then 0
    else if Walk(signals, opens, bf, sf, initial, Traded(|opens|, i - 1)).qty > 0.0 then
      Exposure(signals, opens, bf, sf, initial, i - 1) + 1
    else Exposure(signals, opens, bf, sf, initial, i - 1)
  }

  /** Positive signals among the first m. */
  function Positives(signals: seq<int>, m: nat): nat
    requires m <= |signals|
  {
    if m == 0 then 0 else if signals[m - 1] > 0 then Positives(signals, m - 1) + 1 else Positives(signals, m - 1)
  }

  lemma {:induction false} ExposureSoFar(signals: seq<int>, opens: seq<real>, bf: real, sf: real, initial: real, i: nat)
    requires FullMarket(signals, opens, bf) && i < |opens| && sf > 0.0 && initial > 0.0
    ensures Exposure(signals, opens, bf, sf, initial, i) == Positives(signals, i)
  {
    hide Walk;
    if i > 0 {
      ExposureSoFar(signals, opens, bf, sf, initial, i - 1);
      HeldMeansInvested(signals, opens, bf, sf, initial, i);
    }
  }

  /** The exposure counts the positive signals that could trade, the last of them twice: the last
      mark repeats the position of the mark before. */
  lemma {:induction false} ExposureCountsSignals(signals: seq<int>, opens: seq<real>, bf: real, sf: real, initial: real)
    requires FullMarket(signals, opens, bf) && opens != [] && sf > 0.0 && initial > 0.0
    ensures var m := |opens| - 1;
            Exposure(signals, opens, bf, sf, initial, |opens|) == Positives(signals, m) + if Held(signals,
                                                                                                  m) then 1 else 0
  {
    hide Walk;
    ExposureSoFar(signals, opens, bf, sf, initial, |opens| - 1);
    HeldMeansInvested(signals, opens, bf, sf, initial, |opens| - 1);
  }

  lemma {:induction false} OneMoreMark(signals: seq<int>, opens: seq<real>, bf: real, sf: real, initial: real,
                                       curve: seq<real>, i: nat, mark: real)
    requires FullMarket(signals, opens, bf) && i < |opens| && i < |curve|
    requires OracleCurve(signals, opens, bf, sf, initial, curve, i)
    requires mark == MarkAt(Walk(signals, opens, bf, sf, initial, Traded(|opens|, i)), opens[i])
    ensures OracleCurve(signals, opens, bf, sf, initial, curve[i := mark], i + 1)
  {
    hide Walk, MarkAt;
  }

  /** The loop both oracles share: decide at bar i, fill at open i + 1, but mark the new position at
      open i. The forced close comes after the last mark. */
  method MarkedCurve(signals: seq<int>, opens: seq<real>, initial: real, bf: real, sf: real)
      returns (equity: array<real>, final: Book, active: nat)
    requires FullMarket(signals, opens, bf)
    ensures fresh(equity) && equity.Length == |opens|
    ensures OracleCurve(signals, opens, bf, sf, initial, equity[..], |opens|)
    ensures opens == [] ==> final == Fresh(initial)
    ensures opens != [] ==>
              final == ForceClose(Walk(signals, opens, bf, sf, initial, |opens| - 1), opens[|opens| - 1], sf)
    ensures active == Exposure(signals, opens, bf, sf, initial, |opens|)
  {
    var n := |opens|;
    equity := new real[n](_ => initial);
    var b := Fresh(initial);
    active := 0;
    for i := 0 to n
      invariant active == Exposure(signals, opens, bf, sf, initial, i)
      invariant i < n ==> b == Walk(signals, opens, bf, sf, initial, i)
      invariant i == n && n > 0 ==> b == Walk(signals, opens, bf, sf, initial, n - 1)
      invariant n == 0 ==> b == Fresh(initial)
      invariant OracleCurve(signals, opens, bf, sf, initial, equity[..], i)
    {
      hide Walk, Trade, MarkAt, Market, Prices, OracleCurve;
      ghost var before := equity[..];
      var sig := signals[i];
      if i + 1 < n {
        WalkStep(signals, opens, bf, sf, initial, i);
        b := Trade(b, sig, opens[i + 1], bf, sf);
      }
      equity[i] := MarkAt(b, opens[i]);
      OneMoreMark(signals, opens, bf, sf, initial, before, i, equity[i]);
      assert equity[..] == before[i := equity[i]];
      active := active + if b.qty > 0.0 then 1 else 0;
    }
    final := if n > 0 && b.qty > 0.0 then ForceClose(b, opens[n - 1], sf) else b;
  }

  lemma {:induction false} OracleSides(commission: real, slippage: real, spreadBps: real)
    ensures var side := commission + slippage + spreadBps / 40000.0;
            && OracleBuy(commission, slippage, spreadBps) == 1.0 + side
            && OracleSell(commission, slippage, spreadBps) == 1.0 - side
  {
  }

  /** `oracle_equity_curve` of evidence_ac14.py. */
  method OracleEquityCurve(signals: seq<int>, opens: seq<real>, initial: real, commission: real, slippage: real,
                           spreadBps: real) returns (equity: array<real>, final: Book, active: nat)
    requires FullMarket(signals, opens, OracleBuy(commission, slippage, spreadBps))
    ensures fresh(equity) && equity.Length == |opens|
    ensures var side := commission + slippage + spreadBps / 40000.0;
            var bf, sf := 1.0 + side, 1.0 - side;
            && FullMarket(signals, opens, bf)
            && OracleCurve(signals, opens, bf, sf, initial, equity[..], |opens|)
            && active == Exposure(signals, opens, bf, sf, initial, |opens|)
            && final == Closed(signals, opens, bf, sf, initial)
  {
    OracleSides(commission, slippage, spreadBps);
    hide OracleBuy, OracleSell, Walk, OracleCurve;
    var bf, sf := OracleBuy(commission, slippage, spreadBps), OracleSell(commission, slippage, spreadBps);
    equity, final, active := MarkedCurve(signals, opens, initial, bf, sf);
  }

  /** The book after the forced close. */
  ghost function Closed(signals: seq<int>, opens: seq<real>, bf: real, sf: real, initial: real): Book
    requires FullMarket(signals, opens, bf)
  {
    if opens == [] then Fresh(initial)
    else ForceClose(Walk(signals, opens, bf, sf, initial, |opens| - 1), opens[|opens| - 1], sf)
  }

  /** The reported final equity is the last mark: it leaves out the cost of the forced close,
      exactly when the position is still open. */
  lemma {:induction false} OracleOmitsLastCost(signals: seq<int>, opens: seq<real>, bf: real, sf: real, initial: real)
    requires FullMarket(signals, opens, bf) && opens != [] && sf > 0.0 && initial > 0.0
    ensures var m := |opens| - 1; var b := Walk(signals, opens, bf, sf, initial, m);
            var closed := ForceClose(b, opens[m], sf).cash;
            && closed == MarkAt(b, opens[m]) * (if Held(signals, m) then sf else 1.0)
            && (closed == MarkAt(b, opens[m]) <==> !Held(signals, m) || sf == 1.0)
  {
    hide Walk;
    var m := |opens| - 1;
    var b := Walk(signals, opens, bf, sf, initial, m);
    HeldMeansInvested(signals, opens, bf, sf, initial, m);
    if Held(signals, m) {
      MulPositive(b.qty, opens[m]);
      MulAssoc(b.qty, opens[m], sf);
      OnlyUnitKeeps(b.qty * opens[m], sf);
    }
  }

  lemma {:induction false} OnlyUnitKeeps(x: real, f: real)
    requires x > 0.0
    ensures x * f == x <==> f == 1.0
  {
    if f > 1.0 {
      MulPositive(x, f - 1.0);
    } else if f < 1.0 {
      MulPositive(x, 1.0 - f);
    }
  }

  /** The curve looks one bar ahead: on a buying bar the cell already holds the fill of the next
      open, marked at the present one. */
  lemma {:induction false} OracleMarksBeforeTheFill(signals: seq<int>, opens: seq<real>, bf: real, sf: real,
                                                    initial: real, i: nat)
    requires FullMarket(signals, opens, bf) && i + 1 < |opens| && sf > 0.0 && initial > 0.0
    requires !Held(signals, i) && Held(signals, i + 1)
    ensures var capital := Walk(signals, opens, bf, sf, initial, i).cash;
            && opens[i + 1] * bf > 0.0
            && MarkAt(Walk(signals, opens, bf, sf, initial, i + 1), opens[i]) ==
                 capital / (opens[i + 1] * bf) * opens[i]
  {
    hide Walk;
    var b := Walk(signals, opens, bf, sf, initial, i);
    HeldMeansInvested(signals, opens, bf, sf, initial, i);
    WalkStep(signals, opens, bf, sf, initial, i);
    RoundTrip(b.cash, b.cash / (opens[i + 1] * bf), opens[i + 1] * bf, 0.0);
    MulPositive(b.cash, opens[i + 1] * bf);
  }

  /** The cell of a bar that leaves the market: the quantity at the fill of the next open. */
  function ExitCell(qty: real, next: real, sf: real): real {
    qty * (next * sf)
  }

  /** The cell of a bar that enters it: what the cash buys at the next open, at the present one. */
  function EntryCell(cash: real, next: real, bf: real, open: real): real
    requires next * bf > 0.0
  {
    cash / (next * bf) * open
  }

  /** What the next open makes of a cell: the price of the entry, of the exit, or nothing. */
  lemma {:induction false} CellAtNext(signals: seq<int>, opens: seq<real>, bf: real, sf: real, initial: real, i: nat)
    requires FullMarket(signals, opens, bf) && i + 1 < |opens| && sf > 0.0 && initial > 0.0
    ensures var b, next := Walk(signals, opens, bf, sf, initial, i), opens[i + 1];
            var cell := MarkAt(Walk(signals, opens, bf, sf, initial, i + 1), opens[i]);
            && next * bf > 0.0
            && (Held(signals, i) ==> b.cash == 0.0 && b.qty > 0.0) && (!Held(signals, i) ==> b.cash > 0.0)
            && cell ==
                 if Held(signals, i) then (if Held(signals, i + 1) then b.qty * opens[i] else ExitCell(b.qty, next, sf))
                       else if Held(signals, i + 1) then EntryCell(b.cash, next, bf, opens[i])
                       else b.cash
  {
    assert opens[i] > 0.0;
    hide Walk;
    var b := Walk(signals, opens, bf, sf, initial, i);
    WalkStep(signals, opens, bf, sf, initial, i);
    HeldMeansInvested(signals, opens, bf, sf, initial, i);
    if !Held(signals, i) && Held(signals, i + 1) {
      RoundTrip(b.cash, b.cash / (opens[i + 1] * bf), opens[i + 1] * bf, 0.0);
    }
  }

  lemma {:induction false} ProductsDiffer(q: real, f: real, x: real, y: real)
    requires q > 0.0 && f > 0.0 && x != y
    ensures ExitCell(q, x, f) != ExitCell(q, y, f)
  {
    assert x * f != y * f;
  }

  lemma {:induction false} QuotientsDiffer(c: real, p: real, f: real, x: real, y: real)
    requires c > 0.0 && p > 0.0 && f > 0.0 && x > 0.0 && y > 0.0 && x != y
    requires x * f > 0.0 && y * f > 0.0
    ensures EntryCell(c, x, f, p) != EntryCell(c, y, f, p)
  {
    var u, v := c / (x * f), c / (y * f);
    assert u * (x * f) == c && v * (y * f) == c;
    assert u > 0.0;
    if u == v {
      ProductsDiffer(u, f, x, y);
      assert false;
    }
    ProductsDiffer(p, 1.0, u, v);
  }

  /** Two markets alike up to open i, but not at the next: cell i is the same in both exactly on bars
      that neither enter nor leave the market. */
  lemma {:induction false} CellLooksAhead(signals: seq<int>, opens: seq<real>, other: seq<int>, prices: seq<real>,
                                          bf: real, sf: real, initial: real, i: nat)
    requires FullMarket(signals, opens, bf) && FullMarket(other, prices, bf) && i + 1 < |opens| && i + 1 < |prices|
    requires signals[..i + 1] == other[..i + 1] && opens[..i + 1] == prices[..i + 1] && opens[i + 1] != prices[i + 1]
    requires sf > 0.0 && initial > 0.0
    ensures var cell := MarkAt(Walk(signals, opens, bf, sf, initial, i + 1), opens[i]);
            var changed := MarkAt(Walk(other, prices, bf, sf, initial, i + 1), prices[i]);
            (cell == changed) <==> (Held(signals, i) <==> Held(signals, i + 1))
  {
    assert signals[..i] == signals[..i + 1][..i] && other[..i] == other[..i + 1][..i];
    assert opens[i] == opens[..i + 1][i] && prices[i] == prices[..i + 1][i];
    assert signals[i] == signals[..i + 1][i] && other[i] == other[..i + 1][i];
    assert i > 0 ==> signals[i - 1] == signals[..i + 1][i - 1] && other[i - 1] == other[..i + 1][i - 1];
    assert opens[i] > 0.0 && opens[i + 1] > 0.0 && prices[i + 1] > 0.0;
    CurveIsCausal(signals, opens, other, prices, bf, sf, initial, i);
    CellAtNext(signals, opens, bf, sf, initial, i);
    CellAtNext(other, prices, bf, sf, initial, i);
    var b := Walk(signals, opens, bf, sf, initial, i);
    var cell := MarkAt(Walk(signals, opens, bf, sf, initial, i + 1), opens[i]);
    var changed := MarkAt(Walk(other, prices, bf, sf, initial, i + 1), prices[i]);
    hide Walk, MarkAt, Market, Prices, FullMarket, ExitCell, EntryCell;
    if Held(signals, i) && !Held(signals, i + 1) {
      ProductsDiffer(b.qty, sf, opens[i + 1], prices[i + 1]);
      assert cell != changed;
    } else if !Held(signals, i) && Held(signals, i + 1) {
      QuotientsDiffer(b.cash, opens[i], bf, opens[i + 1], prices[i + 1]);
      assert cell != changed;
    } else {
      assert cell == changed;
    }
  }

  // ------------------------------------------------------- evidence_ac14_promoted

  /** Half of all costs, once for both sides. */
  function PromotedHalf(commission: real, slippage: real, spreadBps: real): real {
    (commission + slippage + spreadBps / 10000.0) / 2.0
  }

  /** The two oracles charge the same for a fill exactly when commission and slippage come to half the
      spread; otherwise the same parameters give different curves. */
  lemma {:induction false} OraclesChargeAlike(commission: real, slippage: real, spreadBps: real)
    ensures OracleBuy(commission, slippage, spreadBps) == 1.0 + PromotedHalf(commission, slippage, spreadBps) <==>
            commission + slippage == spreadBps / 20000.0
    ensures OracleSell(commission, slippage, spreadBps) == 1.0 - PromotedHalf(commission, slippage, spreadBps) <==>
            commission + slippage == spreadBps / 20000.0
  {
  }

  /** `oracle_equity_curve` of evidence_ac14_promoted.py: the same marks, but the last cell is
      overwritten with the liquidated cash. */
  method PromotedEquityCurve(signals: seq<int>, opens: seq<real>, initial: real, commission: real, slippage: real,
                             spreadBps: real) returns (equity: array<real>, final: Book)
    requires FullMarket(signals, opens, 1.0 + PromotedHalf(commission, slippage, spreadBps)) && opens != []
    ensures fresh(equity) && equity.Length == |opens|
    ensures var half := commission / 2.0 + slippage / 2.0 + spreadBps / 20000.0;
            && FullMarket(signals, opens, 1.0 + half)
            && OracleCurve(signals, opens, 1.0 + half, 1.0 - half, initial, equity[..], |opens| - 1)
            && final == Closed(signals, opens, 1.0 + half, 1.0 - half, initial)
    ensures equity[|opens| - 1] == final.cash
  {
    assert PromotedHalf(commission, slippage, spreadBps) == commission / 2.0 + slippage / 2.0 + spreadBps / 20000.0;
    hide PromotedHalf, Walk;
    var active;
    var half := PromotedHalf(commission, slippage, spreadBps);
    equity, final, active := MarkedCurve(signals, opens, initial, 1.0 + half, 1.0 - half);
    equity[|opens| - 1] := final.cash;
  }

  // ---------------------------------------------------------- _diagnose_timeframes

  /** `sim` of _diagnose_timeframes.py: every cell marks at the open its bar was filled at. */
  method TimeframeCurve(signals: seq<int>, opens: seq<real>, initial: real, bf: real, sf: real)
      returns (curve: array<real>, final: Book)
    requires Market(signals, opens, bf) && opens != []
    ensures fresh(curve) && curve.Length == |opens|
    ensures forall i :: 0 <= i < |opens| - 1 ==> curve[i] == MarkAt(Walk(signals, opens, bf, sf, initial, i), opens[i])
    ensures final == ForceClose(Walk(signals, opens, bf, sf, initial, |opens| - 1), opens[|opens| - 1], sf)
    ensures curve[|opens| - 1] == final.cash
  {
    hide Walk, MarkAt, Trade;
    var n := |opens|;
    curve := new real[n];
    curve[0] := initial;
    StartMark(signals, opens, bf, sf, initial);
    WalkStart(signals, opens, bf, sf, initial);
    var b := Fresh(initial);
    for i := 0 to n - 1
      invariant b == Walk(signals, opens, bf, sf, initial, i)
      invariant forall j :: 0 <= j <= i ==> curve[j] == MarkAt(Walk(signals, opens, bf, sf, initial, j), opens[j])
    {
      WalkStep(signals, opens, bf, sf, initial, i);
      b := Trade(b, signals[i], opens[i + 1], bf, sf);
      curve[i + 1] := MarkAt(b, opens[i + 1]);
    }
    final := ForceClose(b, opens[n - 1], sf);
    curve[n - 1] := final.cash;
  }

  /** What bar i does to the equity marked at opens: the price move if it was held, the buy factor
      once on entry, the sell factor once on exit, and nothing else. */
  function BarFactor(signals: seq<int>, opens: seq<real>, bf: real, sf: real, i: nat): real
    requires Market(signals, opens, bf) && i + 1 < |opens|
  {
    (if Held(signals, i) then opens[i + 1] / opens[i] else 1.0) *
    (if !Held(signals, i) && Held(signals, i + 1) then 1.0 / bf else 1.0) *
    (if Held(signals, i) && !Held(signals, i + 1) then sf else 1.0)
  }

  lemma {:induction false} HeldMove(q: real, from: real, to: real, sf: real)
    requires from > 0.0
    ensures q * to == q * from * (to / from)
    ensures q * (to * sf) == q * from * (to / from) * sf
  {
    assert from * (to / from) == to;
    MulAssoc(q, from, to / from);
    MulAssoc(q, to, sf);
  }

  lemma {:induction false} EntryMove(capital: real, next: real, bf: real)
    requires next > 0.0 && bf > 0.0 && next * bf > 0.0
    ensures capital / (next * bf) * next == capital * (1.0 / bf)
  {
    var q := capital / (next * bf);
    assert q * (next * bf) == capital;
    assert q * next * bf == capital by {
      MulAssoc(q, next, bf);
    }
    assert q * next == capital / bf;
  }

  /** The curve is self-financing. */
  lemma {:induction false} CurveIsSelfFinancing(signals: seq<int>, opens: seq<real>, bf: real, sf: real, initial: real,
                                                i: nat)
    requires Market(signals, opens, bf) && i + 1 < |opens| && sf > 0.0 && initial > 0.0
    ensures MarkAt(Walk(signals, opens, bf, sf, initial, i + 1), opens[i + 1]) ==
            MarkAt(Walk(signals, opens, bf, sf, initial, i), opens[i]) * BarFactor(signals, opens, bf, sf, i)
  {
    var b, open, next := Walk(signals, opens, bf, sf, initial, i), opens[i], opens[i + 1];
    assert open > 0.0 && next > 0.0;
    BarFactorIs(signals, opens, bf, sf, i);
    hide Walk, Market, Trade, BarFactor, MarkAt;
    HeldMeansInvested(signals, opens, bf, sf, initial, i);
    WalkStep(signals, opens, bf, sf, initial, i);
    if Held(signals, i) {
      HeldBar(b, signals[i], open, next, bf, sf);
      MulAssoc(MarkAt(b, open), next / open, if signals[i] > 0 then 1.0 else sf);
    } else {
      IdleBar(b, signals[i], open, next, bf, sf);
    }
  }

  lemma {:induction false} BarFactorIs(signals: seq<int>, opens: seq<real>, bf: real, sf: real, i: nat)
    requires Market(signals, opens, bf) && i + 1 < |opens|
    ensures BarFactor(signals, opens, bf, sf, i) ==
            if Held(signals, i) then (opens[i + 1] / opens[i]) * (if signals[i] > 0 then 1.0 else sf)
            else if signals[i] > 0 then 1.0 / bf else 1.0
  {
  }

  lemma {:induction false} HeldBar(b: Book, signal: int, open: real, next: real, bf: real, sf: real)
    requires b.cash == 0.0 && b.qty > 0.0 && open > 0.0 && next * bf != 0.0
    ensures MarkAt(Trade(b, signal, next, bf, sf), next) ==
            MarkAt(b, open) * (next / open) * (if signal > 0 then 1.0 else sf)
  {
    HeldMove(b.qty, open, next, sf);
  }

  lemma {:induction false} IdleBar(b: Book, signal: int, open: real, next: real, bf: real, sf: real)
    requires b.cash > 0.0 && b.qty == 0.0 && next > 0.0 && bf > 0.0 && next * bf > 0.0
    ensures MarkAt(Trade(b, signal, next, bf, sf), next) == MarkAt(b, open) * (if signal > 0 then 1.0 / bf else 1.0)
  {
    if signal > 0 {
      EntryMove(b.cash, next, bf);
      RoundTrip(b.cash, b.cash / (next * bf), next * bf, 0.0);
    }
  }

  /** Equity at open i, from the initial capital, as a product over the bars before it. */
  function Equity(signals: seq<int>, opens: seq<real>, bf: real, sf: real, initial: real, i: nat): real
    requires Market(signals, opens, bf) && i < |opens|
  {
    if i == 0 then initial
    else Equity(signals, opens, bf, sf, initial, i - 1) * BarFactor(signals, opens, bf, sf, i - 1)
  }

  lemma {:induction false} CurveIsTheProduct(signals: seq<int>, opens: seq<real>, bf: real, sf: real, initial: real,
                                             i: nat)
    requires Market(signals, opens, bf) && i < |opens| && sf > 0.0 && initial > 0.0
    ensures MarkAt(Walk(signals, opens, bf, sf, initial, i), opens[i]) == Equity(signals, opens, bf, sf, initial, i)
  {
    hide MarkAt, BarFactor;
    if i > 0 {
      CurveIsTheProduct(signals, opens, bf, sf, initial, i - 1);
      CurveIsSelfFinancing(signals, opens, bf, sf, initial, i - 1);
    } else {
      StartMark(signals, opens, bf, sf, initial);
    }
  }

  lemma {:induction false} StartMark(signals: seq<int>, opens: seq<real>, bf: real, sf: real, initial: real)
    requires Market(signals, opens, bf) && opens != []
    ensures MarkAt(Walk(signals, opens, bf, sf, initial, 0), opens[0]) == initial
  {
  }

  /** A cell before the last depends on the opens up to it and on earlier signals only. */
  lemma {:induction false} CurveIsCausal(signals: seq<int>, opens: seq<real>, other: seq<int>, prices: seq<real>,
                                         bf: real, sf: real, initial: real, i: nat)
    requires Market(signals, opens, bf) && Market(other, prices, bf) && i < |opens| && i < |prices|
    requires signals[..i] == other[..i] && opens[..i + 1] == prices[..i + 1]
    ensures Walk(signals, opens, bf, sf, initial, i) == Walk(other, prices, bf, sf, initial, i)
    ensures MarkAt(Walk(signals, opens, bf, sf, initial, i), opens[i]) ==
            MarkAt(Walk(other, prices, bf, sf, initial, i), prices[i])
  {
    assert opens[..i + 1][i] == prices[..i + 1][i];
    if i > 0 {
      assert signals[..i][..i - 1] == signals[..i - 1] && other[..i][..i - 1] == other[..i - 1];
      assert opens[..i + 1][..i] == opens[..i] && prices[..i + 1][..i] == prices[..i];
      assert signals[..i][i - 1] == other[..i][i - 1];
      CurveIsCausal(signals, opens, other, prices, bf, sf, initial, i - 1);
    }
  }

  // ------------------------------------------------------------ _diagnose_ac14_loss

  /** `simulate` of _diagnose_ac14_loss.py. After the forced close the quantity is not reset, so
      the final equity adds the position that was just sold. */
  method SimulateLoss(signals: seq<int>, opens: seq<real>, initial: real, bf: real,
                      sf: real) returns (equity: real, final: Book)
    requires Market(signals, opens, bf)
    ensures opens == [] ==> final == Fresh(initial) && equity == initial
    ensures opens != [] ==>
              && final == ForceClose(Walk(signals, opens, bf, sf, initial, |opens| - 1), opens[|opens| - 1], sf)
              && equity == if final.qty == 0.0 then final.cash else final.cash + final.qty * opens[|opens| - 1]
  {
    final := Fresh(initial);
    var bars := if opens == [] then 0 else |opens| - 1;
    for i := 0 to bars
      invariant i < |opens| || i == 0
      invariant final == Walk(signals, opens, bf, sf, initial, i)
    {
      hide Walk;
      WalkStep(signals, opens, bf, sf, initial, i);
      final := Trade(final, signals[i], opens[i + 1], bf, sf);
    }
    if final.qty > 0.0 {
      final := ForceClose(final, opens[|opens| - 1], sf);
    }
    equity := if final.qty == 0.0 || opens == [] then final.cash else final.cash + final.qty * opens[|opens| - 1];
  }

  /** The equity `simulate` reports. */
  function LossEquity(signals: seq<int>, opens: seq<real>, bf: real, sf: real, initial: real): real
    requires Market(signals, opens, bf) && opens != []
  {
    var m := |opens| - 1;
    var b := ForceClose(Walk(signals, opens, bf, sf, initial, m), opens[m], sf);
    if b.qty == 0.0 then b.cash else b.cash + b.qty * opens[m]
  }

  /** The reported equity is the liquidated cash exactly when the last signal that could trade
      leaves the loop flat; otherwise the open position is counted twice. */
  lemma {:induction false} LossCountsOpenPositionTwice(signals: seq<int>, opens: seq<real>, bf: real, sf: real,
                                                       initial: real)
    requires Market(signals, opens, bf) && opens != [] && sf > 0.0 && initial > 0.0
    ensures var m := |opens| - 1; var b := Walk(signals, opens, bf, sf, initial, m);
            var cash := ForceClose(b, opens[m], sf).cash;
            && (LossEquity(signals, opens, bf, sf, initial) == cash <==> !Held(signals, m))
            && (Held(signals, m) ==> LossEquity(signals, opens, bf, sf, initial) == cash + MarkAt(b, opens[m]))
  {
    hide Walk;
    var m := |opens| - 1;
    var b := Walk(signals, opens, bf, sf, initial, m);
    HeldMeansInvested(signals, opens, bf, sf, initial, m);
    if Held(signals, m) {
      MulPositive(b.qty, opens[m]);
    }
  }

  /** Two bars at a constant price and no cost: nothing was gained, yet the equity doubles. */
  lemma {:induction false} LossDoublesAnIdlePosition()
    ensures Market([1], [100.0, 100.0], 1.0)
    ensures LossEquity([1], [100.0, 100.0], 1.0, 1.0, 100000.0) == 200000.0
  {
    var b := Walk([1], [100.0, 100.0], 1.0, 1.0, 100000.0, 0);
    WalkStep([1], [100.0, 100.0], 1.0, 1.0, 100000.0, 0);
  }
}
