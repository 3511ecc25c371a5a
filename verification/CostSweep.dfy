/** The cost sweep and its bisection. */
module CostSweep {
  // The cost sweep of `scripts/_diagnose_cost_sweep.py`: a round-trip cost in basis points is
  // split over both fills, the position is not closed at the end, and forty bisection steps
  // look for the cost at which the profit disappears. Arithmetic is exact.

  import opened Arithmetic
  import opened LongOnly

  const INITIAL := 100000.0

  function Half(cost: real): real {
    cost / 2.0 / 10000.0
  }

  function BuyFactor(cost: real): real {
    1.0 + Half(cost)
  }

  function SellFactor(cost: real): real {
    1.0 - Half(cost)
  }

  ghost predicate Sweep(signals: seq<int>, opens: seq<real>, cost: real) {
    Prices(opens) && |opens| <= |signals| + 1 && cost > -20000.0
  }

  function FinalCash(signals: seq<int>, opens: seq<real>, cost: real): real
    requires Sweep(signals, opens, cost)
  {
    if opens == [] then INITIAL
    else Walk(signals, opens, BuyFactor(cost), SellFactor(cost), INITIAL, |opens| - 1).cash
  }

  /** The percentage `sim` returns. */
  function Return(signals: seq<int>, opens: seq<real>, cost: real): real
    requires Sweep(signals, opens, cost)
  {
    (FinalCash(signals, opens, cost) - INITIAL) / INITIAL * 100.0
  }

  /** The last cash of a walk that starts with 100000 and pays half the round-trip cost on each side. */
  lemma {:induction false} FinalCashIs(signals: seq<int>, opens: seq<real>, cost: real)
    requires Sweep(signals, opens, cost)
    ensures var side := cost / 20000.0;
            && Market(signals, opens, 1.0 + side)
            && FinalCash(signals, opens, cost) ==
               if |opens| <= 1 then 100000.0
               else Walk(signals, opens, 1.0 + side, 1.0 - side, 100000.0, |opens| - 1).cash
  {
    assert Half(cost) == cost / 20000.0;
  }

  method Sim(signals: seq<int>, opens: seq<real>, cost: real) returns (r: real)
    requires Sweep(signals, opens, cost)
    ensures r == Return(signals, opens, cost)
    ensures r == (FinalCash(signals, opens, cost) - 100000.0) / 1000.0
  {
    hide Walk;
    var buy, sell := BuyFactor(cost), SellFactor(cost);
    WalkStart(signals, opens, buy, sell, INITIAL);
    var cash, qty, entry := INITIAL, 0.0, 0.0;
    ghost var b := Fresh(INITIAL);
    var bars := if opens == [] then 0 else |opens| - 1;
    for k := 0 to bars
      invariant k < |opens| || k == 0
      invariant b == Walk(signals, opens, buy, sell, INITIAL, k)
      invariant cash == b.cash && qty == b.qty && entry == b.entry
    {
      WalkStep(signals, opens, buy, sell, INITIAL, k);
      var s, next := signals[k], opens[k + 1];
      b := Trade(b, s, next, buy, sell);
      if s > 0 && qty == 0.0 {
        var fp := next * buy;
        qty := cash / fp;
        cash := cash - qty * fp;
        entry := fp;
      } else if s <= 0 && qty > 0.0 {
        var fp := next * sell;
        cash := cash + qty * fp;
        qty, entry := 0.0, 0.0;
      }
    }
    r := (cash - INITIAL) / INITIAL * 100.0;
  }

  // ------------------------------------------------ a higher cost never pays

  lemma {:induction false} CrossTerms(out: real, into: real, h1: real, h2: real, a: real, b: real, c: real, d: real)
    requires out > 0.0 && into > 0.0 && h1 <= h2
    requires a == out * (1.0 - h1) && b == into * (1.0 + h1) && c == out * (1.0 - h2) && d == into * (1.0 + h2)
    ensures a * d >= c * b
  {
    var p := out * into;
    assert p > 0.0;
    assert (1.0 - h1) * (1.0 + h2) - (1.0 - h2) * (1.0 + h1) == 2.0 * (h2 - h1);
    assert a * d == p * ((1.0 - h1) * (1.0 + h2));
    assert c * b == p * ((1.0 - h2) * (1.0 + h1));
    assert p * ((1.0 - h1) * (1.0 + h2)) - p * ((1.0 - h2) * (1.0 + h1)) == p * (2.0 * (h2 - h1));
  }

  /** Out over in, each with its own half cost. */
  lemma {:induction false} RatioFalls(out: real, into: real, h1: real, h2: real)
    requires out > 0.0 && into > 0.0 && -1.0 < h1 <= h2
    ensures into * (1.0 + h1) > 0.0 && into * (1.0 + h2) > 0.0
    ensures (out * (1.0 - h1)) / (into * (1.0 + h1)) >= (out * (1.0 - h2)) / (into * (1.0 + h2))
  {
    var a, b, c, d := out * (1.0 - h1), into * (1.0 + h1), out * (1.0 - h2), into * (1.0 + h2);
    CrossTerms(out, into, h1, h2, a, b, c, d);
    DivideOrder(a, b, c, d);
  }

  lemma {:induction false} FactorFalls(opens: seq<real>, t: Trip, c1: real, c2: real)
    requires Prices(opens) && t.start < t.end < |opens| && -20000.0 < c1 <= c2
    ensures TripFactor(opens, BuyFactor(c1), SellFactor(c1), t) >= TripFactor(opens, BuyFactor(c2), SellFactor(c2), t)
  {
    var out, into := opens[if t.end + 1 < |opens| then t.end + 1 else t.end], opens[t.start + 1];
    assert -1.0 < Half(c1) <= Half(c2);
    RatioFalls(out, into, Half(c1), Half(c2));
  }

  lemma {:induction false} MulOrder(a: real, b: real, c: real, d: real)
    requires a >= c >= 0.0 && b >= d >= 0.0
    ensures a * b >= c * d
  {
    assert a * b >= c * b;
    assert c * b >= c * d;
  }

  lemma {:induction false} GrowthFalls(opens: seq<real>, trips: seq<Trip>, c1: real, c2: real)
    requires Prices(opens) && InRange(opens, trips) && -20000.0 < c1 <= c2 < 20000.0
    ensures Growth(opens, BuyFactor(c1), SellFactor(c1), trips) >=
            Growth(opens, BuyFactor(c2), SellFactor(c2), trips) > 0.0
  {
    GrowthPositive(opens, BuyFactor(c2), SellFactor(c2), trips);
    if trips != [] {
      var front, t := trips[..|trips| - 1], trips[|trips| - 1];
      GrowthFalls(opens, front, c1, c2);
      FactorFalls(opens, t, c1, c2);
      FactorPositive(opens, BuyFactor(c2), SellFactor(c2), t);
      MulOrder(Growth(opens, BuyFactor(c1), SellFactor(c1), front), TripFactor(opens, BuyFactor(c1), SellFactor(c1), t),
               Growth(opens, BuyFactor(c2), SellFactor(c2), front), TripFactor(opens, BuyFactor(c2), SellFactor(c2),
                                                                               t));
    }
  }

  /** Final cash never rises with the cost, for every signal series, every positive price series
      and every cost above -20000 bps (where the buy factor is positive). */
  lemma {:induction false} CashFallsWithCost(signals: seq<int>, opens: seq<real>, c1: real, c2: real)
    requires Sweep(signals, opens, c1) && c1 <= c2
    ensures FinalCash(signals, opens, c1) >= FinalCash(signals, opens, c2)
  {
    if opens != [] {
      var m := |opens| - 1;
      TripsInRange(signals, opens, m);
      if c2 < 20000.0 {
        SolventOrder(signals, opens, c1, c2, m);
      } else if c1 < 20000.0 {
        MixedOrder(signals, opens, c1, c2, m);
      } else {
        BrokeOrder(signals, opens, c1, c2, m);
      }
    }
  }

  lemma {:induction false} SolventOrder(signals: seq<int>, opens: seq<real>, c1: real, c2: real, m: nat)
    requires Sweep(signals, opens, c1) && c1 <= c2 < 20000.0 && m < |opens|
    ensures Walk(signals, opens, BuyFactor(c1), SellFactor(c1), INITIAL, m).cash >=
            Walk(signals, opens, BuyFactor(c2), SellFactor(c2), INITIAL, m).cash
  {
    hide Growth;
    WalkIsAccounted(signals, opens, BuyFactor(c1), SellFactor(c1), INITIAL, m);
    WalkIsAccounted(signals, opens, BuyFactor(c2), SellFactor(c2), INITIAL, m);
    GrowthFalls(opens, Trips(signals, m), c1, c2);
  }

  lemma {:induction false} MixedOrder(signals: seq<int>, opens: seq<real>, c1: real, c2: real, m: nat)
    requires Sweep(signals, opens, c1) && c1 < 20000.0 <= c2 && m < |opens|
    ensures Walk(signals, opens, BuyFactor(c1), SellFactor(c1), INITIAL, m).cash >=
            Walk(signals, opens, BuyFactor(c2), SellFactor(c2), INITIAL, m).cash
  {
    hide TripFactor;
    WalkIsAccounted(signals, opens, BuyFactor(c1), SellFactor(c1), INITIAL, m);
    CapitalPositive(signals, opens, BuyFactor(c1), SellFactor(c1), INITIAL, m);
    WalkGoesBroke(signals, opens, BuyFactor(c2), SellFactor(c2), INITIAL, m);
  }

  lemma {:induction false} BrokeOrder(signals: seq<int>, opens: seq<real>, c1: real, c2: real, m: nat)
    requires Sweep(signals, opens, c1) && 20000.0 <= c1 <= c2 && m < |opens|
    ensures Walk(signals, opens, BuyFactor(c1), SellFactor(c1), INITIAL, m).cash >=
            Walk(signals, opens, BuyFactor(c2), SellFactor(c2), INITIAL, m).cash
  {
    hide TripFactor;
    WalkGoesBroke(signals, opens, BuyFactor(c1), SellFactor(c1), INITIAL, m);
    WalkGoesBroke(signals, opens, BuyFactor(c2), SellFactor(c2), INITIAL, m);
    if |Trips(signals, m)| == 1 {
      FactorFalls(opens, Trips(signals, m)[0], c1, c2);
    }
  }

  // -------------------------------------------------------------------- bisection

  predicate Profitable(signals: seq<int>, opens: seq<real>, cost: real)
    requires Sweep(signals, opens, cost)
  {
    Return(signals, opens, cost) > 0.0
  }

  lemma {:induction false} ProfitIsMoreCash(signals: seq<int>, opens: seq<real>, cost: real)
    requires Sweep(signals, opens, cost)
    ensures Profitable(signals, opens, cost) <==> FinalCash(signals, opens, cost) > 100000.0
  {
    hide FinalCash;
  }

  lemma {:induction false} ProfitIsDownward(signals: seq<int>, opens: seq<real>, c1: real, c2: real)
    requires Sweep(signals, opens, c1) && c1 <= c2
    ensures Profitable(signals, opens, c2) ==> Profitable(signals, opens, c1)
  {
    CashFallsWithCost(signals, opens, c1, c2);
  }

  function Power2(k: nat): (p: real)
    ensures p > 0.0
  {
    if k == 0 then 1.0 else 2.0 * Power2(k - 1)
  }

  /** The bracket after k bisection steps. */
  function Bisect(signals: seq<int>, opens: seq<real>, k: nat): (real, real)
    requires Prices(opens) && |opens| <= |signals| + 1
    ensures var (lo, hi) := Bisect(signals, opens, k); 0.0 <= lo < hi <= 60.0
  {
    if k == 0 then (0.0, 60.0)
    else
      var (lo, hi) := Bisect(signals, opens, k - 1);
      var mid := (lo + hi) / 2.0;
      if Profitable(signals, opens, mid) then (mid, hi) else (lo, mid)
  }

  /** After k steps the bracket has width 60 / 2^k; its lower end pays exactly when free trading
      does, its upper end fails exactly when 60 bps do, and everything outside follows suit. */
  lemma {:induction false} BisectionBrackets(signals: seq<int>, opens: seq<real>, k: nat)
    requires Prices(opens) && |opens| <= |signals| + 1
    ensures var (lo, hi) := Bisect(signals, opens, k);
            && hi - lo == 60.0 / Power2(k)
            && (Profitable(signals, opens, lo) <==> Profitable(signals, opens, 0.0))
            && (Profitable(signals, opens, hi) <==> Profitable(signals, opens, 60.0))
            && (Profitable(signals, opens, 0.0) ==>
                  forall c :: -20000.0 < c <= lo ==> Profitable(signals, opens, c))
            && (!Profitable(signals, opens, 60.0) ==> forall c :: c >= hi ==> !Profitable(signals, opens, c))
  {
    hide Profitable;
    var (lo, hi) := Bisect(signals, opens, k);
    BisectionEnds(signals, opens, k);
    forall c | -20000.0 < c <= lo ensures Profitable(signals, opens, lo) ==> Profitable(signals, opens, c) {
      ProfitIsDownward(signals, opens, c, lo);
    }
    forall c | c >= hi ensures Profitable(signals, opens, c) ==> Profitable(signals, opens, hi) {
      ProfitIsDownward(signals, opens, hi, c);
    }
  }

  lemma {:induction false} BisectionEnds(signals: seq<int>, opens: seq<real>, k: nat)
    requires Prices(opens) && |opens| <= |signals| + 1
    ensures var (lo, hi) := Bisect(signals, opens, k);
            && hi - lo == 60.0 / Power2(k)
            && (Profitable(signals, opens, lo) <==> Profitable(signals, opens, 0.0))
            && (Profitable(signals, opens, hi) <==> Profitable(signals, opens, 60.0))
  {
    hide Profitable;
    if k > 0 {
      BisectionEnds(signals, opens, k - 1);
      var (lo, hi) := Bisect(signals, opens, k - 1);
      var mid := (lo + hi) / 2.0;
      ProfitIsDownward(signals, opens, 0.0, mid);
      ProfitIsDownward(signals, opens, mid, 60.0);
      HalveWidth(lo, hi, k);
    }
  }

  lemma {:induction false} HalveWidth(lo: real, hi: real, k: nat)
    requires k > 0 && hi - lo == 60.0 / Power2(k - 1)
    ensures (hi - lo) / 2.0 == 60.0 / Power2(k)
  {
    var p := Power2(k - 1);
    assert Power2(k) == 2.0 * p;
    assert 60.0 / (2.0 * p) == 60.0 / p / 2.0;
  }

  /** The loop of the script. */
  method BreakEven(signals: seq<int>, opens: seq<real>) returns (lo: real, hi: real)
    requires Prices(opens) && |opens| <= |signals| + 1
    ensures (lo, hi) == Bisect(signals, opens, 40)
  {
    lo, hi := 0.0, 60.0;
    for k := 0 to 40
      invariant (lo, hi) == Bisect(signals, opens, k)
    {
      var mid := (lo + hi) / 2.0;
      var r := Sim(signals, opens, mid);
      if r > 0.0 {
        lo := mid;
      } else {
        hi := mid;
      }
    }
  }
}
