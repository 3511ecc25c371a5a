/** The long-only loop of several scripts. */
module LongOnly {
  // The long-only accounting loop that the diagnostic and evidence scripts repeat: a positive
  // signal buys with all cash at the next open, anything else sells everything at the next open.
  // `bf` and `sf` are the buy and sell factors each script builds from its costs.

  import opened Arithmetic

  datatype Book = Book(cash: real, qty: real, entry: real, pnls: seq<real>, switches: nat)

  function Fresh(initial: real): Book {
    Book(initial, 0.0, 0.0, [], 0)
  }

  /** What selling a quantity at `out` books, bought at `into`. */
  function Gain(qty: real, out: real, into: real): real {
    qty * (out - into)
  }

  /** One bar: decide on `signal`, fill at the open `next`. */
  function Trade(b: Book, signal: int, next: real, bf: real, sf: real): Book
    requires next * bf != 0.0
  {
    if signal > 0 && b.qty == 0.0 then
      var fp := next * bf;
      var qty := b.cash / fp;
      Book(b.cash - qty * fp, qty, fp, b.pnls, b.switches + 1)
    else if signal <= 0 && b.qty > 0.0 then
      var fp := next * sf;
      Book(b.cash + b.qty * fp, 0.0, 0.0, b.pnls + [Gain(b.qty, fp, b.entry)], b.switches + 1)
    else b
  }

  ghost predicate Prices(opens: seq<real>) {
    forall i :: 0 <= i < |opens| ==> opens[i] > 0.0
  }

  /** The loop's domain: positive opens, a signal for every bar but the last, a buy factor above zero. */
  ghost predicate Market(signals: seq<int>, opens: seq<real>, bf: real) {
    Prices(opens) && |opens| <= |signals| + 1 && bf > 0.0
  }

  lemma {:induction false} Fillable(opens: seq<real>, i: nat, bf: real)
    requires Prices(opens) && i < |opens| && bf > 0.0
    ensures opens[i] * bf > 0.0
  {
  }

  /** The book after the first i bars. */
  function Walk(signals: seq<int>, opens: seq<real>, bf: real, sf: real, initial: real, i: nat): Book
    requires Market(signals, opens, bf) && (i < |opens| || i == 0)
  {
    if i == 0 then Fresh(initial)
    else
      Fillable(opens, i, bf);
      Trade(Walk(signals, opens, bf, sf, initial, i - 1), signals[i - 1], opens[i], bf, sf)
  }

  lemma {:induction false} WalkStart(signals: seq<int>, opens: seq<real>, bf: real, sf: real, initial: real)
    requires Market(signals, opens, bf)
    ensures Walk(signals, opens, bf, sf, initial, 0) == Fresh(initial)
  {
  }

  lemma {:induction false} WalkStep(signals: seq<int>, opens: seq<real>, bf: real, sf: real, initial: real, k: nat)
    requires Market(signals, opens, bf) && k + 1 < |opens|
    ensures opens[k + 1] * bf > 0.0
    ensures Walk(signals, opens, bf, sf, initial, k + 1) ==
            Trade(Walk(signals, opens, bf, sf, initial, k), signals[k], opens[k + 1], bf, sf)
  {
    Fillable(opens, k + 1, bf);
  }

  /** The forced close at the last open. */
  function ForceClose(b: Book, last: real, sf: real): Book {
    if b.qty > 0.0 then
      var fp := last * sf;
      b.(cash := b.cash + b.qty * fp, pnls := b.pnls + [Gain(b.qty, fp, b.entry)], switches := b.switches + 1)
    else b
  }

  // --------------------------------------------- the reference: blocks of positive signals

  /** Held after the first i bars: the last signal seen was positive. */
  predicate Held(signals: seq<int>, i: nat)
    requires i <= |signals|
  {
    i > 0 && signals[i - 1] > 0
  }

  /** Where the block of positive signals that ends at i begins. */
  function BlockStart(signals: seq<int>, i: nat): (a: nat)
    requires i <= |signals| && Held(signals, i)
    ensures a < i
  {
    if Held(signals, i - 1) then BlockStart(signals, i - 1) else i - 1
  }

  datatype Trip = Trip(start: nat, end: nat)

  /** The blocks of positive signals that have ended before bar i. */
  function Trips(signals: seq<int>, i: nat): seq<Trip>
    requires i <= |signals|
  {
    if i == 0 then []
    else if Held(signals, i - 1) && !Held(signals, i) then
      Trips(signals, i - 1) + [Trip(BlockStart(signals, i - 1), i - 1)]
    else Trips(signals, i - 1)
  }

  /** All blocks among the first m signals: the last one may be cut off at m. */
  function AllTrips(signals: seq<int>, m: nat): seq<Trip>
    requires m <= |signals|
  {
    if Held(signals, m) then Trips(signals, m) + [Trip(BlockStart(signals, m), m)] else Trips(signals, m)
  }

  /** A maximal block of positive signals among the first m. */
  ghost predicate IsBlock(signals: seq<int>, m: nat, t: Trip) {
    && t.start < t.end <= m <= |signals|
    && (forall j :: t.start <= j < t.end ==> signals[j] > 0)
    && (t.start > 0 ==> signals[t.start - 1] <= 0)
    && (t.end < m ==> signals[t.end] <= 0)
  }

  lemma {:induction false} BlockStartIs(signals: seq<int>, i: nat)
    requires i <= |signals| && Held(signals, i)
    ensures var a := BlockStart(signals, i);
            (forall j :: a <= j < i ==> signals[j] > 0) && (a > 0 ==> signals[a - 1] <= 0)
  {
    if Held(signals, i - 1) {
      BlockStartIs(signals, i - 1);
    }
  }

  lemma {:induction false} TripsAreBlocks(signals: seq<int>, i: nat)
    requires i <= |signals|
    ensures forall k :: 0 <= k < |Trips(signals, i)| ==>
                          IsBlock(signals, i, Trips(signals, i)[k]) && Trips(signals, i)[k].end < i
    ensures forall k, l :: 0 <= k < l < |Trips(signals, i)| ==> Trips(signals, i)[k].end < Trips(signals, i)[l].start
    ensures Held(signals, i) ==> forall k :: 0 <= k < |Trips(signals, i)| ==>
            Trips(signals, i)[k].end < BlockStart(signals, i)
  {
    if i > 0 {
      TripsAreBlocks(signals, i - 1);
      var before := Trips(signals, i - 1);
      forall k | 0 <= k < |before| ensures IsBlock(signals, i, before[k]) {
        BlockGrows(signals, i - 1, before[k]);
      }
      if Held(signals, i - 1) {
        BlockStartIs(signals, i - 1);
      }
    }
  }

  /** A block that ended before m is still one when more signals arrive. */
  lemma {:induction false} BlockGrows(signals: seq<int>, m: nat, t: Trip)
    requires m < |signals| && IsBlock(signals, m, t) && t.end < m
    ensures IsBlock(signals, m + 1, t)
  {
  }

  /** The trips are exactly the maximal blocks of positive signals, in order, apart from each other. */
  lemma {:induction false} AllTripsAreTheBlocks(signals: seq<int>, m: nat)
    requires m <= |signals|
    ensures forall k :: 0 <= k < |AllTrips(signals, m)| ==> IsBlock(signals, m, AllTrips(signals, m)[k])
    ensures forall k, l :: 0 <= k < l < |AllTrips(signals, m)| ==>
                AllTrips(signals, m)[k].end < AllTrips(signals, m)[l].start
    ensures forall j :: 0 <= j < m && signals[j] > 0 ==>
                          exists k :: 0 <= k < |AllTrips(signals, m)| &&
                                  AllTrips(signals, m)[k].start <= j < AllTrips(signals, m)[k].end
  {
    hide Trips, BlockStart;
    TripsAreBlocks(signals, m);
    if Held(signals, m) {
      BlockStartIs(signals, m);
    }
    forall j | 0 <= j < m && signals[j] > 0
      ensures exists k :: 0 <= k < |AllTrips(signals, m)| &&
                  AllTrips(signals, m)[k].start <= j < AllTrips(signals, m)[k].end
    {
      TripsCover(signals, m, j);
    }
  }

  lemma {:induction false} TripsCover(signals: seq<int>, m: nat, j: nat)
    requires j < m <= |signals| && signals[j] > 0
    ensures exists k :: 0 <= k < |AllTrips(signals, m)| &&
                AllTrips(signals, m)[k].start <= j < AllTrips(signals, m)[k].end
  {
    var all := AllTrips(signals, m);
    if j == m - 1 {
      assert all[|all| - 1].start <= j < all[|all| - 1].end;
    } else {
      TripsCover(signals, m - 1, j);
      var before := AllTrips(signals, m - 1);
      var k :| 0 <= k < |before| && before[k].start <= j < before[k].end;
      if Held(signals, m - 1) && k == |before| - 1 {
        assert all[k].start <= j < all[k].end;
      } else {
        assert all[k] == before[k];
      }
    }
  }

  // ------------------------------------------------------------------ the closed form

  /** Capital multiplier of one round trip: in at opens[start + 1], out one open after its end,
      or at the last open when the data ends first. */
  function TripFactor(opens: seq<real>, bf: real, sf: real, t: Trip): real
    requires Prices(opens) && bf > 0.0 && t.start < t.end < |opens|
  {
    Fillable(opens, t.start + 1, bf);
    (opens[if t.end + 1 < |opens| then t.end + 1 else t.end] * sf) / (opens[t.start + 1] * bf)
  }

  ghost predicate InRange(opens: seq<real>, trips: seq<Trip>) {
    forall k :: 0 <= k < |trips| ==> trips[k].start < trips[k].end < |opens|
  }

  function Growth(opens: seq<real>, bf: real, sf: real, trips: seq<Trip>): real
    requires Prices(opens) && bf > 0.0 && InRange(opens, trips)
  {
    if trips == [] then 1.0
    else Growth(opens, bf, sf, trips[..|trips| - 1]) * TripFactor(opens, bf, sf, trips[|trips| - 1])
  }

  function Sum(xs: seq<real>): real {
    if xs == [] then 0.0 else Sum(xs[..|xs| - 1]) + xs[|xs| - 1]
  }

  lemma {:induction false} SumSnoc(xs: seq<real>, x: real)
    ensures Sum(xs + [x]) == Sum(xs) + x
  {
    assert (xs + [x])[..|xs|] == xs;
  }

  lemma {:induction false} TripsInRange(signals: seq<int>, opens: seq<real>, i: nat)
    requires i <= |signals| && (i < |opens| || i == 0)
    ensures InRange(opens, Trips(signals, i)) && InRange(opens, AllTrips(signals, i))
  {
    TripsAreBlocks(signals, i);
  }

  /** Buying with everything and selling at `out` multiplies the capital by out / fp. */
  lemma {:induction false} RoundTrip(capital: real, qty: real, fp: real, out: real)
    requires fp != 0.0 && qty == capital / fp
    ensures capital - qty * fp == 0.0
    ensures qty * out == capital * (out / fp)
    ensures qty * (out - fp) == capital * (out / fp) - capital
  {
  }

  /** In the market since a fill at fp, having grown to `capital` over n round trips before. */
  ghost predicate Long(b: Book, initial: real, capital: real, fp: real, n: nat) {
    && fp > 0.0 && b.cash == 0.0 && b.qty == capital / fp && b.entry == fp
    && b.switches == 2 * n + 1 && |b.pnls| == n && Sum(b.pnls) == capital - initial
  }

  /** Out of the market with `capital` after n round trips. */
  ghost predicate Flat(b: Book, initial: real, capital: real, n: nat) {
    && b.cash == capital && b.qty == 0.0
    && b.switches == 2 * n && |b.pnls| == n && Sum(b.pnls) == capital - initial
  }

  /** The initial capital after some round trips. */
  function Capital(opens: seq<real>, bf: real, sf: real, initial: real, trips: seq<Trip>): real
    requires Prices(opens) && bf > 0.0 && InRange(opens, trips)
  {
    initial * Growth(opens, bf, sf, trips)
  }

  /** The fill price at an open. */
  function Fill(opens: seq<real>, k: nat, factor: real): real
    requires k < |opens|
  {
    opens[k] * factor
  }

  /** After any number of bars either cash or quantity is zero; the capital is the initial one
      times the product over the finished round trips, and the booked profits add up to it. */
  ghost predicate Accounted(signals: seq<int>, opens: seq<real>, bf: real, sf: real, initial: real, i: nat, b: Book)
    requires Market(signals, opens, bf) && (i < |opens| || i == 0)
  {
    var trips := Trips(signals, i);
    InRange(opens, trips) &&
    var capital := Capital(opens, bf, sf, initial, trips);
    if Held(signals, i) then Long(b, initial, capital, Fill(opens, BlockStart(signals, i) + 1, bf), |trips|)
    else Flat(b, initial, capital, |trips|)
  }

  lemma {:induction false} GrowthPositive(opens: seq<real>, bf: real, sf: real, trips: seq<Trip>)
    requires Prices(opens) && bf > 0.0 && sf > 0.0 && InRange(opens, trips)
    ensures Growth(opens, bf, sf, trips) > 0.0
  {
    if trips != [] {
      GrowthPositive(opens, bf, sf, trips[..|trips| - 1]);
      FactorPositive(opens, bf, sf, trips[|trips| - 1]);
    }
  }

  lemma {:induction false} FactorPositive(opens: seq<real>, bf: real, sf: real, t: Trip)
    requires Prices(opens) && bf > 0.0 && sf > 0.0 && t.start < t.end < |opens|
    ensures TripFactor(opens, bf, sf, t) > 0.0
  {
    var exit := if t.end + 1 < |opens| then t.end + 1 else t.end;
    Fillable(opens, t.start + 1, bf);
    Fillable(opens, exit, sf);
  }

  lemma {:induction false} GrowthSnoc(opens: seq<real>, bf: real, sf: real, trips: seq<Trip>, t: Trip)
    requires Prices(opens) && bf > 0.0 && InRange(opens, trips) && t.start < t.end < |opens|
    ensures InRange(opens, trips + [t])
    ensures Growth(opens, bf, sf, trips + [t]) == Growth(opens, bf, sf, trips) * TripFactor(opens, bf, sf, t)
  {
    assert (trips + [t])[..|trips|] == trips;
  }

  lemma {:induction false} FlatEnters(b: Book, initial: real, capital: real, n: nat, signal: int, next: real, bf: real,
                                      sf: real, fp: real)
    requires Flat(b, initial, capital, n) && fp == next * bf > 0.0 && signal > 0
    ensures Long(Trade(b, signal, next, bf, sf), initial, capital, fp, n)
  {
    RoundTrip(capital, capital / fp, fp, 0.0);
  }

  lemma {:induction false} FlatStays(b: Book, initial: real, capital: real, n: nat, signal: int, next: real, bf: real,
                                     sf: real)
    requires Flat(b, initial, capital, n) && next * bf != 0.0 && signal <= 0
    ensures Trade(b, signal, next, bf, sf) == b
  {
  }

  lemma {:induction false} LongExits(b: Book, initial: real, capital: real, fp: real, n: nat, signal: int, next: real,
                                     bf: real, sf: real, grown: real)
    requires Long(b, initial, capital, fp, n) && capital > 0.0 && next * bf != 0.0 && signal <= 0
    requires grown == capital * ((next * sf) / fp)
    ensures Flat(Trade(b, signal, next, bf, sf), initial, grown, n + 1)
  {
    MulPositive(capital, fp);
    RoundTrip(capital, b.qty, fp, next * sf);
    SumSnoc(b.pnls, b.qty * (next * sf - fp));
  }

  lemma {:induction false} LongStays(b: Book, initial: real, capital: real, fp: real, n: nat, signal: int, next: real,
                                     bf: real, sf: real)
    requires Long(b, initial, capital, fp, n) && capital > 0.0 && next * bf != 0.0 && signal > 0
    ensures Trade(b, signal, next, bf, sf) == b
  {
    MulPositive(capital, fp);
  }

  lemma {:induction false} MulPositive(a: real, b: real)
    requires a > 0.0 && b > 0.0
    ensures a * b > 0.0 && a / b > 0.0
  {
  }

  lemma {:induction false} WalkIsAccounted(signals: seq<int>, opens: seq<real>, bf: real, sf: real, initial: real,
                                           i: nat)
    requires Market(signals, opens, bf) && (i < |opens| || i == 0) && sf > 0.0 && initial > 0.0
    ensures Accounted(signals, opens, bf, sf, initial, i, Walk(signals, opens, bf, sf, initial, i))
  {
    if i > 0 {
      WalkIsAccounted(signals, opens, bf, sf, initial, i - 1);
      Fillable(opens, i, bf);
      StepIsAccounted(signals, opens, bf, sf, initial, i, Walk(signals, opens, bf, sf, initial, i - 1));
    }
  }

  lemma {:induction false} CapitalPositive(signals: seq<int>, opens: seq<real>, bf: real, sf: real, initial: real,
                                           i: nat)
    requires Market(signals, opens, bf) && (i < |opens| || i == 0) && sf > 0.0 && initial > 0.0
    ensures InRange(opens, Trips(signals, i)) && Capital(opens, bf, sf, initial, Trips(signals, i)) > 0.0
  {
    TripsInRange(signals, opens, i);
    GrowthPositive(opens, bf, sf, Trips(signals, i));
    MulPositive(initial, Growth(opens, bf, sf, Trips(signals, i)));
  }

  /** The capital after one more round trip. */
  lemma {:induction false} CapitalSnoc(opens: seq<real>, bf: real, sf: real, initial: real, trips: seq<Trip>, t: Trip)
    requires Prices(opens) && bf > 0.0 && InRange(opens, trips) && t.start < t.end < |opens|
    ensures InRange(opens, trips + [t])
    ensures var exit := if t.end + 1 < |opens| then t.end + 1 else t.end;
            && Fill(opens, t.start + 1, bf) > 0.0
            && Capital(opens, bf, sf, initial, trips + [t]) ==
               Capital(opens, bf, sf, initial, trips) * ((opens[exit] * sf) / Fill(opens, t.start + 1, bf))
  {
    hide Growth, InRange, Prices;
    Fillable(opens, t.start + 1, bf);
    GrowthSnoc(opens, bf, sf, trips, t);
    MulAssoc(initial, Growth(opens, bf, sf, trips), TripFactor(opens, bf, sf, t));
  }

  lemma {:induction false} StepIsAccounted(signals: seq<int>, opens: seq<real>, bf: real, sf: real, initial: real,
                                           i: nat, b: Book)
    requires Market(signals, opens, bf) && 0 < i < |opens| && sf > 0.0 && initial > 0.0 && opens[i] * bf > 0.0
    requires Accounted(signals, opens, bf, sf, initial, i - 1, b)
    ensures Accounted(signals, opens, bf, sf, initial, i, Trade(b, signals[i - 1], opens[i], bf, sf))
  {
    hide Trade, Long, Flat, Growth, Capital;
    var trips, signal := Trips(signals, i - 1), signals[i - 1];
    CapitalPositive(signals, opens, bf, sf, initial, i - 1);
    var capital := Capital(opens, bf, sf, initial, trips);
    if Held(signals, i - 1) {
      var a := BlockStart(signals, i - 1);
      if Held(signals, i) {
        LongStays(b, initial, capital, Fill(opens, a + 1, bf), |trips|, signal, opens[i], bf, sf);
      } else {
        CapitalSnoc(opens, bf, sf, initial, trips, Trip(a, i - 1));
        LongExits(b, initial, capital, Fill(opens, a + 1, bf), |trips|, signal, opens[i], bf, sf,
                  Capital(opens, bf, sf, initial, trips + [Trip(a, i - 1)]));
      }
    } else if Held(signals, i) {
      FlatEnters(b, initial, capital, |trips|, signal, opens[i], bf, sf, Fill(opens, i, bf));
    } else {
      FlatStays(b, initial, capital, |trips|, signal, opens[i], bf, sf);
    }
  }

  lemma {:induction false} LongCloses(b: Book, initial: real, capital: real, fp: real, n: nat, last: real, sf: real,
                                      grown: real)
    requires Long(b, initial, capital, fp, n) && capital > 0.0 && grown == capital * ((last * sf) / fp)
    ensures var r := ForceClose(b, last, sf);
            r.cash == grown && r.switches == 2 * (n + 1) && |r.pnls| == n + 1 && Sum(r.pnls) == grown - initial
  {
    MulPositive(capital, fp);
    RoundTrip(capital, b.qty, fp, last * sf);
    SumSnoc(b.pnls, b.qty * (last * sf - fp));
  }

  /** After the forced close: cash is the initial capital times the product over all round trips,
      the booked profits add up to the gain, and every trade switched twice. */
  lemma {:induction false} CloseIsAccounted(signals: seq<int>, opens: seq<real>, bf: real, sf: real, initial: real)
    requires Market(signals, opens, bf) && opens != [] && sf > 0.0 && initial > 0.0
    ensures var m := |opens| - 1; var trips := AllTrips(signals, m);
            var b := ForceClose(Walk(signals, opens, bf, sf, initial, m), opens[m], sf);
            && InRange(opens, trips)
            && b.cash == Capital(opens, bf, sf, initial, trips)
            && Sum(b.pnls) == b.cash - initial
            && |b.pnls| == |trips| && b.switches == 2 * |b.pnls|
  {
    hide Walk, Capital;
    var m := |opens| - 1;
    var b, trips := Walk(signals, opens, bf, sf, initial, m), Trips(signals, m);
    WalkIsAccounted(signals, opens, bf, sf, initial, m);
    CapitalPositive(signals, opens, bf, sf, initial, m);
    TripsInRange(signals, opens, m);
    if Held(signals, m) {
      hide ForceClose, Long;
      var t := Trip(BlockStart(signals, m), m);
      CapitalSnoc(opens, bf, sf, initial, trips, t);
      LongCloses(b, initial, Capital(opens, bf, sf, initial, trips), Fill(opens, t.start + 1, bf), |trips|, opens[m],
                 sf,
                 Capital(opens, bf, sf, initial, trips + [t]));
    }
  }

  /** The book tells whether the loop is in the market. */
  lemma {:induction false} HeldMeansInvested(signals: seq<int>, opens: seq<real>, bf: real, sf: real, initial: real,
                                             i: nat)
    requires Market(signals, opens, bf) && (i < |opens| || i == 0) && sf > 0.0 && initial > 0.0
    ensures var b := Walk(signals, opens, bf, sf, initial, i);
            if Held(signals, i) then b.cash == 0.0 && b.qty > 0.0 else b.cash > 0.0 && b.qty == 0.0
  {
    hide Walk, Capital;
    WalkIsAccounted(signals, opens, bf, sf, initial, i);
    CapitalPositive(signals, opens, bf, sf, initial, i);
    if Held(signals, i) {
      MulPositive(Capital(opens, bf, sf, initial, Trips(signals, i)), Fill(opens, BlockStart(signals, i) + 1, bf));
    }
  }

  // ------------------------------------------------------- when costs eat up a whole sale

  /** Nothing traded yet; bought once; sold once; and stuck after that. */
  predicate Untraded(b: Book, initial: real) {
    b.cash == initial && b.qty == 0.0 && b.pnls == []
  }

  predicate BoughtOnce(b: Book, initial: real, fp: real) {
    fp > 0.0 && b.cash == 0.0 && b.qty > 0.0 && b.qty == initial / fp && b.entry == fp && b.pnls == []
  }

  predicate SoldOnce(b: Book, initial: real, left: real) {
    left <= 0.0 && b.cash == left && b.qty == 0.0 && b.pnls == [left - initial]
  }

  predicate Stuck(b: Book, initial: real, left: real) {
    left <= 0.0 && b.cash == 0.0 && b.qty <= 0.0 && b.pnls == [left - initial]
  }

  /** What one round trip leaves of the initial capital. */
  function Left(opens: seq<real>, bf: real, sf: real, initial: real, t: Trip): real
    requires Prices(opens) && bf > 0.0 && t.start < t.end < |opens|
  {
    initial * TripFactor(opens, bf, sf, t)
  }

  /** With a sell factor at or below zero the first sale ends the game: what it leaves is at most
      zero, and the next buy turns it into a quantity that can never be sold. */
  ghost predicate Broke(signals: seq<int>, opens: seq<real>, bf: real, sf: real, initial: real, i: nat, b: Book)
    requires Market(signals, opens, bf) && (i < |opens| || i == 0)
  {
    var trips, held := Trips(signals, i), Held(signals, i);
    InRange(opens, trips) &&
    if trips == [] then
      if held then BoughtOnce(b, initial, Fill(opens, BlockStart(signals, i) + 1, bf)) else Untraded(b, initial)
    else
      var left := Left(opens, bf, sf, initial, trips[0]);
      if |trips| == 1 && !held then SoldOnce(b, initial, left) else Stuck(b, initial, left)
  }

  lemma {:induction false} MulNonPositive(a: real, b: real)
    requires a >= 0.0 && b <= 0.0
    ensures a * b <= 0.0
  {
  }

  lemma {:induction false} BrokeSale(opens: seq<real>, bf: real, sf: real, initial: real, a: nat, exit: nat, end: nat,
                                     qty: real)
    requires Prices(opens) && bf > 0.0 && sf <= 0.0 && initial > 0.0 && a < end < |opens|
    requires exit == (if end + 1 < |opens| then end + 1 else end)
    requires opens[a + 1] * bf > 0.0 && qty == initial / Fill(opens, a + 1, bf) && qty > 0.0
    ensures var left := Left(opens, bf, sf, initial, Trip(a, end));
            && qty * (opens[exit] * sf) == left <= 0.0
            && Gain(qty, opens[exit] * sf, Fill(opens, a + 1, bf)) == left - initial
  {
    RoundTrip(initial, qty, Fill(opens, a + 1, bf), opens[exit] * sf);
    MulNonPositive(opens[exit], sf);
    MulNonPositive(qty, opens[exit] * sf);
  }

  lemma {:induction false} BrokeBuy(cash: real, fp: real)
    requires fp > 0.0
    ensures cash - cash / fp * fp == 0.0
    ensures cash <= 0.0 ==> cash / fp <= 0.0
    ensures cash > 0.0 ==> cash / fp > 0.0
  {
  }

  lemma {:induction false} WalkGoesBroke(signals: seq<int>, opens: seq<real>, bf: real, sf: real, initial: real, i: nat)
    requires Market(signals, opens, bf) && (i < |opens| || i == 0) && sf <= 0.0 && initial > 0.0
    ensures Broke(signals, opens, bf, sf, initial, i, Walk(signals, opens, bf, sf, initial, i))
  {
    if i > 0 {
      WalkGoesBroke(signals, opens, bf, sf, initial, i - 1);
      BrokeStep(signals, opens, bf, sf, initial, i, Walk(signals, opens, bf, sf, initial, i - 1));
    }
  }

  lemma {:induction false} UntradedStep(b: Book, initial: real, signal: int, next: real, bf: real, sf: real)
    requires Untraded(b, initial) && initial > 0.0 && next * bf > 0.0
    ensures var r := Trade(b, signal, next, bf, sf);
            if signal > 0 then BoughtOnce(r, initial, next * bf) else Untraded(r, initial)
  {
    BrokeBuy(initial, next * bf);
  }

  lemma {:induction false} BoughtStep(b: Book, initial: real, fp: real, signal: int, next: real, bf: real, sf: real,
                                      left: real)
    requires BoughtOnce(b, initial, fp) && next * bf > 0.0
    requires signal <= 0 ==> b.qty * (next * sf) == left <= 0.0 && Gain(b.qty, next * sf, fp) == left - initial
    ensures var r := Trade(b, signal, next, bf, sf);
            if signal > 0 then BoughtOnce(r, initial, fp) else SoldOnce(r, initial, left)
  {
    hide Gain;
    if signal <= 0 {
      var r := Trade(b, signal, next, bf, sf);
      assert r.pnls == b.pnls + [Gain(b.qty, next * sf, fp)];
      assert r.cash == b.cash + b.qty * (next * sf);
    }
  }

  lemma {:induction false} Spent(cash: real, qty: real, fp: real)
    requires fp > 0.0 && qty == cash / fp
    ensures cash - qty * fp == 0.0 && (cash <= 0.0 ==> qty <= 0.0)
  {
    assert qty * fp == cash;
  }

  /** A purchase, by its price and quantity. */
  lemma {:induction false} Purchase(b: Book, signal: int, next: real, bf: real, sf: real)
    requires signal > 0 && b.qty == 0.0 && next * bf != 0.0
    ensures var fp := next * bf; var qty := b.cash / fp;
            Trade(b, signal, next, bf, sf) == Book(b.cash - qty * fp, qty, fp, b.pnls, b.switches + 1)
  {
  }

  lemma {:induction false} BuyingSpends(b: Book, signal: int, next: real, bf: real, sf: real)
    requires signal > 0 && b.qty == 0.0 && next * bf > 0.0
    ensures var r := Trade(b, signal, next, bf, sf);
            && r.cash == 0.0 && (b.cash <= 0.0 ==> r.qty <= 0.0)
            && r.pnls == b.pnls
  {
    hide Trade;
    Purchase(b, signal, next, bf, sf);
    Spent(b.cash, b.cash / (next * bf), next * bf);
  }

  lemma {:induction false} StuckStep(b: Book, initial: real, left: real, signal: int, next: real, bf: real, sf: real)
    requires SoldOnce(b, initial, left) || Stuck(b, initial, left)
    requires next * bf > 0.0
    ensures var r := Trade(b, signal, next, bf, sf);
            if SoldOnce(b, initial, left) && signal <= 0 then SoldOnce(r, initial, left) else Stuck(r, initial, left)
  {
    if signal > 0 && b.qty == 0.0 {
      BuyingSpends(b, signal, next, bf, sf);
    }
  }

  lemma {:induction false} FirstTripStep(signals: seq<int>, opens: seq<real>, bf: real, sf: real, initial: real, i: nat,
                                         b: Book)
    requires Market(signals, opens, bf) && 0 < i < |opens| && sf <= 0.0 && initial > 0.0 && opens[i] * bf > 0.0
    requires Trips(signals, i - 1) == [] && Held(signals, i - 1)
    requires opens[BlockStart(signals, i - 1) + 1] * bf > 0.0
    requires BoughtOnce(b, initial, Fill(opens, BlockStart(signals, i - 1) + 1, bf))
    ensures var a, r := BlockStart(signals, i - 1), Trade(b, signals[i - 1], opens[i], bf, sf);
            if signals[i - 1] > 0 then BoughtOnce(r, initial, Fill(opens, a + 1, bf))
            else SoldOnce(r, initial, Left(opens, bf, sf, initial, Trip(a, i - 1)))
  {
    var a := BlockStart(signals, i - 1);
    hide Left, Trade, TripFactor, SoldOnce;
    if signals[i - 1] <= 0 {
      BrokeSale(opens, bf, sf, initial, a, i, i - 1, b.qty);
    }
    BoughtStep(b, initial, Fill(opens, a + 1, bf), signals[i - 1], opens[i], bf, sf,
               Left(opens, bf, sf, initial, Trip(a, i - 1)));
  }

  lemma {:induction false} BrokeStep(signals: seq<int>, opens: seq<real>, bf: real, sf: real, initial: real, i: nat,
                                     b: Book)
    requires Market(signals, opens, bf) && 0 < i < |opens| && sf <= 0.0 && initial > 0.0 && opens[i] * bf != 0.0
    requires Broke(signals, opens, bf, sf, initial, i - 1, b)
    ensures Broke(signals, opens, bf, sf, initial, i, Trade(b, signals[i - 1], opens[i], bf, sf))
  {
    TripsInRange(signals, opens, i);
    Fillable(opens, i, bf);
    var trips, signal, next := Trips(signals, i - 1), signals[i - 1], opens[i];
    hide Left, Trade, Prices, Market, Untraded, BoughtOnce, Stuck, SoldOnce, TripFactor, Fill, InRange;
    if trips == [] && !Held(signals, i - 1) {
      hide BlockStart;
      UntradedStep(b, initial, signal, next, bf, sf);
      FillIs(opens, i, bf);
      StartIs(signals, i);
    } else if trips == [] {
      Fillable(opens, BlockStart(signals, i - 1) + 1, bf);
      FirstTripStep(signals, opens, bf, sf, initial, i, b);
    } else {
      StuckStep(b, initial, Left(opens, bf, sf, initial, trips[0]), signal, next, bf, sf);
    }
  }

  lemma {:induction false} FillIs(opens: seq<real>, k: nat, bf: real)
    requires k < |opens|
    ensures Fill(opens, k, bf) == opens[k] * bf
  {
  }

  lemma {:induction false} StartIs(signals: seq<int>, i: nat)
    requires 0 < i <= |signals| && !Held(signals, i - 1)
    ensures Held(signals, i) ==> BlockStart(signals, i) == i - 1
  {
  }

  /** After the forced close: the first round trip is all there was. */
  lemma {:induction false} CloseGoesBroke(signals: seq<int>, opens: seq<real>, bf: real, sf: real, initial: real)
    requires Market(signals, opens, bf) && opens != [] && sf <= 0.0 && initial > 0.0
    ensures var m := |opens| - 1; var trips := AllTrips(signals, m);
            var b := ForceClose(Walk(signals, opens, bf, sf, initial, m), opens[m], sf);
            && InRange(opens, trips)
            && if trips == [] then b.cash == initial && b.pnls == []
               else
                 var left := Left(opens, bf, sf, initial, trips[0]);
                 left <= 0.0 && b.pnls == [left - initial] && b.cash == if |trips| == 1 then left else 0.0
  {
    hide Walk, Left;
    var m := |opens| - 1;
    var b := Walk(signals, opens, bf, sf, initial, m);
    WalkGoesBroke(signals, opens, bf, sf, initial, m);
    TripsInRange(signals, opens, m);
    if Trips(signals, m) == [] && Held(signals, m) {
      BrokeSale(opens, bf, sf, initial, BlockStart(signals, m), m, m, b.qty);
    }
  }

  lemma {:induction false} FactorVanishes(opens: seq<real>, bf: real, sf: real, t: Trip)
    requires Prices(opens) && bf > 0.0 && t.start < t.end < |opens|
    ensures TripFactor(opens, bf, sf, t) == 0.0 <==> sf == 0.0
  {
    Fillable(opens, t.start + 1, bf);
    NonZero(opens[if t.end + 1 < |opens| then t.end + 1 else t.end], sf, opens[t.start + 1] * bf);
  }

  lemma {:induction false} NonZero(a: real, b: real, c: real)
    requires a > 0.0 && c > 0.0
    ensures (a * b) / c == 0.0 <==> b == 0.0
  {
    var q := (a * b) / c;
    assert q * c == a * b;
  }

  lemma {:induction false} GrowthVanishes(opens: seq<real>, bf: real, sf: real, trips: seq<Trip>)
    requires Prices(opens) && bf > 0.0 && InRange(opens, trips)
    ensures Growth(opens, bf, sf, trips) == 0.0 <==> trips != [] && sf == 0.0
  {
    if trips != [] {
      GrowthVanishes(opens, bf, sf, trips[..|trips| - 1]);
      FactorVanishes(opens, bf, sf, trips[|trips| - 1]);
    }
  }

  lemma {:induction false} ProductVanishes(a: real, b: real)
    requires a > 0.0
    ensures a * b == 0.0 <==> b == 0.0
  {
  }

  /** Both sides of the closed form, when the sell factor is not positive. */
  lemma {:induction false} BrokeClosedForm(opens: seq<real>, bf: real, sf: real, initial: real, trips: seq<Trip>,
                                           b: Book)
    requires Prices(opens) && bf > 0.0 && InRange(opens, trips) && sf <= 0.0 && initial > 0.0
    requires if trips == [] then b.cash == initial && b.pnls == []
             else
               var left := Left(opens, bf, sf, initial, trips[0]);
               b.pnls == [left - initial] && b.cash == if |trips| == 1 then left else 0.0
    ensures b.cash == Capital(opens, bf, sf, initial, trips) && Sum(b.pnls) == b.cash - initial <==>
            sf == 0.0 || |trips| <= 1
  {
    GrowthVanishes(opens, bf, sf, trips);
    ProductVanishes(initial, Growth(opens, bf, sf, trips));
    if trips != [] {
      FactorVanishes(opens, bf, sf, trips[0]);
      ProductVanishes(initial, TripFactor(opens, bf, sf, trips[0]));
      SumOne(Left(opens, bf, sf, initial, trips[0]) - initial);
      if |trips| == 1 {
        OneTrip(opens, bf, sf, trips);
      }
    }
    hide Growth, TripFactor, Prices;
  }

  /** The closed form holds exactly when the sell factor is not negative, or there was at most one
      round trip. */
  lemma {:induction false} ClosedFormIsExact(signals: seq<int>, opens: seq<real>, bf: real, sf: real, initial: real)
    requires Market(signals, opens, bf) && opens != [] && initial > 0.0
    ensures var m := |opens| - 1; var trips := AllTrips(signals, m);
            var b := ForceClose(Walk(signals, opens, bf, sf, initial, m), opens[m], sf);
            && InRange(opens, trips)
            && (b.cash == Capital(opens, bf, sf, initial, trips) && Sum(b.pnls) == b.cash - initial
                <==> sf >= 0.0 || |trips| <= 1)
  {
    var m := |opens| - 1;
    var b := ForceClose(Walk(signals, opens, bf, sf, initial, m), opens[m], sf);
    TripsInRange(signals, opens, m);
    hide Walk, ForceClose, Capital, Left, Sum;
    if sf > 0.0 {
      CloseIsAccounted(signals, opens, bf, sf, initial);
    } else {
      CloseGoesBroke(signals, opens, bf, sf, initial);
      BrokeClosedForm(opens, bf, sf, initial, AllTrips(signals, m), b);
    }
  }

  lemma {:induction false} SumOne(x: real)
    ensures Sum([x]) == x
  {
    assert [x][..0] == [];
  }

  lemma {:induction false} OneTrip(opens: seq<real>, bf: real, sf: real, trips: seq<Trip>)
    requires Prices(opens) && bf > 0.0 && InRange(opens, trips) && |trips| == 1
    ensures Growth(opens, bf, sf, trips) == TripFactor(opens, bf, sf, trips[0])
  {
    hide TripFactor;
    assert trips[..0] == [];
  }
}
