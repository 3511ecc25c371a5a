/** The simulated day: every bar plays open, then low, then close, on a clock that stands at the
    bar's open and then at its close, and whatever the simulator writes carries that clock and the
    price last marked. */
module BacktestTimeline {
  import opened Wrappers
  import opened Backtest
  import opened BacktestSafety

  datatype Tock = Clock(at: int) | Mark(price: real)

  /** Clock settings and price marks, in order. */
  function Timeline(calls: Log): seq<Tock> {
    if calls == [] then []
    else
      var front, c := Timeline(calls[..|calls| - 1]), calls[|calls| - 1];
      if c.SetClock? then front + [Clock(c.at)]
      else if c.UpdatePrices? then front + [Mark(c.price)]
      else front
  }

  function Now(line: seq<Tock>): Option<int> {
    if line == [] then None
    else if line[|line| - 1].Clock? then Some(line[|line| - 1].at)
    else Now(line[..|line| - 1])
  }

  function Price(line: seq<Tock>): Option<real> {
    if line == [] then None
    else if line[|line| - 1].Mark? then Some(line[|line| - 1].price)
    else Price(line[..|line| - 1])
  }

  // ------------------------------------------------------------------- the reference

  /** One bar: the mark at the open, then at the low if the price fell below it, then at the close. */
  function BarPath(c: Config, raw: Raw): seq<Tock> {
    if raw.low < raw.open then [Clock(raw.ts), Mark(raw.open), Clock(raw.ts + c.delta), Mark(raw.low), Mark(raw.close)]
    else [Clock(raw.ts), Mark(raw.open), Clock(raw.ts + c.delta), Mark(raw.close)]
  }

  function Path(c: Config, t: Table, start: int, bar: int): seq<Tock>
    requires 0 <= start <= bar <= |t.rows|
    decreases bar
  {
    if bar == start then [] else Path(c, t, start, bar - 1) + BarPath(c, t.rows[bar - 1].raw)
  }

  /** Stamps and entries carry the present clock and the present mark. */
  ghost predicate Timed(before: seq<Tock>, c: Call) {
    match c
    case StampTrade(_, s) => Now(before) == Some(s.at) && Price(before) == Some(s.price)
    case Attach(at, m, _) =>
      Now(before) == Some(at) && m.entryTime == at && Price(before) == Some(m.entryRef) == Some(m.low) == Some(m.high)
    case Touch(at) => Now(before) == Some(at)
    case _ => true
  }

  ghost predicate OnTime(calls: Log) {
    forall k :: 0 <= k < |calls| ==> Timed(Timeline(calls[..k]), calls[k])
  }

  /** Sample k was taken when exactly the bars up to start + k had been played. */
  ghost predicate Sampled(w: World, c: Config, t: Table, start: int, calls: Log, curve: seq<(int, real)>, k: nat)
    requires 0 <= start && k < |curve| && start + k < |t.rows|
  {
    exists n: nat :: n <= |calls| && SampledAt(w, c, t, start, calls, curve[k], k, n)
  }

  ghost predicate SampledAt(w: World, c: Config, t: Table, start: int, calls: Log, sample: (int, real), k: nat, n: nat)
    requires 0 <= start && start + k < |t.rows| && n <= |calls|
  {
    && Timeline(calls[..n]) == Path(c, t, start, start + k + 1)
    && sample == (t.rows[start + k].raw.ts + c.delta, w.equity(calls[..n]))
  }

  // ------------------------------------------------------------------ one call at a time

  lemma {:induction false} OneCall(calls: Log, c: Call)
    requires OnTime(calls) && Timed(Timeline(calls), c)
    ensures OnTime(calls + [c])
    ensures Timeline(calls + [c]) ==
            if c.SetClock? then Timeline(calls) + [Clock(c.at)]
            else if c.UpdatePrices? then Timeline(calls) + [Mark(c.price)]
            else Timeline(calls)
  {
    var more := calls + [c];
    assert more[..|calls|] == calls;
    forall k | 0 <= k < |more| ensures Timed(Timeline(more[..k]), more[k]) {
      assert k < |calls| ==> more[..k] == calls[..k];
    }
  }

  lemma {:induction false} OneTock(line: seq<Tock>, x: Tock)
    ensures Now(line + [x]) == if x.Clock? then Some(x.at) else Now(line)
    ensures Price(line + [x]) == if x.Mark? then Some(x.price) else Price(line)
  {
    assert (line + [x])[..|line|] == line;
  }

  /** The log grew on time, played `path`, and the equity curve is as before. */
  ghost predicate Plays(a: State, b: State, path: seq<Tock>) {
    && |a.calls| <= |b.calls| && b.calls[..|a.calls|] == a.calls
    && OnTime(b.calls)
    && Timeline(b.calls) == Timeline(a.calls) + path
    && b.equityCurve == a.equityCurve
  }

  /** Ready to write at this time and price. */
  ghost predicate Ready(st: State, at: int, price: real) {
    OnTime(st.calls) && Now(Timeline(st.calls)) == Some(at) && Price(Timeline(st.calls)) == Some(price)
  }

  lemma {:induction false} PlaysTrans(a: State, b: State, c: State, p: seq<Tock>, q: seq<Tock>)
    requires Plays(a, b, p) && Plays(b, c, q)
    ensures Plays(a, c, p + q)
  {
    hide OnTime, Timeline;
    assert c.calls[..|a.calls|] == c.calls[..|b.calls|][..|a.calls|];
    assert Timeline(a.calls) + p + q == Timeline(a.calls) + (p + q);
  }

  lemma {:induction false} StillPlays(a: State, b: State, c: State, p: seq<Tock>)
    requires Plays(a, b, p) && Plays(b, c, [])
    ensures Plays(a, c, p)
  {
    PlaysTrans(a, b, c, p, []);
    assert p + [] == p;
  }

  lemma {:induction false} StillReady(a: State, b: State, at: int, price: real)
    requires Ready(a, at, price) && Plays(a, b, [])
    ensures Ready(b, at, price)
  {
    assert Timeline(a.calls) + [] == Timeline(a.calls);
  }

  /** A call that is neither clock nor mark. */
  lemma {:induction false} PlainCall(st: State, c: Call)
    requires OnTime(st.calls) && Timed(Timeline(st.calls), c) && !c.SetClock? && !c.UpdatePrices?
    ensures Plays(st, Called(st, c), [])
  {
    OneCall(st.calls, c);
    assert Timeline(st.calls) + [] == Timeline(st.calls);
  }

  /** The clock stands at `at`. */
  ghost predicate Ticking(st: State, at: int) {
    OnTime(st.calls) && Now(Timeline(st.calls)) == Some(at)
  }

  lemma {:induction false} Idle(st: State)
    requires OnTime(st.calls)
    ensures Plays(st, st, [])
  {
    assert Timeline(st.calls) + [] == Timeline(st.calls);
  }

  lemma {:induction false} StillTicking(a: State, b: State, at: int)
    requires Ticking(a, at) && Plays(a, b, [])
    ensures Ticking(b, at)
  {
    assert Timeline(a.calls) + [] == Timeline(a.calls);
  }

  lemma {:induction false} SetsClock(st: State, at: int)
    requires OnTime(st.calls)
    ensures Plays(st, Called(st, SetClock(at)), [Clock(at)]) && Ticking(Called(st, SetClock(at)), at)
  {
    OneCall(st.calls, SetClock(at));
    OneTock(Timeline(st.calls), Clock(at));
  }

  lemma {:induction false} SetsPrice(st: State, at: int, price: real)
    requires Ticking(st, at)
    ensures Plays(st, Called(st, UpdatePrices(price)), [Mark(price)]) &&
            Ready(Called(st, UpdatePrices(price)), at, price)
  {
    OneCall(st.calls, UpdatePrices(price));
    OneTock(Timeline(st.calls), Mark(price));
  }

  lemma {:induction false} WidensOnTime(w: World, st: State, ref: real)
    requires OnTime(st.calls)
    ensures Plays(st, UpdateExcursion(w, st, ref), [])
  {
    Idle(st);
    var r := UpdateExcursion(w, st, ref);
    if r != st {
      PlainCall(st, r.calls[|st.calls|]);
    }
  }

  // ------------------------------------------------------------------------- the phases

  lemma {:induction false} StampsOnTime(st: State, trades: seq<Trade>, at: int, bar: int, price: real, kind: RefType,
                                        reason: Option<string>)
    requires Ready(st, at, price)
    ensures Plays(st, StampAll(st, trades, at, bar, price, kind, reason), [])
  {
    if trades == [] {
      assert Timeline(st.calls) + [] == Timeline(st.calls);
    } else {
      var n := |trades| - 1;
      StampsOnTime(st, trades[..n], at, bar, price, kind, reason);
      var front := StampAll(st, trades[..n], at, bar, price, kind, reason);
      StillReady(st, front, at, price);
      if trades[n].id !in front.stamped {
        PlainCall(front, StampTrade(trades[n].id, StampOf(trades[n], at, bar, price, kind, reason)));
        StillPlays(st, front, StampAll(st, trades, at, bar, price, kind, reason), []);
      }
    }
  }

  lemma {:induction false} MarksOnTime(w: World, st: State, at: int, bar: int, price: real, kind: RefType)
    requires Ticking(st, at)
    ensures Plays(st, MarkPrice(w, st, at, bar, price, kind), [Mark(price)])
    ensures Ready(MarkPrice(w, st, at, bar, price, kind), at, price)
  {
    hide Plays, Ready, UpdateExcursion, StampAll;
    var st1 := UpdateExcursion(w, st, price);
    var st2 := Called(st1, UpdatePrices(price));
    WidensOnTime(w, st, price);
    StillTicking(st, st1, at);
    SetsPrice(st1, at, price);
    PlaysTrans(st, st1, st2, [], [Mark(price)]);
    assert [] + [Mark(price)] == [Mark(price)];
    StampsOnTime(st2, w.history(st2.calls), at, bar, price, kind, None);
    StillPlays(st, st2, MarkPrice(w, st, at, bar, price, kind), [Mark(price)]);
    StillReady(st2, MarkPrice(w, st, at, bar, price, kind), at, price);
  }

  lemma {:induction false} AttachesOnTime(w: World, st: State, at: int, bar: int, ref: real, strategy: string,
                                          preserve: bool)
    requires Ready(st, at, ref)
    ensures Plays(st, AttachEntry(w, st, at, bar, ref, strategy, preserve), [])
  {
    var r := AttachEntry(w, st, at, bar, ref, strategy, preserve);
    assert Timeline(st.calls) + [] == Timeline(st.calls);
    if r != st {
      PlainCall(st, r.calls[|st.calls|]);
    }
  }

  lemma {:induction false} Untouched(a: State, b: State, c: State, path: seq<Tock>)
    requires Plays(a, b, path) && c.calls == b.calls && c.equityCurve == b.equityCurve
    ensures Plays(a, c, path)
  {
  }

  lemma {:induction false} CycleOrdersOnTime(w: World, st: State, orders: seq<Order>, trace: Execution, rt: Runtime,
                                             bar: int, decisionTs: int, at: int, price: real)
    requires Ready(st, at, price)
    ensures Plays(st, CycleOrders(w, st, orders, trace, rt, bar, decisionTs, at, price), [])
  {
    hide AttachEntry;
    if orders == [] {
      assert Timeline(st.calls) + [] == Timeline(st.calls);
    } else {
      var n := |orders| - 1;
      CycleOrdersOnTime(w, st, orders[..n], trace, rt, bar, decisionTs, at, price);
      var front := CycleOrders(w, st, orders[..n], trace, rt, bar, decisionTs, at, price);
      StillReady(st, front, at, price);
      if orders[n].filled > 0.0 {
        var s := SignalEntry(decisionTs, at, price, if orders[n].side.Buy? then BUY else SELL, true, trace);
        var logged := front.(signalLog := front.signalLog + [s]);
        Untouched(st, front, logged, []);
        AttachesOnTime(w, logged, at, bar, price, rt.name, true);
        StillPlays(st, logged, AttachEntry(w, logged, at, bar, price, rt.name, true), []);
      }
    }
  }

  lemma {:induction false} NativeOrdersOnTime(w: World, st: State, orders: seq<Order>, rt: Runtime, bar: int, at: int,
                                              price: real)
    requires Ready(st, at, price)
    ensures Plays(st, NativeOrders(w, st, orders, rt, bar, at, price), [])
  {
    hide AttachEntry;
    if orders == [] {
      assert Timeline(st.calls) + [] == Timeline(st.calls);
    } else {
      var n := |orders| - 1;
      NativeOrdersOnTime(w, st, orders[..n], rt, bar, at, price);
      var front := NativeOrders(w, st, orders[..n], rt, bar, at, price);
      StillReady(st, front, at, price);
      AttachesOnTime(w, front, at, bar, price, rt.name, false);
      StillPlays(st, front, AttachEntry(w, front, at, bar, price, rt.name, false), []);
    }
  }

  lemma {:induction false} OpensOnTime(w: World, st: State, bar: int, at: int, price: real)
    requires OnTime(st.calls)
    ensures var r := Opening(w, st, bar, at, price).0; Plays(st, r, [Clock(at), Mark(price)]) && Ready(r, at, price)
  {
    hide MarkPrice;
    SetsClock(st, at);
    var st1 := Called(st, SetClock(at));
    MarksOnTime(w, st1, at, bar, price, BarOpen);
    PlaysTrans(st, st1, MarkPrice(w, st1, at, bar, price, BarOpen), [Clock(at)], [Mark(price)]);
    assert [Clock(at)] + [Mark(price)] == [Clock(at), Mark(price)];
  }

  lemma {:induction false} RiskOnTime(w: World, st: State, bar: int, ts: int, price: real)
    requires Ready(st, ts, price)
    ensures Plays(st, RiskCheck(w, st, bar, ts, price).st, [])
  {
    var st1 := Called(st, CheckAll);
    PlainCall(st, CheckAll);
    StillReady(st, st1, ts, price);
    var st2 := StampNew(w, st1, ts, bar, price, BarOpen, Some("circuit_breaker"));
    StampsOnTime(st1, w.history(st1.calls), ts, bar, price, BarOpen, Some("circuit_breaker"));
    StillPlays(st, st1, st2, []);
    var r := RiskCheck(w, st, bar, ts, price).st;
    Untouched(st, if w.status(st1.calls).breaker then st2 else st1, r, []);
  }

  lemma {:induction false} AsksOnTime(st: State, e: Call)
    requires OnTime(st.calls) && (e.RouteQuery? || e.ProvideRuntime?)
    ensures Plays(st, Called(st, e), []) && OnTime(Called(st, e).calls)
  {
    PlainCall(st, e);
  }

  lemma {:induction false} RoutesOnTime(w: World, c: Config, st: State, row: Row, signal: int)
    requires OnTime(st.calls)
    ensures Plays(st, RouteBar(w, c, st, row, signal).st, [])
  {
    Idle(st);
    var p := w.position(st.calls);
    var q := RouteQuery(row, row.raw.ts + c.delta, !Holds(p), if Holds(p) then p.value.owner else None);
    hide Plays, OnTime, RouteBar, Holds;
    var st1 := Called(st, q);
    AsksOnTime(st, q);
    var asked := st1.(routed := st1.routed + [w.decision(st1.calls)]);
    Untouched(st, st1, asked, []);
    var provided := Called(asked, ProvideRuntime(w.decision(st1.calls)));
    AsksOnTime(asked, ProvideRuntime(w.decision(st1.calls)));
    StillPlays(st, asked, provided, []);
    RouteStates(w, c, st, row, signal, asked, provided);
  }

  lemma {:induction false} IntendsOnTime(w: World, c: Config, t: Table, start: int, st: State, bar: int, on: bool)
    requires ValidTable(t) && 0 <= start <= bar <= |t.rows| && c.freq > 0 && OnTime(st.calls)
    ensures Plays(st, Intend(w, c, t, start, st, bar, on).st, [])
  {
    hide RouteBar;
    assert Timeline(st.calls) + [] == Timeline(st.calls);
    if Due(start, c.freq, bar) {
      RoutesOnTime(w, c, st, t.rows[bar - 1], SignalAt(t, start, bar));
    }
  }

  /** After the runtime call: the orders, then the stamps. */
  lemma {:induction false} FinishOnTime(w: World, st: State, called: State, booked: State, at: int, bar: int,
                                        price: real)
    requires Ready(st, at, price) && Plays(st, called, []) && Plays(called, booked, [])
    ensures Plays(st, StampNew(w, booked, at, bar, price, BarOpen, None), [])
  {
    StillPlays(st, called, booked, []);
    StillReady(st, booked, at, price);
    StampsOnTime(booked, w.history(booked.calls), at, bar, price, BarOpen, None);
    StillPlays(st, booked, StampNew(w, booked, at, bar, price, BarOpen, None), []);
  }

  lemma {:induction false} CycleAnswerOnTime(w: World, st: State, e: Call, rt: Runtime, bar: int, decisionTs: int,
                                             at: int, price: real)
    requires Ready(st, at, price) && e.Execute?
    ensures var st1 := Called(st, e);
            var x := w.execution(st1.calls);
            && Plays(st, st1, [])
            && var booked := CycleOrders(w, st1, x.orders, x, rt, bar, decisionTs, at, price);
               Plays(st, StampNew(w, booked, at, bar, price, BarOpen, None), [])
  {
    hide Plays, Ready, StampNew, CycleOrders;
    var st1 := Called(st, e);
    CallOnTime(st, e, at, price);
    var x := w.execution(st1.calls);
    CycleOrdersOnTime(w, st1, x.orders, x, rt, bar, decisionTs, at, price);
    FinishOnTime(w, st, st1, CycleOrders(w, st1, x.orders, x, rt, bar, decisionTs, at, price), at, bar, price);
  }

  lemma {:induction false} CycleBarOnTime(w: World, c: Config, st: State, row: FunnelRow, rt: Runtime, rows: seq<Row>,
                                          bar: int, at: int, price: real, halted: bool)
    requires 0 < bar <= |rows| && Ready(st, at, price)
    ensures Plays(st, CycleBar(w, c, st, row, rt, rows, bar, at, price, halted).st, [])
  {
    Idle(st);
    hide Plays, Ready, StampNew, CycleOrders, CycleQuantity, CycleBar, CycleCall;
    CycleBarStates(w, c, st, row, rt, rows, bar, at, price, halted);
    CycleAnswerOnTime(w, st, CycleCall(w, c, st, rt, rows, bar), rt, bar, rows[bar - 1].raw.ts, at, price);
  }

  lemma {:induction false} CallOnTime(st: State, e: Call, at: int, price: real)
    requires Ready(st, at, price) && e.Execute?
    ensures Plays(st, Called(st, e), []) && Ready(Called(st, e), at, price)
  {
    PlainCall(st, e);
    StillReady(st, Called(st, e), at, price);
  }

  lemma {:induction false} NativeAnswerOnTime(w: World, st: State, e: Call, s: SignalEntry, rt: Runtime, bar: int,
                                              at: int, price: real)
    requires Ready(st, at, price) && e.Execute?
    ensures var st1 := Called(st, e);
            var logged := st1.(signalLog := st1.signalLog + [s]);
            var orders := w.execution(st1.calls).orders;
            Plays(st, StampNew(w, NativeOrders(w, logged, orders, rt, bar, at, price), at, bar, price, BarOpen, None),
                  [])
  {
    hide Plays, Ready, StampNew, NativeOrders;
    var st1 := Called(st, e);
    CallOnTime(st, e, at, price);
    var logged := st1.(signalLog := st1.signalLog + [s]);
    var orders := w.execution(st1.calls).orders;
    LoggedOnTime(st, st1, logged, at, price);
    NativeOrdersOnTime(w, logged, orders, rt, bar, at, price);
    FinishOnTime(w, st, logged, NativeOrders(w, logged, orders, rt, bar, at, price), at, bar, price);
  }

  lemma {:induction false} LoggedOnTime(st: State, a: State, b: State, at: int, price: real)
    requires Plays(st, a, []) && Ready(a, at, price) && b.calls == a.calls && b.equityCurve == a.equityCurve
    ensures Plays(st, b, []) && Ready(b, at, price)
  {
  }

  /** A crossover bar either does nothing, or calls the runtime, logs the signal, books and stamps. */
  lemma {:induction false} NativeBarSteps(w: World, c: Config, st: State, row: FunnelRow, intent: Intent,
                                          rows: seq<Row>, bar: int, at: int, price: real, e: Call, s: SignalEntry)
    requires 0 < bar <= |rows|
    requires var raw := rows[bar - 1].raw;
             && e == Execute(intent.runtime, RawPrefix(rows, bar),
                             Observation(bar - 1, raw.ts + c.delta, raw, rows[bar - 1].features), None)
             && s == SignalEntry(raw.ts, at, price, if intent.signal == 1 then BUY else SELL, false,
                                 w.execution(st.calls + [e]))
    ensures var r, st1 := NativeBar(w, c, st, row, intent, rows, bar, at, price).st, Called(st, e);
            var logged := st1.(signalLog := st1.signalLog + [s]);
            var booked := NativeOrders(w, logged, w.execution(st1.calls).orders, intent.runtime, bar, at, price);
            r == st || r == StampNew(w, booked, at, bar, price, BarOpen, None)
  {
    hide StampNew, NativeOrders, RawPrefix, Holds, OrderIds;
  }

  lemma {:induction false} NativeBarOnTime(w: World, c: Config, st: State, row: FunnelRow, intent: Intent,
                                           rows: seq<Row>, bar: int, at: int, price: real)
    requires 0 < bar <= |rows| && Ready(st, at, price)
    ensures Plays(st, NativeBar(w, c, st, row, intent, rows, bar, at, price).st, [])
  {
    Idle(st);
    hide Plays, Ready, StampNew, NativeOrders, NativeBar, RawPrefix;
    var decision := rows[bar - 1];
    var obs := Observation(bar - 1, decision.raw.ts + c.delta, decision.raw, decision.features);
    var e := Execute(intent.runtime, RawPrefix(rows, bar), obs, None);
    var s := SignalEntry(decision.raw.ts, at, price, if intent.signal == 1 then BUY else SELL, false,
                         w.execution(st.calls + [e]));
    NativeBarSteps(w, c, st, row, intent, rows, bar, at, price, e, s);
    NativeAnswerOnTime(w, st, e, s, intent.runtime, bar, at, price);
  }

  lemma {:induction false} ActsOnTime(w: World, c: Config, t: Table, start: int, st: State, row: FunnelRow,
                                      intent: Intent, bar: int, tick: Tick, status: Status, cooldown: bool)
    requires ValidTable(t) && 0 <= start <= bar <= |t.rows| && c.freq > 0 && Ready(st, tick.ts, tick.open)
    ensures Plays(st, ActOn(w, c, t, start, st, row, intent, bar, tick, status, cooldown).st, [])
  {
    hide CycleBar, NativeBar, Preset;
    assert Timeline(st.calls) + [] == Timeline(st.calls);
    var due := Due(start, c.freq, bar);
    var row1 := Preset(row, bar == start, intent.runtime.cycle && due, due, intent.signal, status.breaker, cooldown);
    if intent.runtime.cycle && due {
      CycleBarOnTime(w, c, st, row1, intent.runtime, t.rows, bar, tick.ts, tick.open,
                     status.breaker || status.cooldown);
    } else if due {
      NativeBarOnTime(w, c, st, row1, intent, t.rows, bar, tick.ts, tick.open);
    }
  }

  /** Up to the decision a bar plays its open, and nothing else. */
  lemma {:induction false} DecidesOnTime(w: World, c: Config, t: Table, start: int, st: State, bar: int, tick: Tick)
    requires ValidTable(t) && 0 <= start <= bar <= |t.rows| && c.freq > 0 && OnTime(st.calls)
    ensures Plays(st, DecideBar(w, c, t, start, st, bar, tick).st, [Clock(tick.ts), Mark(tick.open)])
  {
    hide Opening, RiskCheck, Intend, ActOn;
    var opening := [Clock(tick.ts), Mark(tick.open)];
    var (st1, row) := Opening(w, st, bar, tick.ts, tick.open);
    OpensOnTime(w, st, bar, tick.ts, tick.open);
    RiskOnTime(w, st1, bar, tick.ts, tick.open);
    var risk := RiskCheck(w, st1, bar, tick.ts, tick.open);
    StillPlays(st, st1, risk.st, opening);
    StillReady(st1, risk.st, tick.ts, tick.open);
    if risk.err.None? {
      var checked := st1.calls + [CheckAll];
      var status, cooldown := w.status(checked), CooldownAlert(w.alerts(checked));
      IntendsOnTime(w, c, t, start, risk.st, bar, status.breaker);
      var routed := Intend(w, c, t, start, risk.st, bar, status.breaker);
      StillPlays(st, risk.st, routed.st, opening);
      StillReady(risk.st, routed.st, tick.ts, tick.open);
      if routed.err.None? {
        ActsOnTime(w, c, t, start, routed.st, row, routed.intent, bar, tick, status, cooldown);
        StillPlays(st, routed.st, ActOn(w, c, t, start, routed.st, row, routed.intent, bar, tick, status, cooldown).st,
                   opening);
      }
    }
  }

  function ClosePath(c: Config, raw: Raw): seq<Tock> {
    if raw.low < raw.open then [Clock(raw.ts + c.delta), Mark(raw.low), Mark(raw.close)]
    else [Clock(raw.ts + c.delta), Mark(raw.close)]
  }

  lemma {:induction false} ClosesOnTime(w: World, c: Config, st: State, row: FunnelRow, bar: int, raw: Raw)
    requires OnTime(st.calls)
    ensures var r := CloseBar(w, c, st, row, bar, raw);
            && Plays(st, r.(equityCurve := st.equityCurve), ClosePath(c, raw))
            && r.equityCurve == st.equityCurve + [(raw.ts + c.delta, w.equity(r.calls))]
  {
    var r := CloseBar(w, c, st, row, bar, raw);
    PlaysTheClose(w, c, st, bar, raw);
    hide MarkPrice;
    Untouched(st, MarkedClose(w, c, st, bar, raw), r.(equityCurve := st.equityCurve), ClosePath(c, raw));
  }

  lemma {:induction false} PlaysTheClose(w: World, c: Config, st: State, bar: int, raw: Raw)
    requires OnTime(st.calls)
    ensures Plays(st, MarkedClose(w, c, st, bar, raw), ClosePath(c, raw))
  {
    hide Plays, Ready, MarkPrice;
    var at := raw.ts + c.delta;
    SetsClock(st, at);
    var st1 := Called(st, SetClock(at));
    var path := [Clock(at)];
    if raw.low < raw.open {
      var st2 := MarkPrice(w, st1, at, bar, raw.low, BarLow);
      MarksOnTime(w, st1, at, bar, raw.low, BarLow);
      PlaysTrans(st, st1, st2, path, [Mark(raw.low)]);
      ReadyTicks(st2, at, raw.low);
      MarksOnTime(w, st2, at, bar, raw.close, BarClose);
      PlaysTrans(st, st2, MarkPrice(w, st2, at, bar, raw.close, BarClose), path + [Mark(raw.low)], [Mark(raw.close)]);
      assert path + [Mark(raw.low)] + [Mark(raw.close)] == ClosePath(c, raw);
    } else {
      MarksOnTime(w, st1, at, bar, raw.close, BarClose);
      PlaysTrans(st, st1, MarkPrice(w, st1, at, bar, raw.close, BarClose), path, [Mark(raw.close)]);
      assert path + [Mark(raw.close)] == ClosePath(c, raw);
    }
  }

  lemma {:induction false} ReadyTicks(st: State, at: int, price: real)
    requires Ready(st, at, price)
    ensures Ticking(st, at)
  {
  }

  // ------------------------------------------------------------------------ whole runs

  /** What n completed bars leave behind. */
  ghost predicate Played(w: World, c: Config, t: Table, start: int, st: State, bar: int)
    requires 0 <= start <= bar <= |t.rows|
  {
    && OnTime(st.calls)
    && Timeline(st.calls) == Path(c, t, start, bar)
    && |st.equityCurve| == bar - start
    && (forall k :: 0 <= k < |st.equityCurve| ==> Sampled(w, c, t, start, st.calls, st.equityCurve, k))
  }

  /** What an aborted run leaves behind: its last bar has played its open, and nothing else. */
  ghost predicate Aborted(w: World, c: Config, t: Table, start: int, st: State, bar: int)
    requires 0 <= start <= bar <= |t.rows|
  {
    var k := start + |st.equityCurve|;
    && k < bar
    && Timeline(st.calls) == Path(c, t, start, k) + [Clock(t.rows[k].raw.ts), Mark(t.rows[k].raw.open)]
    && (forall j :: 0 <= j < |st.equityCurve| ==> Sampled(w, c, t, start, st.calls, st.equityCurve, j))
  }

  /** The state of a run, by how it ended. */
  ghost predicate RunPlayed(w: World, c: Config, t: Table, start: int, r: Step, bar: int)
    requires 0 <= start <= bar <= |t.rows|
  {
    OnTime(r.st.calls) && if r.err.None? then Played(w, c, t, start, r.st, bar) else Aborted(w, c, t, start, r.st, bar)
  }

  lemma {:induction false} StaysSampled(w: World, c: Config, t: Table, start: int, a: Log, b: Log,
                                        curve: seq<(int, real)>, more: seq<(int, real)>, k: nat)
    requires 0 <= start && k < |curve| <= |more| && start + k < |t.rows| && more[k] == curve[k]
    requires |a| <= |b| && b[..|a|] == a && Sampled(w, c, t, start, a, curve, k)
    ensures Sampled(w, c, t, start, b, more, k)
  {
    var n: nat :| n <= |a| && SampledAt(w, c, t, start, a, curve[k], k, n);
    assert b[..|a|][..n] == b[..n];
    assert SampledAt(w, c, t, start, b, more[k], k, n);
  }

  lemma {:induction false} BarAborts(w: World, c: Config, t: Table, start: int, st: State, decided: State, bar: int)
    requires 0 <= start <= bar < |t.rows| && Played(w, c, t, start, st, bar)
    requires Plays(st, decided, [Clock(t.rows[bar].raw.ts), Mark(t.rows[bar].raw.open)])
    ensures Aborted(w, c, t, start, decided, bar + 1)
  {
    hide OnTime, Timeline, Path, SampledAt;
    forall j | 0 <= j < |decided.equityCurve| ensures Sampled(w, c, t, start, decided.calls, decided.equityCurve, j) {
      StaysSampled(w, c, t, start, st.calls, decided.calls, st.equityCurve, decided.equityCurve, j);
    }
  }

  lemma {:induction false} BarIsPlayed(w: World, c: Config, t: Table, start: int, st: State, bar: int)
    requires ValidTable(t) && 0 <= start <= bar < |t.rows| && c.freq > 0
    requires Played(w, c, t, start, st, bar)
    ensures RunPlayed(w, c, t, start, Bar(w, c, t, start, st, bar), bar + 1)
  {
    var raw := t.rows[bar].raw;
    var tick := Tick(raw.ts, raw.open);
    PlayedOnTime(w, c, t, start, st, bar);
    hide DecideBar, CloseBar, Played, Aborted, OnTime, Timeline;
    DecidesOnTime(w, c, t, start, st, bar, tick);
    var o := DecideBar(w, c, t, start, st, bar, tick);
    if o.err.None? {
      BarEnds(w, c, t, start, st, o.st, o.row, bar);
      PlayedOnTime(w, c, t, start, CloseBar(w, c, o.st, o.row, bar, raw), bar + 1);
    } else {
      BarAborts(w, c, t, start, st, o.st, bar);
    }
  }

  lemma {:induction false} PlayedOnTime(w: World, c: Config, t: Table, start: int, st: State, bar: int)
    requires 0 <= start <= bar <= |t.rows| && Played(w, c, t, start, st, bar)
    ensures OnTime(st.calls) && Timeline(st.calls) == Path(c, t, start, bar)
  {
  }

  lemma {:induction false} BarEnds(w: World, c: Config, t: Table, start: int, st: State, decided: State, row: FunnelRow,
                                   bar: int)
    requires 0 <= start <= bar < |t.rows| && Played(w, c, t, start, st, bar)
    requires Plays(st, decided, [Clock(t.rows[bar].raw.ts), Mark(t.rows[bar].raw.open)])
    ensures Played(w, c, t, start, CloseBar(w, c, decided, row, bar, t.rows[bar].raw), bar + 1)
  {
    hide CloseBar, Path, Sampled, OnTime, Timeline;
    var raw := t.rows[bar].raw;
    ClosesOnTime(w, c, decided, row, bar, raw);
    var r := CloseBar(w, c, decided, row, bar, raw);
    PlaysTrans(st, decided, r.(equityCurve := decided.equityCurve), [Clock(raw.ts), Mark(raw.open)], ClosePath(c, raw));
    assert [Clock(raw.ts), Mark(raw.open)] + ClosePath(c, raw) == BarPath(c, raw);
    CurveGrows(w, c, t, start, st, r, bar);
  }

  lemma {:induction false} CurveGrows(w: World, c: Config, t: Table, start: int, st: State, r: State, bar: int)
    requires 0 <= start <= bar < |t.rows| && Played(w, c, t, start, st, bar)
    requires |st.calls| <= |r.calls| && r.calls[..|st.calls|] == st.calls && OnTime(r.calls)
    requires Timeline(r.calls) == Path(c, t, start, bar) + BarPath(c, t.rows[bar].raw)
    requires r.equityCurve == st.equityCurve + [(t.rows[bar].raw.ts + c.delta, w.equity(r.calls))]
    ensures Played(w, c, t, start, r, bar + 1)
  {
    hide OnTime, Timeline, BarPath;
    forall k | 0 <= k < |r.equityCurve| ensures Sampled(w, c, t, start, r.calls, r.equityCurve, k) {
      if k < |st.equityCurve| {
        StaysSampled(w, c, t, start, st.calls, r.calls, st.equityCurve, r.equityCurve, k);
      } else {
        assert r.calls[..|r.calls|] == r.calls;
        assert SampledAt(w, c, t, start, r.calls, r.equityCurve[k], k, |r.calls|);
      }
    }
  }

  lemma {:induction false} NothingPlayed(w: World, c: Config, t: Table, start: int, funnel: bool)
    requires ValidTable(t) && 0 <= start <= |t.rows| && c.freq > 0
    ensures RunPlayed(w, c, t, start, RunBars(w, c, t, start, Initial(funnel), start), start)
  {
    hide Bar;
  }

  /** One more bar of a run. */
  lemma {:induction false} RunGoesOn(w: World, c: Config, t: Table, start: int, st: State, bar: int)
    requires ValidTable(t) && 0 <= start <= bar < |t.rows| && c.freq > 0
    requires RunPlayed(w, c, t, start, RunBars(w, c, t, start, st, bar), bar)
    ensures RunPlayed(w, c, t, start, RunBars(w, c, t, start, st, bar + 1), bar + 1)
  {
    hide Bar, Played, OnTime, Timeline, Sampled;
    var before := RunBars(w, c, t, start, st, bar);
    if before.err.None? {
      BarIsPlayed(w, c, t, start, before.st, bar);
    }
  }

  /** Every completed run plays exactly the price path of its bars and samples the equity at each
      close; an aborted one does so up to its last bar, of which it plays the open. In every run each
      stamp and entry carries the simulated clock and the current mark. */
  lemma {:induction false} RunFollowsThePath(w: World, c: Config, t: Table, start: int, bar: int, funnel: bool)
    requires ValidTable(t) && 0 <= start <= bar <= |t.rows| && c.freq > 0
    ensures RunPlayed(w, c, t, start, RunBars(w, c, t, start, Initial(funnel), bar), bar)
    decreases bar
  {
    hide RunBars, RunPlayed, Initial;
    if bar == start {
      NothingPlayed(w, c, t, start, funnel);
    } else {
      RunFollowsThePath(w, c, t, start, bar - 1, funnel);
      RunGoesOn(w, c, t, start, Initial(funnel), bar - 1);
    }
  }
}
