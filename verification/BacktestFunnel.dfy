/** The execution funnel is an observer: switching it on changes nothing but the funnel. Every
    phase of a bar commutes with forgetting the funnel, even when it aborts, and so does every
    run. */
module BacktestFunnel {
  import opened Wrappers
  import opened Backtest
  import opened BacktestSafety

  function Blind(st: State): State {
    st.(funnel := None)
  }

  lemma {:induction false} StampIsBlind(st: State, trades: seq<Trade>, at: int, bar: int, price: real, kind: RefType,
                                        reason: Option<string>)
    ensures StampAll(Blind(st), trades, at, bar, price, kind, reason) ==
            Blind(StampAll(st, trades, at, bar, price, kind, reason))
  {
    if trades != [] {
      StampIsBlind(st, trades[..|trades| - 1], at, bar, price, kind, reason);
    }
  }

  lemma {:induction false} MarkIsBlind(w: World, st: State, at: int, bar: int, price: real, kind: RefType)
    ensures MarkPrice(w, Blind(st), at, bar, price, kind) == Blind(MarkPrice(w, st, at, bar, price, kind))
  {
    var st1 := Called(UpdateExcursion(w, st, price), UpdatePrices(price));
    StampIsBlind(st1, w.history(st1.calls), at, bar, price, kind, None);
  }

  lemma {:induction false} CycleOrdersAreBlind(w: World, st: State, orders: seq<Order>, trace: Execution, rt: Runtime,
                                               bar: int, decisionTs: int, at: int, price: real)
    ensures CycleOrders(w, Blind(st), orders, trace, rt, bar, decisionTs, at, price) ==
            Blind(CycleOrders(w, st, orders, trace, rt, bar, decisionTs, at, price))
  {
    if orders != [] {
      CycleOrdersAreBlind(w, st, orders[..|orders| - 1], trace, rt, bar, decisionTs, at, price);
    }
  }

  lemma {:induction false} NativeOrdersAreBlind(w: World, st: State, orders: seq<Order>, rt: Runtime, bar: int, at: int,
                                                price: real)
    ensures NativeOrders(w, Blind(st), orders, rt, bar, at, price) ==
            Blind(NativeOrders(w, st, orders, rt, bar, at, price))
  {
    if orders != [] {
      NativeOrdersAreBlind(w, st, orders[..|orders| - 1], rt, bar, at, price);
    }
  }

  lemma {:induction false} RiskIsBlind(w: World, st: State, bar: int, ts: int, price: real)
    ensures RiskCheck(w, Blind(st), bar, ts, price) ==
            var r := RiskCheck(w, st, bar, ts, price); Step(Blind(r.st), r.err)
  {
    var st1 := Called(st, CheckAll);
    StampIsBlind(st1, w.history(st1.calls), ts, bar, price, BarOpen, Some("circuit_breaker"));
  }

  function BlindOutcome(o: Outcome): Outcome {
    Outcome(Blind(o.st), o.row, o.err)
  }

  lemma {:induction false} CycleBarIsBlind(w: World, c: Config, st: State, row: FunnelRow, rt: Runtime, rows: seq<Row>,
                                           bar: int, at: int, price: real, halted: bool)
    requires 0 < bar <= |rows|
    ensures CycleBar(w, c, Blind(st), row, rt, rows, bar, at, price, halted) ==
            BlindOutcome(CycleBar(w, c, st, row, rt, rows, bar, at, price, halted))
  {
    hide CycleSnapshot;
    var quantity := CycleQuantity(w.position(st.calls));
    if quantity.Some? {
      var decision := rows[bar - 1];
      var obs := Observation(bar - 1, decision.raw.ts + c.delta, decision.raw, []);
      var st1 := Called(st, Execute(rt, RawPrefix(rows, bar), obs, Some(CycleSnapshot(w, st.calls, quantity.value))));
      var x := w.execution(st1.calls);
      CycleOrdersAreBlind(w, st1, x.orders, x, rt, bar, decision.raw.ts, at, price);
      var st2 := CycleOrders(w, st1, x.orders, x, rt, bar, decision.raw.ts, at, price);
      StampIsBlind(st2, w.history(st2.calls), at, bar, price, BarOpen, None);
    }
  }

  lemma {:induction false} NativeBarIsBlind(w: World, c: Config, st: State, row: FunnelRow, intent: Intent,
                                            rows: seq<Row>, bar: int, at: int, price: real)
    requires 0 < bar <= |rows|
    ensures NativeBar(w, c, Blind(st), row, intent, rows, bar, at, price) ==
            BlindOutcome(NativeBar(w, c, st, row, intent, rows, bar, at, price))
  {
    var decision := rows[bar - 1];
    var obs := Observation(bar - 1, decision.raw.ts + c.delta, decision.raw, decision.features);
    var st1 := Called(st, Execute(intent.runtime, RawPrefix(rows, bar), obs, None));
    var x := w.execution(st1.calls);
    var st2 := st1.(signalLog := st1.signalLog +
                      [SignalEntry(decision.raw.ts, at, price, if intent.signal == 1 then BUY else SELL, false, x)]);
    NativeOrdersAreBlind(w, st2, x.orders, intent.runtime, bar, at, price);
    var st3 := NativeOrders(w, st2, x.orders, intent.runtime, bar, at, price);
    StampIsBlind(st3, w.history(st3.calls), at, bar, price, BarOpen, None);
  }

  lemma {:induction false} IntendIsBlind(w: World, c: Config, t: Table, start: int, st: State, bar: int, on: bool)
    requires ValidTable(t) && 0 <= start <= bar <= |t.rows| && c.freq > 0
    ensures Intend(w, c, t, start, Blind(st), bar, on) ==
            var r := Intend(w, c, t, start, st, bar, on); Routed(Blind(r.st), r.intent, r.err)
  {
  }

  lemma {:induction false} ActIsBlind(w: World, c: Config, t: Table, start: int, st: State, row: FunnelRow,
                                      intent: Intent, bar: int, tick: Tick, status: Status, cooldown: bool)
    requires ValidTable(t) && 0 <= start <= bar <= |t.rows| && c.freq > 0
    ensures ActOn(w, c, t, start, Blind(st), row, intent, bar, tick, status, cooldown) ==
            BlindOutcome(ActOn(w, c, t, start, st, row, intent, bar, tick, status, cooldown))
  {
    hide CycleBar, NativeBar, Preset;
    var due := Due(start, c.freq, bar);
    if due {
      var row1 := Preset(row, bar == start, intent.runtime.cycle && due, due, intent.signal, status.breaker, cooldown);
      CycleBarIsBlind(w, c, st, row1, intent.runtime, t.rows, bar, tick.ts, tick.open,
                      status.breaker || status.cooldown);
      NativeBarIsBlind(w, c, st, row1, intent, t.rows, bar, tick.ts, tick.open);
    }
  }

  lemma {:induction false} DecideIsBlind(w: World, c: Config, t: Table, start: int, st: State, bar: int, tick: Tick)
    requires ValidTable(t) && 0 <= start <= bar <= |t.rows| && c.freq > 0
    ensures DecideBar(w, c, t, start, Blind(st), bar, tick) == BlindOutcome(DecideBar(w, c, t, start, st, bar, tick))
  {
    hide MarkPrice, RiskCheck, Intend, ActOn;
    MarkIsBlind(w, Called(st, SetClock(tick.ts)), tick.ts, bar, tick.open, BarOpen);
    var (st1, row) := Opening(w, st, bar, tick.ts, tick.open);
    RiskIsBlind(w, st1, bar, tick.ts, tick.open);
    var risk := RiskCheck(w, st1, bar, tick.ts, tick.open);
    var checked := st1.calls + [CheckAll];
    IntendIsBlind(w, c, t, start, risk.st, bar, w.status(checked).breaker);
    var routed := Intend(w, c, t, start, risk.st, bar, w.status(checked).breaker);
    ActIsBlind(w, c, t, start, routed.st, row, routed.intent, bar, tick, w.status(checked),
               CooldownAlert(w.alerts(checked)));
  }

  lemma {:induction false} CloseIsBlind(w: World, c: Config, st: State, row: FunnelRow, bar: int, raw: Raw)
    ensures CloseBar(w, c, Blind(st), row, bar, raw) == Blind(CloseBar(w, c, st, row, bar, raw))
  {
    hide MarkPrice;
    var at := raw.ts + c.delta;
    var st1 := Called(st, SetClock(at));
    MarkIsBlind(w, st1, at, bar, raw.low, BarLow);
    MarkIsBlind(w, if raw.low < raw.open then MarkPrice(w, st1, at, bar, raw.low, BarLow) else st1, at, bar, raw.close,
                BarClose);
  }

  /** With or without the funnel a run makes the same calls, keeps the same logs and fails alike. */
  lemma {:induction false} FunnelIsPassive(w: World, c: Config, t: Table, start: int, bar: int)
    requires ValidTable(t) && 0 <= start <= bar <= |t.rows| && c.freq > 0
    ensures var on, off := RunBars(w, c, t, start, Initial(true), bar), RunBars(w, c, t, start, Initial(false), bar);
            off.st == on.st.(funnel := None) && off.err == on.err
    decreases bar
  {
    hide DecideBar, CloseBar;
    if bar > start {
      FunnelIsPassive(w, c, t, start, bar - 1);
      var on := RunBars(w, c, t, start, Initial(true), bar - 1);
      if on.err.None? {
        var raw := t.rows[bar - 1].raw;
        DecideIsBlind(w, c, t, start, on.st, bar - 1, Tick(raw.ts, raw.open));
        var o := DecideBar(w, c, t, start, on.st, bar - 1, Tick(raw.ts, raw.open));
        CloseIsBlind(w, c, o.st, o.row, bar - 1, raw);
      }
    }
  }
}
