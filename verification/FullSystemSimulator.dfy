/** The simulator object itself: its methods update the tracking fields in place, and each is
    proved against the function of `Backtest` that says what it does to them. */
module FullSystemSimulator {
  import opened Arithmetic
  import opened Wrappers
  import opened Backtest
  import opened BacktestSafety
  import BacktestBooks
  import BacktestTimeline
  import BacktestTerminals
  import BacktestProtocol
  import opened BacktestFunnel

  class Simulator {
    const world: World
    const config: Config
    var calls: Log
    var equityCurve: seq<(int, real)>
    var signalLog: seq<SignalEntry>
    var tradeLog: seq<TradeEntry>
    var breakers: seq<(int, string)>
    var breakerActive: bool
    var entry: Option<Entry>
    var stamped: set<string>
    var routed: seq<Decision>
    var funnel: Option<seq<FunnelRow>>

    ghost function View(): State
      reads this
    {
      State(calls, equityCurve, signalLog, tradeLog, breakers, breakerActive, entry, stamped, routed, funnel)
    }

    constructor (world: World, config: Config, funnelEnabled: bool)
      ensures View() == Initial(funnelEnabled)
      ensures this.world == world && this.config == config
    {
      this.world, this.config := world, config;
      calls, equityCurve, signalLog, tradeLog := [], [], [], [];
      breakers, breakerActive, entry, stamped, routed := [], false, None, {}, [];
      funnel := if funnelEnabled then Some([]) else None;
    }

    method Do(c: Call)
      modifies this
      ensures View() == Called(old(View()), c)
    {
      calls := calls + [c];
    }

    /** Walks the whole trade history; a trade already in the set is skipped. */
    method StampNewTrades(at: int, bar: int, price: real, kind: RefType, reason: Option<string>)
      modifies this
      ensures View() == StampNew(world, old(View()), at, bar, price, kind, reason)
    {
      var trades := world.history(calls);
      ghost var before := View();
      for k := 0 to |trades|
        invariant View() == StampAll(before, trades[..k], at, bar, price, kind, reason)
      {
        assert trades[..k + 1][..k] == trades[..k];
        if trades[k].id !in stamped {
          Do(StampTrade(trades[k].id, StampOf(trades[k], at, bar, price, kind, reason)));
          stamped := stamped + {trades[k].id};
        }
      }
      assert trades[..|trades|] == trades;
    }

    method UpdatePositionExcursion(ref: real)
      modifies this
      ensures View() == UpdateExcursion(world, old(View()), ref)
    {
      var p := world.position(calls);
      if p.None? || !p.value.active || p.value.simulation.None? {
        return;
      }
      var m := p.value.simulation.value;
      Do(Widen(ref, Min(m.low, ref), Max(m.high, ref)));
    }

    method AttachEntryContext(at: int, bar: int, ref: real, strategy: string, preserve: bool)
      modifies this
      ensures View() == AttachEntry(world, old(View()), at, bar, ref, strategy, preserve)
    {
      var p := world.position(calls);
      if p.None? || !p.value.active {
        return;
      }
      if preserve && p.value.laterFill {
        Do(Touch(at));
        return;
      }
      Do(Attach(at, Excursion(at, bar, ref, ref, ref), strategy));
    }

    method Mark(at: int, bar: int, price: real, kind: RefType)
      modifies this
      ensures View() == MarkPrice(world, old(View()), at, bar, price, kind)
    {
      hide StampNew, UpdateExcursion;
      UpdatePositionExcursion(price);
      Do(UpdatePrices(price));
      StampNewTrades(at, bar, price, kind, None);
    }

    method CheckRisk(bar: int, ts: int, price: real) returns (err: Option<Abort>)
      modifies this
      ensures Step(View(), err) == RiskCheck(world, old(View()), bar, ts, price)
    {
      hide StampNew;
      var was := breakerActive;
      Do(CheckAll);
      var alerts, on := world.alerts(calls), world.status(calls).breaker;
      if on {
        StampNewTrades(ts, bar, price, BarOpen, Some("circuit_breaker"));
      }
      if on && !was {
        if alerts == [] {
          return Some(MissingAlert);
        }
        breakers := breakers + [(ts, alerts[0])];
      }
      breakerActive := on;
      return None;
    }

    method RouteAdaptive(row: Row, signal: int, freq: int) returns (intent: Intent, err: Option<Abort>)
      modifies this
      ensures Routed(View(), intent, err) == RouteBar(world, config.(freq := freq), old(View()), row, signal)
    {
      intent, err := Intent(config.runtime, signal, false), None;
      var p := world.position(calls);
      var owner := if Holds(p) then p.value.owner else None;
      if !config.routers {
        return intent, Some(MissingRouter);
      }
      Do(RouteQuery(row, row.raw.ts + config.delta, !Holds(p), owner));
      var d := world.decision(calls);
      routed := routed + [d];
      var manage := Holds(p) && d.chosen.Some? && d.chosen == owner;
      if d.chosen.Some? && (d.allowNew || manage) {
        if !config.provider {
          return intent, Some(MissingProvider);
        }
        Do(ProvideRuntime(d));
        var r := world.runtime(calls);
        if r.None? {
          return intent, Some(NoRuntime);
        }
        if r.value.name != d.chosen.value || r.value.symbol != config.symbol || r.value.timeframe != config.timeframe {
          return intent, Some(RuntimeMismatch);
        }
        intent := Intent(r.value, 1, manage);
      } else {
        intent := Intent(config.runtime, 0, manage);
      }
    }

    method BookCycleOrders(orders: seq<Order>, trace: Execution, rt: Runtime, bar: int, decisionTs: int, at: int,
                           price: real)
      modifies this
      ensures View() == CycleOrders(world, old(View()), orders, trace, rt, bar, decisionTs, at, price)
    {
      hide AttachEntry;
      ghost var before := View();
      for k := 0 to |orders|
        invariant View() == CycleOrders(world, before, orders[..k], trace, rt, bar, decisionTs, at, price)
      {
        assert orders[..k + 1][..k] == orders[..k];
        var o := orders[k];
        if o.filled > 0.0 {
          signalLog := signalLog + [SignalEntry(decisionTs, at, price, if o.side.Buy? then BUY else SELL, true, trace)];
          if o.side.Buy? {
            AttachEntryContext(at, bar, price, rt.name, true);
          }
          tradeLog := tradeLog + [TradeEntry(at, o.side, o.filled, price, 0.0, world.equity(calls))];
        }
      }
      assert orders[..|orders|] == orders;
    }

    /** `_execute_fill_cycle_bar`: the exit of an expired hold still goes through while halted. */
    method ExecuteFillCycleBar(row: FunnelRow, rt: Runtime, rows: seq<Row>, bar: int, at: int, price: real,
                               halted: bool, freq: int) returns (row': FunnelRow, err: Option<Abort>)
      requires 0 < bar <= |rows|
      modifies this
      ensures Outcome(View(), row', err) ==
              CycleBar(world, config.(freq := freq), old(View()), row, rt, rows, bar, at, price, halted)
    {
      hide StampNew, CycleSnapshot, CycleOrders;
      row', err := row, None;
      var quantity := CycleQuantity(world.position(calls));
      if quantity.None? {
        return row, Some(CycleRejected);
      }
      if halted && quantity.value == 0.0 {
        return row.(action := HOLD, terminal := RiskEntryHalt), None;
      }
      var decision := rows[bar - 1];
      var obs := Observation(bar - 1, decision.raw.ts + config.delta, decision.raw, []);
      Do(Execute(rt, RawPrefix(rows, bar), obs, Some(CycleSnapshot(world, calls, quantity.value))));
      var x := world.execution(calls);
      if x.prepare in REJECTED {
        return row, Some(CycleRejected);
      }
      row' := row.(called := true, action := Reported(x.signal), terminal := RuntimeResult(x.result));
      if x.orders != [] {
        BookCycleOrders(x.orders, x, rt, bar, decision.raw.ts, at, price);
        StampNewTrades(at, bar, price, BarOpen, None);
      }
    }

    method BookNativeOrders(orders: seq<Order>, rt: Runtime, bar: int, at: int, price: real)
      modifies this
      ensures View() == NativeOrders(world, old(View()), orders, rt, bar, at, price)
    {
      hide AttachEntry;
      ghost var before := View();
      for k := 0 to |orders|
        invariant View() == NativeOrders(world, before, orders[..k], rt, bar, at, price)
      {
        assert orders[..k + 1][..k] == orders[..k];
        var o := orders[k];
        var amount := if o.filled != 0.0 then o.filled else o.amount;
        if o.side.Buy? {
          AttachEntryContext(at, bar, price, rt.name, false);
          entry := Some(Entry(price, amount, rt.name));
          tradeLog := tradeLog + [TradeEntry(at, Buy, amount, price, 0.0, world.equity(calls))];
        } else {
          var pnl := SalePnl(entry, price);
          entry := None;
          tradeLog := tradeLog + [TradeEntry(at, Sell, amount, price, pnl, world.equity(calls))];
        }
      }
      assert orders[..|orders|] == orders;
    }

    method ExecuteSignal(row: FunnelRow, intent: Intent, rows: seq<Row>, bar: int, at: int, price: real, freq: int)
        returns (row': FunnelRow)
      requires 0 < bar <= |rows|
      modifies this
      ensures Outcome(View(), row', None) ==
              NativeBar(world, config.(freq := freq), old(View()), row, intent, rows, bar, at, price)
    {
      hide StampNew, NativeOrders;
      row' := row;
      if intent.signal == 0 {
        return;
      }
      var holds := Holds(world.position(calls));
      if intent.signal == 1 && holds && !intent.manage {
        return row.(terminal := AlreadyLong);
      }
      if intent.signal == -1 && !holds {
        return row.(terminal := FlatExit);
      }
      var decision := rows[bar - 1];
      var obs := Observation(bar - 1, decision.raw.ts + config.delta, decision.raw, decision.features);
      Do(Execute(intent.runtime, RawPrefix(rows, bar), obs, None));
      var x := world.execution(calls);
      signalLog := signalLog +
        [SignalEntry(decision.raw.ts, at, price, if intent.signal == 1 then BUY else SELL, false, x)];
      row' := row.(called := true, terminal := RuntimeResult(x.result), orders := OrderIds(x.orders));
      BookNativeOrders(x.orders, intent.runtime, bar, at, price);
      StampNewTrades(at, bar, price, BarOpen, None);
    }

    method Act(t: Table, start: int, row: FunnelRow, intent: Intent, bar: int, tick: Tick, status: Status,
               cooldown: bool, freq: int) returns (row': FunnelRow, err: Option<Abort>)
      requires ValidTable(t) && 0 <= start <= bar <= |t.rows| && freq > 0
      modifies this
      ensures Outcome(View(), row', err) ==
              ActOn(world, config.(freq := freq), t, start, old(View()), row, intent, bar, tick, status, cooldown)
    {
      hide CycleBar, NativeBar, Preset;
      var due := Due(start, freq, bar);
      row' := Preset(row, bar == start, intent.runtime.cycle && due, due, intent.signal, status.breaker, cooldown);
      err := None;
      if intent.runtime.cycle && due {
        row', err := ExecuteFillCycleBar(row', intent.runtime, t.rows, bar, tick.ts, tick.open,
                                         status.breaker || status.cooldown, freq);
      } else if due && !status.breaker && !cooldown {
        row' := ExecuteSignal(row', intent, t.rows, bar, tick.ts, tick.open, freq);
      }
    }

    method Decide(t: Table, start: int, bar: int, tick: Tick, freq: int) returns (row: FunnelRow, err: Option<Abort>)
      requires ValidTable(t) && 0 <= start <= bar <= |t.rows| && freq > 0
      modifies this
      ensures Outcome(View(), row, err) == DecideBar(world, config.(freq := freq), t, start, old(View()), bar, tick)
    {
      hide MarkPrice, ActOn, RouteBar, StampNew;
      Do(SetClock(tick.ts));
      row := FunnelRow(bar, bar - 1, HOLD, NoSignal, false, [], Holds(world.position(calls)), false);
      Mark(tick.ts, bar, tick.open, BarOpen);
      ghost var checked := calls + [CheckAll];
      var status, cooldown := world.status(calls + [CheckAll]), CooldownAlert(world.alerts(calls + [CheckAll]));
      err := CheckRisk(bar, tick.ts, tick.open);
      if err.Some? {
        return;
      }
      var intent := Intent(config.runtime, SignalAt(t, start, bar), false);
      if config.adaptive && Due(start, freq, bar) && !status.breaker {
        intent, err := RouteAdaptive(t.rows[bar - 1], SignalAt(t, start, bar), freq);
        if err.Some? {
          return;
        }
      }
      row, err := Act(t, start, row, intent, bar, tick, status, cooldown, freq);
    }

    method Close(row: FunnelRow, bar: int, raw: Raw, freq: int)
      modifies this
      ensures View() == CloseBar(world, config.(freq := freq), old(View()), row, bar, raw)
    {
      hide MarkPrice;
      var at := raw.ts + config.delta;
      Do(SetClock(at));
      if raw.low < raw.open {
        Mark(at, bar, raw.low, BarLow);
      }
      Mark(at, bar, raw.close, BarClose);
      equityCurve := equityCurve + [(at, world.equity(calls))];
      if funnel.Some? {
        funnel := Some(funnel.value + [row.(after := Holds(world.position(calls)))]);
      }
    }

    /** `run`: `end` None means the whole table. */
    method Run(t: Table, start: int, end: Option<int>, freq: int) returns (err: Option<Abort>)
      requires ValidTable(t)
      modifies this
      ensures start < 0 || freq <= 0 ==> err == Some(InvalidArguments) && View() == old(View())
      ensures start >= 0 && freq > 0 ==>
                var stop := if end.Some? && end.value < |t.rows| then end.value else |t.rows|;
                if stop <= start then err == Some(InvalidWindow) && View() == old(View())
                else Step(View(), err) == RunBars(world, config.(freq := freq), t, start, old(View()), stop)
    {
      hide DecideBar, CloseBar;
      if start < 0 || freq <= 0 {
        return Some(InvalidArguments);
      }
      var stop := if end.Some? && end.value < |t.rows| then end.value else |t.rows|;
      if stop <= start {
        return Some(InvalidWindow);
      }
      for bar := start to stop
        invariant Step(View(), None) == RunBars(world, config.(freq := freq), t, start, old(View()), bar)
      {
        var raw := t.rows[bar].raw;
        var row, abort := Decide(t, start, bar, Tick(raw.ts, raw.open), freq);
        if abort.Some? {
          AbortedRunsStay(world, config.(freq := freq), t, start, old(View()), bar + 1, stop);
          return abort;
        }
        Close(row, bar, raw, freq);
      }
      return None;
    }
  }

  /** A bar that aborts is the last one. */
  lemma {:induction false} AbortedRunsStay(w: World, c: Config, t: Table, start: int, st: State, bar: int, stop: int)
    requires ValidTable(t) && 0 <= start <= bar <= stop <= |t.rows| && c.freq > 0
    requires RunBars(w, c, t, start, st, bar).err.Some?
    ensures RunBars(w, c, t, start, st, stop) == RunBars(w, c, t, start, st, bar)
    decreases stop - bar
  {
    hide Bar;
    if bar < stop {
      AbortedRunsStay(w, c, t, start, st, bar, stop - 1);
    }
  }

  /** Where a run over this window ends. */
  function StopOf(t: Table, end: Option<int>): int {
    if end.Some? && end.value < |t.rows| then end.value else |t.rows|
  }

  /** What a caller can rely on after a run from `start`, completed or aborted. */
  ghost predicate Reliable(w: World, c: Config, t: Table, start: int, stop: int, st: State, err: Option<Abort>)
    requires ValidTable(t) && 0 <= start <= stop <= |t.rows| && c.freq > 0
  {
    && HaltSafe(w, c.freq, st.calls)
    && Tidy(st)
    && (err.None? ==> Completed(w, c.freq, st, start, stop))
    && BacktestBooks.Books(w, BacktestBooks.Fills(w, t, st.calls), st)
    && st.signalLog == BacktestBooks.Signals(w, c, t, st.calls)
    && BacktestBooks.CallsInOrder(c, t, st.calls, stop)
    && BacktestBooks.EntriesWritten(w, t, st.calls, |st.calls|)
    && BacktestTimeline.RunPlayed(w, c, t, start, Step(st, err), stop)
    && (st.funnel.Some? ==> BacktestTerminals.RowsExplained(w, c, t, start, st.calls, st.funnel.value))
    && BacktestProtocol.Fine(w, c, t, start, st)
    && err == BacktestProtocol.Fault(w, c, t, start, st.calls)
  }

  lemma {:induction false} RunsAreReliable(w: World, c: Config, t: Table, start: int, stop: int, funnel: bool)
    requires ValidTable(t) && 0 <= start <= stop <= |t.rows| && c.freq > 0
    ensures var r := RunBars(w, c, t, start, Initial(funnel), stop); Reliable(w, c, t, start, stop, r.st, r.err)
  {
    hide RunBars, HaltSafe, Tidy, Completed, BacktestBooks.Books, BacktestBooks.Fills;
    hide BacktestBooks.Signals, BacktestBooks.CallsInOrder, BacktestBooks.EntriesWritten;
    hide BacktestTimeline.RunPlayed, BacktestTerminals.RowsExplained, BacktestProtocol.Fine, BacktestProtocol.Fault;
    RunIsSafe(w, c, t, start, stop, funnel);
    BacktestBooks.RunIsBooked(w, c, t, start, stop, funnel);
    BacktestTimeline.RunFollowsThePath(w, c, t, start, stop, funnel);
    BacktestProtocol.RunIsLawful(w, c, t, start, stop, funnel);
    if funnel {
      BacktestTerminals.EveryRowIsExplained(w, c, t, start, stop);
    } else {
      FunnelStaysOff(w, c, t, start, stop);
    }
  }

  lemma {:induction false} FunnelStaysOff(w: World, c: Config, t: Table, start: int, stop: int)
    requires ValidTable(t) && 0 <= start <= stop <= |t.rows| && c.freq > 0
    ensures RunBars(w, c, t, start, Initial(false), stop).st.funnel.None?
  {
    hide RunBars;
    FunnelIsPassive(w, c, t, start, stop);
  }

  /** A simulator made and run once: what its fields then hold. */
  method RunFresh(world: World, config: Config, funnelEnabled: bool, t: Table, start: int, end: Option<int>, freq: int)
      returns (sim: Simulator, err: Option<Abort>)
    requires ValidTable(t)
    ensures fresh(sim) && sim.world == world && sim.config == config
    ensures err == Some(InvalidArguments) <==> start < 0 || freq <= 0
    ensures err == Some(InvalidWindow) <==> start >= 0 && freq > 0 && StopOf(t, end) <= start
    ensures start < 0 || freq <= 0 || StopOf(t, end) <= start ==> sim.View() == Initial(funnelEnabled)
    ensures start >= 0 && freq > 0 && start < StopOf(t, end) ==>
              Reliable(world, config.(freq := freq), t, start, StopOf(t, end), sim.View(), err)
  {
    hide RunBars, Reliable;
    sim := new Simulator(world, config, funnelEnabled);
    err := sim.Run(t, start, end, freq);
    if start >= 0 && freq > 0 && start < StopOf(t, end) {
      RunsAreReliable(world, config.(freq := freq), t, start, StopOf(t, end), funnelEnabled);
      RunsAreNotRefused(world, config.(freq := freq), t, start, Initial(funnelEnabled), StopOf(t, end));
    }
  }

  predicate Refused(err: Option<Abort>) {
    err == Some(InvalidArguments) || err == Some(InvalidWindow)
  }

  lemma {:induction false} RoutingNeverRefuses(w: World, c: Config, st: State, row: Row, signal: int)
    ensures !Refused(RouteBar(w, c, st, row, signal).err)
  {
  }

  lemma {:induction false} ActingNeverRefuses(w: World, c: Config, t: Table, start: int, st: State, row: FunnelRow,
                                              intent: Intent, bar: int, tick: Tick, status: Status, cooldown: bool)
    requires ValidTable(t) && 0 <= start <= bar <= |t.rows| && c.freq > 0
    ensures !Refused(ActOn(w, c, t, start, st, row, intent, bar, tick, status, cooldown).err)
  {
    hide StampNew, CycleOrders, NativeOrders, CycleSnapshot, RawPrefix, Preset, OrderIds;
  }

  /** Only the checks before the loop refuse a run. */
  lemma {:induction false} RunsAreNotRefused(w: World, c: Config, t: Table, start: int, st: State, bar: int)
    requires ValidTable(t) && 0 <= start <= bar <= |t.rows| && c.freq > 0
    ensures !Refused(RunBars(w, c, t, start, st, bar).err)
    decreases bar
  {
    hide Bar;
    if bar > start {
      RunsAreNotRefused(w, c, t, start, st, bar - 1);
      var before := RunBars(w, c, t, start, st, bar - 1);
      if before.err.None? {
        BarsAreNotRefused(w, c, t, start, before.st, bar - 1);
      }
    }
  }

  lemma {:induction false} BarsAreNotRefused(w: World, c: Config, t: Table, start: int, st: State, bar: int)
    requires ValidTable(t) && 0 <= start <= bar < |t.rows| && c.freq > 0
    ensures !Refused(Bar(w, c, t, start, st, bar).err)
  {
    hide Opening, RouteBar, CloseBar, ActOn, StampNew;
    var raw := t.rows[bar].raw;
    var tick := Tick(raw.ts, raw.open);
    var (st1, row) := Opening(w, st, bar, tick.ts, tick.open);
    var risk := RiskCheck(w, st1, bar, tick.ts, tick.open);
    var checked := st1.calls + [CheckAll];
    if Due(start, c.freq, bar) {
      RoutingNeverRefuses(w, c, risk.st, t.rows[bar - 1], SignalAt(t, start, bar));
    }
    var routed := Intend(w, c, t, start, risk.st, bar, w.status(checked).breaker);
    ActingNeverRefuses(w, c, t, start, routed.st, row, routed.intent, bar, tick, w.status(checked),
                       CooldownAlert(w.alerts(checked)));
  }
}
