/** The bar-by-bar simulator loop of `scripts/full_system_backtest.py`.

    The execution engine, paper exchange, risk controller and adaptive router are
    deterministic collaborators: whatever they answer is a function of the calls made to them
    so far. `World` holds those answers as arbitrary functions of the call log, so every
    statement about a run holds for every such collaborator. */
module Backtest {
  import opened Arithmetic
  import opened Wrappers

  type Price = x: real | x > 0.0 witness 1.0

  type NonNegative = x: real | x >= 0.0

  datatype Raw = Raw(ts: int, open: real, high: real, low: real, close: real, volume: real)

  /** A row of the data frame after the indicators were added. */
  datatype Row = Row(raw: Raw, features: seq<real>)

  datatype Table = Table(rows: seq<Row>, signals: seq<Option<int>>)

  datatype Runtime = Runtime(name: string, symbol: string, timeframe: string, cycle: bool)

  /** The `simulation` entry of a position's metadata. */
  datatype Excursion = Excursion(entryTime: int, entryBar: int, entryRef: real, low: real, high: real)

  /** `cycle` is what cycle_record_from_position reads: None when it raises. */
  datatype Position = Position(active: bool, quantity: real, owner: Option<string>, cycle: Option<NonNegative>,
                               laterFill: bool, mark: real, simulation: Option<Excursion>)

  datatype Trade = Trade(id: string, entryPrice: Price, entryTime: Option<int>, simulation: Option<Excursion>)

  datatype Side = Buy | Sell

  datatype Order = Order(id: string, side: Side, filled: real, amount: real)

  datatype Execution = Execution(orders: seq<Order>, prepare: string, result: string, signal: string)

  datatype Status = Status(breaker: bool, cooldown: bool)

  datatype Decision = Decision(chosen: Option<string>, allowNew: bool)

  datatype RefType = BarOpen | BarLow | BarClose

  datatype Stamp = Stamp(at: int, bar: int, price: real, kind: RefType, reason: Option<string>,
                         entryTime: int, mae: real, mfe: real)

  datatype Observation = Observation(index: int, at: int, raw: Raw, features: seq<real>)

  datatype Snapshot = Snapshot(equity: real, cash: real, quantity: real, exposure: real)

  /** Everything the simulator does to its collaborators. */
  datatype Call =
    | SetClock(at: int)
    | UpdatePrices(price: real)
    | CheckAll
    | RouteQuery(row: Row, at: int, flat: bool, owner: Option<string>)
    | ProvideRuntime(decision: Decision)
    | Execute(runtime: Runtime, data: seq<Raw>, obs: Observation, snapshot: Option<Snapshot>)
    | Attach(at: int, excursion: Excursion, strategy: string)
    | Touch(at: int)
    | Widen(ref: real, low: real, high: real)
    | StampTrade(id: string, stamp: Stamp)

  type Log = seq<Call>

  datatype World = World(
    position: Log -> Option<Position>,
    equity: Log -> real,
    cash: Log -> real,
    history: Log -> seq<Trade>,
    alerts: Log -> seq<string>,
    status: Log -> Status,
    decision: Log -> Decision,
    runtime: Log -> Option<Runtime>,
    execution: Log -> Execution)

  datatype Config = Config(symbol: string, timeframe: string, delta: int, adaptive: bool, routers: bool,
                           provider: bool, runtime: Runtime, freq: int)

  datatype Terminal =
    | NoSignal
    | Bootstrap
    | CycleCheck
    | Cadence
    | CircuitBreaker
    | Cooldown
    | AlreadyLong
    | FlatExit
    | RiskEntryHalt
    | RuntimeResult(result: string)

  datatype Action = HOLD | BUY | SELL | Reported(signal: string)

  datatype FunnelRow = FunnelRow(bar: int, decisionBar: int, action: Action, terminal: Terminal,
                                 called: bool, orders: seq<string>, before: bool, after: bool)

  datatype SignalEntry = SignalEntry(decisionTs: int, executedAt: int, price: real, side: Action, cycle: bool,
                                     trace: Execution)

  datatype TradeEntry = TradeEntry(at: int, side: Side, amount: real, price: real, pnl: real, equity: real)

  datatype Entry = Entry(price: real, amount: real, strategy: string)

  datatype Abort =
    | InvalidArguments
    | InvalidWindow
    | MissingAlert
    | MissingRouter
    | MissingProvider
    | NoRuntime
    | RuntimeMismatch
    | CycleRejected

  /** The tracking fields of the simulator, and the calls it has made. */
  datatype State = State(
    calls: Log,
    equityCurve: seq<(int, real)>,
    signalLog: seq<SignalEntry>,
    tradeLog: seq<TradeEntry>,
    breakers: seq<(int, string)>,
    breakerActive: bool,
    entry: Option<Entry>,
    stamped: set<string>,
    routed: seq<Decision>,
    funnel: Option<seq<FunnelRow>>)

  // -------------------------------------------------------------- small readings

  predicate Holds(p: Option<Position>) {
    p.Some? && p.value.active && p.value.quantity > 0.0
  }

  /** A Python string test: does the text contain "Cooldown"? */
  predicate MentionsCooldown(alert: string) {
    exists i :: 0 <= i < |alert| && CooldownStartsAt(alert, i)
  }

  predicate CooldownStartsAt(alert: string, i: nat) {
    i + 8 <= |alert| && alert[i..i + 8] == "Cooldown"
  }

  predicate CooldownAlert(alerts: seq<string>) {
    exists i :: 0 <= i < |alerts| && MentionsCooldown(alerts[i])
  }

  function RawPrefix(rows: seq<Row>, n: nat): (r: seq<Raw>)
    requires n <= |rows|
    ensures |r| == n
  {
    seq(n, i requires 0 <= i < n => rows[i].raw)
  }

  function Called(st: State, c: Call): State {
    st.(calls := st.calls + [c])
  }

  // ------------------------------------------------------------------ stamping

  function StampOf(t: Trade, at: int, bar: int, price: real, kind: RefType, reason: Option<string>): Stamp {
    var entryTime := if t.simulation.Some? then t.simulation.value.entryTime
                     else if t.entryTime.Some? then t.entryTime.value else at;
    var low := if t.simulation.Some? then t.simulation.value.low else t.entryPrice;
    var high := if t.simulation.Some? then t.simulation.value.high else t.entryPrice;
    Stamp(at, bar, price, kind, reason, entryTime,
          (low / t.entryPrice - 1.0) * 100.0, (high / t.entryPrice - 1.0) * 100.0)
  }

  function StampAll(st: State, trades: seq<Trade>, at: int, bar: int, price: real, kind: RefType,
                    reason: Option<string>): State
  {
    if trades == [] then st
    else
      var n := |trades| - 1;
      var front := StampAll(st, trades[..n], at, bar, price, kind, reason);
      if trades[n].id in front.stamped then front
      else Called(front, StampTrade(trades[n].id, StampOf(trades[n], at, bar, price, kind, reason)))
           .(stamped := front.stamped + {trades[n].id})
  }

  function StampNew(w: World, st: State, at: int, bar: int, price: real, kind: RefType, reason: Option<string>): State {
    StampAll(st, w.history(st.calls), at, bar, price, kind, reason)
  }

  // ----------------------------------------------------------------- excursion

  function UpdateExcursion(w: World, st: State, ref: real): State {
    var p := w.position(st.calls);
    if p.Some? && p.value.active && p.value.simulation.Some? then
      var m := p.value.simulation.value;
      Called(st, Widen(ref, Min(m.low, ref), Max(m.high, ref)))
    else st
  }

  function AttachEntry(w: World, st: State, at: int, bar: int, ref: real, strategy: string, preserve: bool): State {
    var p := w.position(st.calls);
    if p.None? || !p.value.active then st
    else if preserve && p.value.laterFill then Called(st, Touch(at))
    else Called(st, Attach(at, Excursion(at, bar, ref, ref, ref), strategy))
  }

  /** Update the excursion, mark the price, stamp the trades that closed on it. */
  function MarkPrice(w: World, st: State, at: int, bar: int, price: real, kind: RefType): State {
    StampNew(w, Called(UpdateExcursion(w, st, price), UpdatePrices(price)), at, bar, price, kind, None)
  }

  // ------------------------------------------------------------------ phases

  /** Clock, funnel row, and the mark at the tradable open. */
  function Opening(w: World, st: State, bar: int, at: int, price: real): (State, FunnelRow) {
    var st1 := Called(st, SetClock(at));
    var row := FunnelRow(bar, bar - 1, HOLD, NoSignal, false, [], Holds(w.position(st1.calls)), false);
    (MarkPrice(w, st1, at, bar, price, BarOpen), row)
  }

  datatype Step = Step(st: State, err: Option<Abort>)

  /** Ask the risk controller, stamp what it closed, log a breaker that just went on. */
  function RiskCheck(w: World, st: State, bar: int, ts: int, price: real): Step {
    var st1 := Called(st, CheckAll);
    var on := w.status(st1.calls).breaker;
    var alerts := w.alerts(st1.calls);
    var st2 := if on then StampNew(w, st1, ts, bar, price, BarOpen, Some("circuit_breaker")) else st1;
    if on && !st.breakerActive then
      if alerts == [] then Step(st2, Some(MissingAlert))
      else Step(st2.(breakers := st2.breakers + [(ts, alerts[0])], breakerActive := on), None)
    else Step(st2.(breakerActive := on), None)
  }

  /** What the bar will act on. */
  datatype Intent = Intent(runtime: Runtime, signal: int, manage: bool)

  datatype Routed = Routed(st: State, intent: Intent, err: Option<Abort>)

  function RouteBar(w: World, c: Config, st: State, row: Row, signal: int): Routed {
    var keep := Intent(c.runtime, signal, false);
    var p := w.position(st.calls);
    var owner := if Holds(p) then p.value.owner else None;
    if !c.routers then Routed(st, keep, Some(MissingRouter))
    else
      var st1 := Called(st, RouteQuery(row, row.raw.ts + c.delta, !Holds(p), owner));
      var d := w.decision(st1.calls);
      var st2 := st1.(routed := st1.routed + [d]);
      var manage := Holds(p) && d.chosen.Some? && d.chosen == owner;
      if d.chosen.Some? && (d.allowNew || manage) then
        if !c.provider then Routed(st2, keep, Some(MissingProvider))
        else
          var st3 := Called(st2, ProvideRuntime(d));
          var r := w.runtime(st3.calls);
          if r.None? then Routed(st3, keep, Some(NoRuntime))
          else if r.value.name != d.chosen.value || r.value.symbol != c.symbol || r.value.timeframe != c.timeframe then
            Routed(st3, keep, Some(RuntimeMismatch))
          else Routed(st3, Intent(r.value, 1, manage), None)
      else Routed(st2, Intent(c.runtime, 0, manage), None)
  }

  function ActionOf(signal: int): Action {
    if signal > 0 then BUY else if signal < 0 then SELL else HOLD
  }

  function Preset(row: FunnelRow, first: bool, cycleDue: bool, due: bool, signal: int, on: bool,
                  cooldown: bool): FunnelRow {
    row.(action := ActionOf(signal),
         terminal := if first then Bootstrap
                     else if cycleDue then CycleCheck
                     else if signal == 0 then NoSignal
                     else if !due then Cadence
                     else if on then CircuitBreaker
                     else if cooldown then Cooldown
                     else row.terminal)
  }

  const REJECTED := {"position_cycle_unknown", "position_cycle_snapshot_unavailable",
                     "position_cycle_clock_unavailable", "bad_observation", "no_price"}

  datatype Outcome = Outcome(st: State, row: FunnelRow, err: Option<Abort>)

  /** Log, attach and book the orders of a fill cycle, in order. */
  function CycleOrders(w: World, st: State, orders: seq<Order>, trace: Execution, rt: Runtime, bar: int,
                       decisionTs: int, at: int, price: real): State
  {
    if orders == [] then st
    else
      var n := |orders| - 1;
      var front := CycleOrders(w, st, orders[..n], trace, rt, bar, decisionTs, at, price);
      var o := orders[n];
      if o.filled <= 0.0 then front
      else
        var st1 := front.(signalLog := front.signalLog +
                            [SignalEntry(decisionTs, at, price, if o.side.Buy? then BUY else SELL, true, trace)]);
        var st2 := if o.side.Buy? then AttachEntry(w, st1, at, bar, price, rt.name, true) else st1;
        st2.(tradeLog := st2.tradeLog + [TradeEntry(at, o.side, o.filled, price, 0.0, w.equity(st2.calls))])
  }

  function CycleSnapshot(w: World, calls: Log, quantity: real): Snapshot {
    var p := w.position(calls);
    var equity := w.equity(calls);
    var mark := if p.Some? && quantity > 0.0 then p.value.mark else 0.0;
    Snapshot(equity, w.cash(calls), quantity, if equity > 0.0 && mark > 0.0 then quantity * mark / equity else 0.0)
  }

  function CycleQuantity(p: Option<Position>): Option<NonNegative> {
    if p.None? then Some(0.0) else p.value.cycle
  }

  /** `_execute_fill_cycle_bar`. */
  function CycleBar(w: World, c: Config, st: State, row: FunnelRow, rt: Runtime, rows: seq<Row>, bar: int, at: int,
                    price: real, halted: bool): Outcome
    requires 0 < bar <= |rows|
  {
    var quantity := CycleQuantity(w.position(st.calls));
    if quantity.None? then Outcome(st, row, Some(CycleRejected))
    else if halted && quantity.value == 0.0 then Outcome(st, row.(action := HOLD, terminal := RiskEntryHalt), None)
    else
      var decision := rows[bar - 1];
      var obs := Observation(bar - 1, decision.raw.ts + c.delta, decision.raw, []);
      var st1 := Called(st, Execute(rt, RawPrefix(rows, bar), obs, Some(CycleSnapshot(w, st.calls, quantity.value))));
      var x := w.execution(st1.calls);
      if x.prepare in REJECTED then Outcome(st1, row, Some(CycleRejected))
      else
        var row1 := row.(called := true, action := Reported(x.signal), terminal := RuntimeResult(x.result));
        if x.orders == [] then Outcome(st1, row1, None)
        else
          var st2 := CycleOrders(w, st1, x.orders, x, rt, bar, decision.raw.ts, at, price);
          Outcome(StampNew(w, st2, at, bar, price, BarOpen, None), row1, None)
  }

  /** What a sale books against the last entry price; nothing without one. */
  function SalePnl(entry: Option<Entry>, price: real): real {
    if entry.Some? then (price - entry.value.price) * entry.value.amount else 0.0
  }

  /** Attach and book the orders of a native signal, in order. */
  function NativeOrders(w: World, st: State, orders: seq<Order>, rt: Runtime, bar: int, at: int, price: real): State {
    if orders == [] then st
    else
      var n := |orders| - 1;
      var front := NativeOrders(w, st, orders[..n], rt, bar, at, price);
      var o := orders[n];
      var amount := if o.filled != 0.0 then o.filled else o.amount;
      if o.side.Buy? then
        var st1 := AttachEntry(w, front, at, bar, price, rt.name, false);
        st1.(entry := Some(Entry(price, amount, rt.name)),
             tradeLog := st1.tradeLog + [TradeEntry(at, Buy, amount, price, 0.0, w.equity(st1.calls))])
      else
        front.(entry := None,
               tradeLog := front.tradeLog +
                 [TradeEntry(at, Sell, amount, price, SalePnl(front.entry, price), w.equity(front.calls))])
  }

  function OrderIds(orders: seq<Order>): (r: seq<string>)
    ensures |r| == |orders|
  {
    seq(|orders|, i requires 0 <= i < |orders| => orders[i].id)
  }

  /** A crossover signal that is due, not halted: skip it or send it to the runtime. */
  function NativeBar(w: World, c: Config, st: State, row: FunnelRow, intent: Intent, rows: seq<Row>, bar: int, at: int,
                     price: real): Outcome
    requires 0 < bar <= |rows|
  {
    var holds := Holds(w.position(st.calls));
    if intent.signal == 0 then Outcome(st, row, None)
    else if intent.signal == 1 && holds && !intent.manage then Outcome(st, row.(terminal := AlreadyLong), None)
    else if intent.signal == -1 && !holds then Outcome(st, row.(terminal := FlatExit), None)
    else
      var decision := rows[bar - 1];
      var obs := Observation(bar - 1, decision.raw.ts + c.delta, decision.raw, decision.features);
      var st1 := Called(st, Execute(intent.runtime, RawPrefix(rows, bar), obs, None));
      var x := w.execution(st1.calls);
      var st2 := st1.(signalLog := st1.signalLog +
                        [SignalEntry(decision.raw.ts, at, price, if intent.signal == 1 then BUY else SELL, false, x)]);
      var row1 := row.(called := true, terminal := RuntimeResult(x.result), orders := OrderIds(x.orders));
      var st3 := NativeOrders(w, st2, x.orders, intent.runtime, bar, at, price);
      Outcome(StampNew(w, st3, at, bar, price, BarOpen, None), row1, None)
  }

  predicate Due(start: int, freq: int, bar: int)
    requires freq > 0
  {
    bar > start && (bar - 1) % freq == 0
  }

  predicate ValidTable(t: Table) {
    |t.signals| == |t.rows|
  }

  /** The signal of the prior closed bar; nothing is known at the first bar. */
  function SignalAt(t: Table, start: int, bar: int): int
    requires ValidTable(t) && 0 <= start <= bar <= |t.rows|
  {
    if bar > start && t.signals[bar - 1].Some? then t.signals[bar - 1].value else 0
  }

  /** What row i contributes before its own bar is over: timestamp and open. */
  datatype Tick = Tick(ts: int, open: real)

  /** Route the bar when adaptive routing is on; otherwise keep the fixed runtime and signal. */
  function Intend(w: World, c: Config, t: Table, start: int, st: State, bar: int, on: bool): Routed
    requires ValidTable(t) && 0 <= start <= bar <= |t.rows| && c.freq > 0
  {
    if c.adaptive && Due(start, c.freq, bar) && !on then
      RouteBar(w, c, st, t.rows[bar - 1], SignalAt(t, start, bar))
    else Routed(st, Intent(c.runtime, SignalAt(t, start, bar), false), None)
  }

  /** The branch a bar takes once its intent is known. */
  function ActOn(w: World, c: Config, t: Table, start: int, st: State, row: FunnelRow, intent: Intent, bar: int,
                 tick: Tick, status: Status, cooldown: bool): Outcome
    requires ValidTable(t) && 0 <= start <= bar <= |t.rows| && c.freq > 0
  {
    var due := Due(start, c.freq, bar);
    var row1 := Preset(row, bar == start, intent.runtime.cycle && due, due, intent.signal, status.breaker, cooldown);
    if intent.runtime.cycle && due then
      CycleBar(w, c, st, row1, intent.runtime, t.rows, bar, tick.ts, tick.open, status.breaker || status.cooldown)
    else if due && !status.breaker && !cooldown then
      NativeBar(w, c, st, row1, intent, t.rows, bar, tick.ts, tick.open)
    else Outcome(st, row1, None)
  }

  /** Everything of bar i up to and including its decision. Only rows before i are read. */
  function DecideBar(w: World, c: Config, t: Table, start: int, st: State, bar: int, tick: Tick): Outcome
    requires ValidTable(t) && 0 <= start <= bar <= |t.rows| && c.freq > 0
  {
    var (st1, row) := Opening(w, st, bar, tick.ts, tick.open);
    var risk := RiskCheck(w, st1, bar, tick.ts, tick.open);
    if risk.err.Some? then Outcome(risk.st, row, risk.err)
    else
      var checked := st1.calls + [CheckAll];
      var routed := Intend(w, c, t, start, risk.st, bar, w.status(checked).breaker);
      if routed.err.Some? then Outcome(routed.st, row, routed.err)
      else
        ActOn(w, c, t, start, routed.st, row, routed.intent, bar, tick, w.status(checked),
              CooldownAlert(w.alerts(checked)))
  }

  /** The rest of the bar: adverse excursion at the low, mark at the close, equity, funnel. */
  function CloseBar(w: World, c: Config, st: State, row: FunnelRow, bar: int, raw: Raw): State {
    var at := raw.ts + c.delta;
    var st1 := Called(st, SetClock(at));
    var st2 := if raw.low < raw.open then MarkPrice(w, st1, at, bar, raw.low, BarLow) else st1;
    var st3 := MarkPrice(w, st2, at, bar, raw.close, BarClose);
    st3.(equityCurve := st3.equityCurve + [(at, w.equity(st3.calls))],
         funnel := if st3.funnel.None? then None
                   else Some(st3.funnel.value + [row.(after := Holds(w.position(st3.calls)))]))
  }

  /** One bar, in full. */
  function Bar(w: World, c: Config, t: Table, start: int, st: State, bar: int): Step
    requires ValidTable(t) && 0 <= start <= bar < |t.rows| && c.freq > 0
  {
    var raw := t.rows[bar].raw;
    var o := DecideBar(w, c, t, start, st, bar, Tick(raw.ts, raw.open));
    if o.err.Some? then Step(o.st, o.err) else Step(CloseBar(w, c, o.st, o.row, bar, raw), None)
  }

  /** Bars start .. bar - 1; a bar that aborts ends the run. */
  function RunBars(w: World, c: Config, t: Table, start: int, st: State, bar: int): Step
    requires ValidTable(t) && 0 <= start <= bar <= |t.rows| && c.freq > 0
    decreases bar
  {
    if bar == start then Step(st, None)
    else
      var before := RunBars(w, c, t, start, st, bar - 1);
      if before.err.Some? then before else Bar(w, c, t, start, before.st, bar - 1)
  }
}
