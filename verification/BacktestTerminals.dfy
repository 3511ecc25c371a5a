/** What the terminal of a funnel row says about its bar: on every row of every run it names the one
    branch the bar took, and the risk status, signal, router and position that led there. */
module BacktestTerminals {
  import opened Wrappers
  import opened Backtest
  import opened BacktestSafety
  import opened BacktestTimeline

  // ------------------------------------------------------------ what a bar intends

  /** Is the router asked at this bar? */
  predicate Routes(c: Config, start: int, bar: int, on: bool)
    requires c.freq > 0
  {
    c.adaptive && bar > start && (bar - 1) % c.freq == 0 && !on
  }

  /** The last thing done was to fetch the routed runtime. */
  predicate Approved(log: Log) {
    log != [] && log[|log| - 1].ProvideRuntime?
  }

  /** The router manages the open position with the strategy that owns it. */
  predicate Managing(w: World, asked: Log) {
    && asked != [] && asked[|asked| - 1].RouteQuery?
    && !asked[|asked| - 1].flat
    && w.decision(asked).chosen.Some? && w.decision(asked).chosen == asked[|asked| - 1].owner
  }

  /** The router was asked last, and neither chose to open nor to manage. */
  predicate Declined(w: World, log: Log) {
    && log != [] && log[|log| - 1].RouteQuery?
    && (w.decision(log).chosen.Some? ==> !w.decision(log).allowNew && !Managing(w, log))
  }

  /** The bar wants to act: the router approved, or, where it is not asked, the prior closed bar has
      a signal. */
  predicate Wants(c: Config, t: Table, start: int, bar: int, on: bool, log: Log)
    requires ValidTable(t) && 0 <= start <= bar <= |t.rows| && c.freq > 0
  {
    if Routes(c, start, bar, on) then Approved(log) else SignalAt(t, start, bar) != 0
  }

  /** The bar has nothing to do: the router declined, or, where it is not asked, the prior closed
      bar has no signal. */
  predicate Abstains(w: World, c: Config, t: Table, start: int, bar: int, on: bool, log: Log)
    requires ValidTable(t) && 0 <= start <= bar <= |t.rows| && c.freq > 0
  {
    if Routes(c, start, bar, on) then Declined(w, log) else SignalAt(t, start, bar) == 0
  }

  predicate Given(w: World, c: Config, start: int, bar: int, on: bool, log: Log, rt: Runtime)
    requires c.freq > 0
  {
    if !Routes(c, start, bar, on) || Declined(w, log) then rt == c.runtime
    else Approved(log) && w.runtime(log) == Some(rt)
  }

  function Wanted(c: Config, t: Table, start: int, bar: int, on: bool, log: Log): Action
    requires ValidTable(t) && 0 <= start <= bar <= |t.rows| && c.freq > 0
  {
    var signal := SignalAt(t, start, bar);
    if Routes(c, start, bar, on) then (if Approved(log) then BUY else HOLD)
    else if signal >= 1 then BUY else if signal <= -1 then SELL else HOLD
  }

  /** The signal of a bar is that of the bar before it; the first bar has none. */
  lemma {:induction false} SignalIsPrior(t: Table, start: int, bar: int, signal: int)
    requires ValidTable(t) && 0 <= start <= bar <= |t.rows| && signal != 0
    ensures SignalAt(t, start, bar) == signal <==> start < bar && t.signals[bar - 1] == Some(signal)
  {
  }

  /** Some alert has the word in it. */
  ghost predicate SaysCooldown(alerts: seq<string>) {
    exists i, a, b :: 0 <= i < |alerts| && alerts[i] == a + "Cooldown" + b
  }

  lemma {:induction false} CooldownIsSaid(alerts: seq<string>)
    ensures CooldownAlert(alerts) <==> SaysCooldown(alerts)
  {
    if i :| 0 <= i < |alerts| && MentionsCooldown(alerts[i]) {
      var j: nat :| j < |alerts[i]| && CooldownStartsAt(alerts[i], j);
      assert alerts[i] == alerts[i][..j] + "Cooldown" + alerts[i][j + 8..];
    }
    if i, a, b :| 0 <= i < |alerts| && alerts[i] == a + "Cooldown" + b {
      assert alerts[i][|a|..|a| + 8] == "Cooldown";
      assert CooldownStartsAt(alerts[i], |a|);
    }
  }

  // ------------------------------------------------------------- what a row says

  predicate Long(p: Option<Position>) {
    match p
    case None => false
    case Some(x) => x.active && x.quantity > 0.0
  }

  /** The ids of the orders, in order. */
  ghost predicate Names(ids: seq<string>, orders: seq<Order>) {
    |ids| == |orders| && forall i :: 0 <= i < |ids| ==> ids[i] == orders[i].id
  }

  /** The runtime was called at position k of the log, with this result. */
  ghost predicate RanAt(w: World, c: Config, t: Table, start: int, row: FunnelRow, on: bool, log: Log, k: nat)
    requires ValidTable(t) && 0 <= start <= row.bar <= |t.rows| && c.freq > 0
  {
    && k < |log| && log[k].Execute? && log[k].obs.index == row.bar - 1
    && row.terminal == RuntimeResult(w.execution(log[..k + 1]).result)
    && Given(w, c, start, row.bar, on, log[..k], log[k].runtime)
    && (if log[k].runtime.cycle then
          row.action == Reported(w.execution(log[..k + 1]).signal) && row.orders == []
        else
          && Wants(c, t, start, row.bar, on, log[..k]) && row.action == Wanted(c, t, start, row.bar, on, log[..k])
          && Names(row.orders, w.execution(log[..k + 1]).orders))
  }

  ghost predicate Ran(w: World, c: Config, t: Table, start: int, row: FunnelRow, on: bool, log: Log)
    requires ValidTable(t) && 0 <= start <= row.bar <= |t.rows| && c.freq > 0
  {
    exists k: nat :: RanAt(w, c, t, start, row, on, log, k)
  }

  /** `risk` is the log up to the bar's risk check, `log` the log up to its decision. */
  ghost predicate Means(w: World, c: Config, t: Table, start: int, row: FunnelRow, risk: Log, log: Log)
    requires ValidTable(t) && 0 <= start <= row.bar <= |t.rows| && c.freq > 0
  {
    var bar, on, cooldown := row.bar, w.status(risk).breaker, SaysCooldown(w.alerts(risk));
    var due, signal := bar > start && (bar - 1) % c.freq == 0, SignalAt(t, start, bar);
    var p := w.position(log);
    var long := Long(p);
    && (row.terminal == Bootstrap <==> bar == start)
    && (row.called <==> row.terminal.RuntimeResult?)
    && (!row.called ==> row.orders == [])
    && (row.terminal.RuntimeResult? || row.terminal.RiskEntryHalt? ||
        row.action == Wanted(c, t, start, bar, on, log))
    && match row.terminal
       case Bootstrap => true
       case NoSignal => Abstains(w, c, t, start, bar, on, log)
       case Cadence => !due && signal != 0
       case CircuitBreaker => due && on && signal != 0
       case Cooldown => due && !on && cooldown && Wants(c, t, start, bar, on, log)
       case AlreadyLong =>
         && due && !on && !cooldown && long
         && (if Routes(c, start, bar, on) then Approved(log) && !Managing(w, log[..|log| - 1]) else signal == 1)
       case FlatExit => due && !on && !cooldown && !Routes(c, start, bar, on) && signal == -1 && !long
       case RiskEntryHalt =>
         due && row.action == HOLD && (on || w.status(risk).cooldown) && (p.None? || p.value.cycle == Some(0.0))
       case RuntimeResult(_) => due && Ran(w, c, t, start, row, on, log)
       case CycleCheck => false
  }

  // -------------------------------------------------------------------- one bar

  /** What routing, or leaving it out, makes of a bar. */
  ghost predicate IntentIs(w: World, c: Config, t: Table, start: int, bar: int, on: bool, log: Log, i: Intent)
    requires ValidTable(t) && 0 <= start <= bar <= |t.rows| && c.freq > 0
  {
    if !Routes(c, start, bar, on) then i == Intent(c.runtime, SignalAt(t, start, bar), false)
    else if Approved(log) then
      && w.runtime(log) == Some(i.runtime) && i.signal == 1
      && i.manage == Managing(w, log[..|log| - 1])
    else Declined(w, log) && i.runtime == c.runtime && i.signal == 0
  }

  lemma {:induction false} RouteIs(w: World, c: Config, st: State, row: Row, signal: int)
    requires RouteBar(w, c, st, row, signal).err.None?
    ensures var r := RouteBar(w, c, st, row, signal);
            if Approved(r.st.calls) then
              && w.runtime(r.st.calls) == Some(r.intent.runtime) && r.intent.signal == 1
              && r.intent.manage == Managing(w, r.st.calls[..|r.st.calls| - 1])
            else Declined(w, r.st.calls) && r.intent.runtime == c.runtime && r.intent.signal == 0
  {
    var p := w.position(st.calls);
    var q := RouteQuery(row, row.raw.ts + c.delta, !Holds(p), if Holds(p) then p.value.owner else None);
    hide Holds;
    var asked := st.calls + [q];
    assert (asked + [ProvideRuntime(w.decision(asked))])[..|asked|] == asked;
  }

  lemma {:induction false} IntendIs(w: World, c: Config, t: Table, start: int, st: State, bar: int, on: bool)
    requires ValidTable(t) && 0 <= start <= bar <= |t.rows| && c.freq > 0
    requires Intend(w, c, t, start, st, bar, on).err.None?
    ensures var r := Intend(w, c, t, start, st, bar, on); IntentIs(w, c, t, start, bar, on, r.st.calls, r.intent)
  {
    hide RouteBar, Approved, Declined, Managing;
    if Routes(c, start, bar, on) {
      RouteIs(w, c, st, t.rows[bar - 1], SignalAt(t, start, bar));
    }
  }

  /** A row whose terminal was set without a call. */
  lemma {:induction false} PresetMeans(w: World, c: Config, t: Table, start: int, row: FunnelRow, intent: Intent,
                                       risk: Log, log: Log)
    requires ValidTable(t) && 0 <= start <= row.bar <= |t.rows| && c.freq > 0
    requires !row.called && row.terminal == NoSignal && row.orders == []
    requires IntentIs(w, c, t, start, row.bar, w.status(risk).breaker, log, intent)
    ensures var due, on, cooldown := Due(start, c.freq, row.bar), w.status(risk).breaker, CooldownAlert(w.alerts(risk));
            var r := Preset(row, row.bar == start, intent.runtime.cycle && due, due, intent.signal, on, cooldown);
            && r.bar == row.bar && r.orders == []
            && r.action == Wanted(c, t, start, row.bar, on, log)
            && (intent.signal != 0 <==> Wants(c, t, start, row.bar, on, log))
            && (!(intent.runtime.cycle && due) && (!due || on || cooldown || intent.signal == 0) ==>
                  Means(w, c, t, start, r, risk, log))
  {
    CooldownIsSaid(w.alerts(risk));
  }

  lemma {:induction false} NativeBarStates(w: World, c: Config, st: State, row: FunnelRow, intent: Intent,
                                           rows: seq<Row>, bar: int, at: int, price: real)
    requires 0 < bar <= |rows|
    ensures var r := NativeBar(w, c, st, row, intent, rows, bar, at, price);
            var holds := Holds(w.position(st.calls));
            && r.err.None?
            && if intent.signal == 0 then r == Outcome(st, row, None)
               else if intent.signal == 1 && holds &&
                   !intent.manage then r == Outcome(st, row.(terminal := AlreadyLong), None)
               else if intent.signal == -1 && !holds then r == Outcome(st, row.(terminal := FlatExit), None)
               else
                 var e := NativeCall(c, intent, rows, bar);
                 var x := w.execution(st.calls + [e]);
                 r.row == row.(called := true, terminal := RuntimeResult(x.result), orders := OrderIds(x.orders))
  {
    hide Holds, RawPrefix, OrderIds;
  }

  /** The runtime call of a crossover bar. */
  function NativeCall(c: Config, intent: Intent, rows: seq<Row>, bar: int): Call
    requires 0 < bar <= |rows|
  {
    var decision := rows[bar - 1];
    Execute(intent.runtime, RawPrefix(rows, bar),
            Observation(bar - 1, decision.raw.ts + c.delta, decision.raw, decision.features), None)
  }

  /** A log that starts with the decision's log and the runtime call ran there. */
  lemma {:induction false} CallMeans(w: World, c: Config, t: Table, start: int, row: FunnelRow, intent: Intent,
                                     risk: Log, log: Log, e: Call, after: Log)
    requires ValidTable(t) && 0 <= start <= row.bar <= |t.rows| && c.freq > 0 && Due(start, c.freq, row.bar)
    requires IntentIs(w, c, t, start, row.bar, w.status(risk).breaker, log, intent)
    requires e.Execute? && e.runtime == intent.runtime && e.obs.index == row.bar - 1 && log + [e] <= after
    requires row.called && row.terminal == RuntimeResult(w.execution(log + [e]).result)
    requires var on := w.status(risk).breaker;
             if intent.runtime.cycle then row.action == Reported(w.execution(log + [e]).signal) && row.orders == []
             else intent.signal != 0 && row.action == Wanted(c, t, start, row.bar, on, log) &&
                    Names(row.orders, w.execution(log + [e]).orders)
    ensures Means(w, c, t, start, row, risk, after)
  {
    assert after[..|log| + 1] == log + [e] && after[|log|] == e && after[..|log|] == log;
    assert RanAt(w, c, t, start, row, w.status(risk).breaker, after, |log|);
  }

  /** Booking and stamping extend the log, and check no risk. */
  ghost predicate Follows(a: Log, b: Log) {
    a <= b && RiskPrefix(b) == RiskPrefix(a)
  }

  lemma {:induction false} StampFollows(w: World, freq: int, st: State, booked: State, at: int, bar: int, price: real)
    requires freq > 0 && Ready(st, at, price) && Plays(st, booked, []) && Calm(w, freq, st, booked)
    ensures Follows(st.calls, StampNew(w, booked, at, bar, price, BarOpen, None).calls)
  {
    hide Ready, OnTime, Timeline, HaltSafe, RisingEdges, Tidy, CountExecutes;
    StillReady(st, booked, at, price);
    StampsOnTime(booked, w.history(booked.calls), at, bar, price, BarOpen, None);
    StillPlays(st, booked, StampNew(w, booked, at, bar, price, BarOpen, None), []);
    CalmStampAll(w, freq, booked, w.history(booked.calls), at, bar, price, BarOpen, None);
  }

  lemma {:induction false} CycleAnswerFollows(w: World, freq: int, st: State, x: Execution, rt: Runtime, bar: int,
                                              decisionTs: int, at: int, price: real)
    requires freq > 0 && Ready(st, at, price)
    ensures var booked := CycleOrders(w, st, x.orders, x, rt, bar, decisionTs, at, price);
            Follows(st.calls, StampNew(w, booked, at, bar, price, BarOpen, None).calls)
  {
    hide CycleOrders, Ready, Plays, Calm, StampNew;
    CycleOrdersOnTime(w, st, x.orders, x, rt, bar, decisionTs, at, price);
    CalmCycleOrders(w, freq, st, x.orders, x, rt, bar, decisionTs, at, price);
    StampFollows(w, freq, st, CycleOrders(w, st, x.orders, x, rt, bar, decisionTs, at, price), at, bar, price);
  }

  lemma {:induction false} NativeAnswerFollows(w: World, freq: int, st: State, orders: seq<Order>, rt: Runtime,
                                               bar: int, at: int, price: real)
    requires freq > 0 && Ready(st, at, price)
    ensures var booked := NativeOrders(w, st, orders, rt, bar, at, price);
            Follows(st.calls, StampNew(w, booked, at, bar, price, BarOpen, None).calls)
  {
    hide NativeOrders, Ready, Plays, Calm, StampNew;
    NativeOrdersOnTime(w, st, orders, rt, bar, at, price);
    CalmNativeOrders(w, freq, st, orders, rt, bar, at, price);
    StampFollows(w, freq, st, NativeOrders(w, st, orders, rt, bar, at, price), at, bar, price);
  }

  lemma {:induction false} RiskPrefixSnoc(calls: Log, e: Call)
    requires !e.CheckAll?
    ensures RiskPrefix(calls + [e]) == RiskPrefix(calls)
  {
    assert (calls + [e])[..|calls|] == calls;
  }

  /** A bar that has been decided: its log, and what its row says about it. */
  ghost predicate Decided(w: World, c: Config, t: Table, start: int, o: Outcome, bar: int, risk: Log)
    requires ValidTable(t) && 0 <= start <= bar <= |t.rows| && c.freq > 0
  {
    o.err.None? ==>
      && RiskPrefix(o.st.calls) == risk && o.row.bar == bar
      && Means(w, c, t, start, o.row, risk, o.st.calls)
  }

  lemma {:induction false} CycleBarMeans(w: World, c: Config, t: Table, start: int, st: State, row: FunnelRow,
                                         intent: Intent, bar: int, tick: Tick, risk: Log)
    requires ValidTable(t) && 0 <= start <= bar <= |t.rows| && c.freq > 0 && Due(start, c.freq, bar)
    requires Ready(st, tick.ts, tick.open) && RiskPrefix(st.calls) == risk
    requires row.bar == bar && !row.called && row.orders == [] && intent.runtime.cycle
    requires IntentIs(w, c, t, start, bar, w.status(risk).breaker, st.calls, intent)
    ensures var halted := w.status(risk).breaker || w.status(risk).cooldown;
            Decided(w, c, t, start,
                    CycleBar(w, c, st, row, intent.runtime, t.rows, bar, tick.ts, tick.open, halted), bar, risk)
  {
    hide CycleBar, CycleCall, CycleOrders, StampNew, Ready, IntentIs, RiskPrefix;
    var rt, halted, quantity := intent.runtime, w.status(risk).breaker || w.status(risk).cooldown,
                                CycleQuantity(w.position(st.calls));
    var o := CycleBar(w, c, st, row, rt, t.rows, bar, tick.ts, tick.open, halted);
    CycleBarStates(w, c, st, row, rt, t.rows, bar, tick.ts, tick.open, halted);
    if o.err.None? && quantity.Some? && !(halted && quantity.value == 0.0) {
      var e := CycleCall(w, c, st, rt, t.rows, bar);
      var st1 := Called(st, e);
      CallOnTime(st, e, tick.ts, tick.open);
      RiskPrefixSnoc(st.calls, e);
      CycleAnswerFollows(w, c.freq, st1, w.execution(st1.calls), rt, bar, t.rows[bar - 1].raw.ts, tick.ts, tick.open);
      CallMeans(w, c, t, start, o.row, intent, risk, st.calls, e, o.st.calls);
    }
  }

  lemma {:induction false} NativeCallFollows(w: World, freq: int, st: State, e: Call, s: SignalEntry, rt: Runtime,
                                             bar: int, at: int, price: real)
    requires freq > 0 && Ready(st, at, price) && e.Execute?
    ensures var st1 := Called(st, e);
            var logged := st1.(signalLog := st1.signalLog + [s]);
            var booked := NativeOrders(w, logged, w.execution(st1.calls).orders, rt, bar, at, price);
            Follows(st1.calls, StampNew(w, booked, at, bar, price, BarOpen, None).calls)
  {
    hide NativeOrders, StampNew, Ready, Follows, Plays;
    var st1 := Called(st, e);
    var logged := st1.(signalLog := st1.signalLog + [s]);
    CallOnTime(st, e, at, price);
    LoggedOnTime(st, st1, logged, at, price);
    NativeAnswerFollows(w, freq, logged, w.execution(st1.calls).orders, rt, bar, at, price);
  }

  /** A crossover bar that calls the runtime. */
  lemma {:induction false} NativeBarCalls(w: World, c: Config, st: State, row: FunnelRow, intent: Intent,
                                          rows: seq<Row>, bar: int, at: int, price: real)
    requires 0 < bar <= |rows| && c.freq > 0 && Ready(st, at, price)
    requires var holds := Holds(w.position(st.calls));
             intent.signal != 0 && !(intent.signal == 1 && holds && !intent.manage) && !(intent.signal == -1 && !holds)
    ensures Follows(st.calls + [NativeCall(c, intent, rows, bar)],
                    NativeBar(w, c, st, row, intent, rows, bar, at, price).st.calls)
  {
    hide Holds, NativeOrders, StampNew, Ready, Follows, RawPrefix;
    var e := NativeCall(c, intent, rows, bar);
    var s := SignalEntry(rows[bar - 1].raw.ts, at, price, if intent.signal == 1 then BUY else SELL, false,
                         w.execution(st.calls + [e]));
    NativeCallFollows(w, c.freq, st, e, s, intent.runtime, bar, at, price);
  }

  lemma {:induction false} NativeBarMeans(w: World, c: Config, t: Table, start: int, st: State, row: FunnelRow,
                                          intent: Intent, bar: int, tick: Tick, risk: Log)
    requires ValidTable(t) && 0 <= start <= bar <= |t.rows| && c.freq > 0 && Due(start, c.freq, bar)
    requires Ready(st, tick.ts, tick.open) && RiskPrefix(st.calls) == risk
    requires !w.status(risk).breaker && !CooldownAlert(w.alerts(risk))
    requires row.bar == bar && !row.called && row.orders == [] && !intent.runtime.cycle
    requires row.action == Wanted(c, t, start, bar, false, st.calls)
    requires row.terminal == NoSignal
    requires IntentIs(w, c, t, start, bar, false, st.calls, intent)
    ensures Decided(w, c, t, start, NativeBar(w, c, st, row, intent, t.rows, bar, tick.ts, tick.open), bar, risk)
  {
    CooldownIsSaid(w.alerts(risk));
    hide NativeBar, Ready, RiskPrefix, CooldownAlert, SaysCooldown;
    var o, holds := NativeBar(w, c, st, row, intent, t.rows, bar, tick.ts, tick.open), Holds(w.position(st.calls));
    NativeBarStates(w, c, st, row, intent, t.rows, bar, tick.ts, tick.open);
    if intent.signal != 0 && !(intent.signal == 1 && holds && !intent.manage) && !(intent.signal == -1 && !holds) {
      hide Means, IntentIs, Wanted;
      var e := NativeCall(c, intent, t.rows, bar);
      NativeBarCalls(w, c, st, row, intent, t.rows, bar, tick.ts, tick.open);
      RiskPrefixSnoc(st.calls, e);
      CallMeans(w, c, t, start, o.row, intent, risk, st.calls, e, o.st.calls);
    }
  }

  lemma {:induction false} ActMeans(w: World, c: Config, t: Table, start: int, st: State, row: FunnelRow,
                                    intent: Intent, bar: int, tick: Tick, risk: Log)
    requires ValidTable(t) && 0 <= start <= bar <= |t.rows| && c.freq > 0
    requires Ready(st, tick.ts, tick.open) && RiskPrefix(st.calls) == risk
    requires row.bar == bar && !row.called && row.terminal == NoSignal && row.orders == []
    requires IntentIs(w, c, t, start, bar, w.status(risk).breaker, st.calls, intent)
    ensures Decided(w, c, t, start,
                    ActOn(w, c, t, start, st, row, intent, bar, tick, w.status(risk),
                          CooldownAlert(w.alerts(risk))), bar, risk)
  {
    hide CycleBar, NativeBar, Means, Ready, IntentIs, RiskPrefix, Wanted, CooldownAlert;
    var due, on, cooldown := Due(start, c.freq, bar), w.status(risk).breaker, CooldownAlert(w.alerts(risk));
    PresetMeans(w, c, t, start, row, intent, risk, st.calls);
    var row1 := Preset(row, bar == start, intent.runtime.cycle && due, due, intent.signal, on, cooldown);
    if intent.runtime.cycle && due {
      CycleBarMeans(w, c, t, start, st, row1, intent, bar, tick, risk);
    } else if due && !on && !cooldown && intent.signal != 0 {
      NativeBarMeans(w, c, t, start, st, row1, intent, bar, tick, risk);
    } else if due && !on && !cooldown {
      NativeBarStates(w, c, st, row1, intent, t.rows, bar, tick.ts, tick.open);
    }
  }

  /** The row of every decided bar is explained by its risk check and its decision. */
  lemma {:induction false} DecideMeans(w: World, c: Config, t: Table, start: int, st: State, bar: int, tick: Tick)
    requires ValidTable(t) && 0 <= start <= bar <= |t.rows| && c.freq > 0 && OnTime(st.calls)
    ensures var o := DecideBar(w, c, t, start, st, bar, tick);
            Decided(w, c, t, start, o, bar, RiskPrefix(o.st.calls))
  {
    hide Opening, RiskCheck, Intend, ActOn, Means, IntentIs, OnTime, Timeline;
    var (st1, row) := Opening(w, st, bar, tick.ts, tick.open);
    OpensOnTime(w, st, bar, tick.ts, tick.open);
    OpeningRow(w, st, bar, tick.ts, tick.open);
    RiskOnTime(w, st1, bar, tick.ts, tick.open);
    var risk := RiskCheck(w, st1, bar, tick.ts, tick.open);
    StillReady(st1, risk.st, tick.ts, tick.open);
    var checked := st1.calls + [CheckAll];
    if risk.err.None? {
      var on := w.status(checked).breaker;
      RiskLog(w, c.freq, st1, bar, tick.ts, tick.open);
      IntendsOnTime(w, c, t, start, risk.st, bar, on);
      IntendKeeps(w, c, t, start, risk.st, bar, on);
      var routed := Intend(w, c, t, start, risk.st, bar, on);
      StillReady(risk.st, routed.st, tick.ts, tick.open);
      if routed.err.None? {
        IntendIs(w, c, t, start, risk.st, bar, on);
        ActMeans(w, c, t, start, routed.st, row, routed.intent, bar, tick, checked);
      }
    }
  }

  lemma {:induction false} OpeningRow(w: World, st: State, bar: int, at: int, price: real)
    ensures var row := Opening(w, st, bar, at, price).1;
            row.bar == bar && !row.called && row.terminal == NoSignal && row.orders == []
  {
  }

  lemma {:induction false} RiskLog(w: World, freq: int, st: State, bar: int, ts: int, price: real)
    requires freq > 0
    ensures RiskPrefix(RiskCheck(w, st, bar, ts, price).st.calls) == st.calls + [CheckAll]
  {
    var st1 := Called(st, CheckAll);
    CalmStampAll(w, freq, st1, w.history(st1.calls), ts, bar, price, BarOpen, Some("circuit_breaker"));
  }

  // ------------------------------------------------------------------- whole runs

  /** A decision log of the row's bar: a prefix that has played the bars before, and the bar's open. */
  ghost predicate ExplainedAt(w: World, c: Config, t: Table, start: int, calls: Log, row: FunnelRow, d: nat)
    requires ValidTable(t) && 0 <= start <= row.bar < |t.rows| && c.freq > 0
  {
    var raw := t.rows[row.bar].raw;
    && d < |calls| && calls[d] == SetClock(raw.ts + c.delta)
    && Timeline(calls[..d]) == Path(c, t, start, row.bar) + [Clock(raw.ts), Mark(raw.open)]
    && Means(w, c, t, start, row, RiskPrefix(calls[..d]), calls[..d])
  }

  /** Whether a position was held when the bar's clock was set. */
  ghost predicate BeginsAt(w: World, c: Config, t: Table, start: int, calls: Log, row: FunnelRow, n: nat)
    requires ValidTable(t) && 0 <= start <= row.bar < |t.rows| && c.freq > 0
  {
    && n < |calls| && calls[n] == SetClock(t.rows[row.bar].raw.ts)
    && Timeline(calls[..n]) == Path(c, t, start, row.bar)
    && (row.before <==> Long(w.position(calls[..n + 1])))
  }

  /** Whether one was held at its end, with everything stamped. */
  ghost predicate EndsAt(w: World, c: Config, t: Table, start: int, calls: Log, row: FunnelRow, n: nat)
    requires ValidTable(t) && 0 <= start <= row.bar < |t.rows| && c.freq > 0
  {
    && n <= |calls| && (n < |calls| ==> calls[n].SetClock?)
    && Timeline(calls[..n]) == Path(c, t, start, row.bar + 1)
    && (row.after <==> Long(w.position(calls[..n])))
  }

  ghost predicate Explained(w: World, c: Config, t: Table, start: int, calls: Log, row: FunnelRow)
    requires ValidTable(t) && 0 <= start <= row.bar < |t.rows| && c.freq > 0
  {
    && (exists d: nat :: ExplainedAt(w, c, t, start, calls, row, d))
    && (exists n: nat :: BeginsAt(w, c, t, start, calls, row, n))
    && (exists n: nat :: EndsAt(w, c, t, start, calls, row, n))
  }

  ghost predicate RowsExplained(w: World, c: Config, t: Table, start: int, calls: Log, rows: seq<FunnelRow>)
    requires ValidTable(t) && 0 <= start && c.freq > 0
  {
    forall k :: 0 <= k < |rows| ==>
      rows[k].bar == start + k && start + k < |t.rows| && Explained(w, c, t, start, calls, rows[k])
  }

  lemma {:induction false} StaysExplained(w: World, c: Config, t: Table, start: int, a: Log, b: Log, row: FunnelRow)
    requires ValidTable(t) && 0 <= start <= row.bar < |t.rows| && c.freq > 0
    requires a <= b && Explained(w, c, t, start, a, row) && (|a| < |b| ==> b[|a|].SetClock?)
    ensures Explained(w, c, t, start, b, row)
  {
    hide Means, Timeline, Path, Long;
    var n: nat :| BeginsAt(w, c, t, start, a, row, n);
    assert b[..n] == a[..n] && b[..n + 1] == a[..n + 1];
    assert BeginsAt(w, c, t, start, b, row, n);
    var m: nat :| EndsAt(w, c, t, start, a, row, m);
    assert b[..m] == a[..m];
    assert EndsAt(w, c, t, start, b, row, m);
    var d: nat :| ExplainedAt(w, c, t, start, a, row, d);
    assert b[..d] == a[..d];
    assert ExplainedAt(w, c, t, start, b, row, d);
  }

  lemma {:induction false} RowsStayExplained(w: World, c: Config, t: Table, start: int, a: Log, b: Log,
                                             rows: seq<FunnelRow>)
    requires ValidTable(t) && 0 <= start && c.freq > 0
    requires a <= b && RowsExplained(w, c, t, start, a, rows) && (|a| < |b| ==> b[|a|].SetClock?)
    ensures RowsExplained(w, c, t, start, b, rows)
  {
    hide Explained, Path, Timeline;
    forall k | 0 <= k < |rows|
      ensures rows[k].bar == start + k && start + k < |t.rows| && Explained(w, c, t, start, b, rows[k])
    {
      var row := rows[k];
      assert row.bar == start + k && start + k < |t.rows| && Explained(w, c, t, start, a, row);
      StaysExplained(w, c, t, start, a, b, row);
    }
  }

  lemma {:induction false} ClosePrefix(w: World, c: Config, st: State, row: FunnelRow, bar: int, raw: Raw)
    requires c.freq > 0 && OnTime(st.calls)
    ensures var r := CloseBar(w, c, st, row, bar, raw);
            && st.calls + [SetClock(raw.ts + c.delta)] <= r.calls
            && r.funnel == if st.funnel.None? then None
                           else Some(st.funnel.value + [row.(after := Holds(w.position(r.calls)))])
  {
    hide MarkPrice, Ready, OnTime, Timeline, Holds;
    var at := raw.ts + c.delta;
    var st1 := Called(st, SetClock(at));
    SetsClock(st, at);
    var st2 := if raw.low < raw.open then MarkPrice(w, st1, at, bar, raw.low, BarLow) else st1;
    if raw.low < raw.open {
      MarksOnTime(w, st1, at, bar, raw.low, BarLow);
      ReadyTicks(st2, at, raw.low);
    }
    MarksOnTime(w, st2, at, bar, raw.close, BarClose);
    var marked := MarkPrice(w, st2, at, bar, raw.close, BarClose);
    assert st1.calls <= st2.calls <= marked.calls;
    CalmClose(w, c, st, bar, raw);
  }

  lemma {:induction false} SameMeaning(w: World, c: Config, t: Table, start: int, row: FunnelRow, risk: Log, log: Log,
                                       after: bool)
    requires ValidTable(t) && 0 <= start <= row.bar <= |t.rows| && c.freq > 0 && Means(w, c, t, start, row, risk, log)
    ensures Means(w, c, t, start, row.(after := after), risk, log)
  {
    if row.terminal.RuntimeResult? {
      var k: nat :| RanAt(w, c, t, start, row, w.status(risk).breaker, log, k);
      assert RanAt(w, c, t, start, row.(after := after), w.status(risk).breaker, log, k);
    }
  }

  lemma {:induction false} NewRowIsExplained(w: World, c: Config, t: Table, start: int, row: FunnelRow, dawn: Log,
                                             decided: Log, calls: Log)
    requires ValidTable(t) && 0 <= start <= row.bar < |t.rows| && c.freq > 0
    requires dawn + [SetClock(t.rows[row.bar].raw.ts)] <= decided
    requires decided + [SetClock(t.rows[row.bar].raw.ts + c.delta)] <= calls
    requires Timeline(dawn) == Path(c, t, start, row.bar)
    requires Timeline(decided) ==
             Path(c, t, start, row.bar) + [Clock(t.rows[row.bar].raw.ts), Mark(t.rows[row.bar].raw.open)]
    requires Timeline(calls) == Path(c, t, start, row.bar + 1)
    requires Means(w, c, t, start, row, RiskPrefix(decided), decided)
    requires row.before <==> Long(w.position(dawn + [SetClock(t.rows[row.bar].raw.ts)]))
    requires row.after <==> Long(w.position(calls))
    ensures Explained(w, c, t, start, calls, row)
  {
    hide Means, Timeline, Path, Long;
    assert calls[..|decided|] == decided;
    assert ExplainedAt(w, c, t, start, calls, row, |decided|);
    var clock := SetClock(t.rows[row.bar].raw.ts);
    assert calls[..|dawn|] == decided[..|dawn|] == dawn;
    assert calls[..|dawn| + 1] == decided[..|dawn| + 1] == dawn + [clock];
    assert calls[|dawn|] == (dawn + [clock])[|dawn|];
    assert BeginsAt(w, c, t, start, calls, row, |dawn|);
    assert calls[..|calls|] == calls;
    assert EndsAt(w, c, t, start, calls, row, |calls|);
  }

  /** A bar begins by setting its clock, and its row notes whether a position is held then. */
  lemma {:induction false} DecideBegins(w: World, c: Config, t: Table, start: int, st: State, bar: int, tick: Tick)
    requires ValidTable(t) && 0 <= start <= bar <= |t.rows| && c.freq > 0 && OnTime(st.calls)
    ensures var o := DecideBar(w, c, t, start, st, bar, tick);
            && st.calls + [SetClock(tick.ts)] <= o.st.calls
            && (o.row.before <==> Long(w.position(st.calls + [SetClock(tick.ts)])))
  {
    hide Opening, RiskCheck, Intend, ActOn, OnTime, Timeline;
    var dawn := Called(st, SetClock(tick.ts));
    var (st1, row) := Opening(w, st, bar, tick.ts, tick.open);
    OpensOnTime(w, st, bar, tick.ts, tick.open);
    OpeningBegins(w, st, bar, tick.ts, tick.open);
    RiskOnTime(w, st1, bar, tick.ts, tick.open);
    var risk := RiskCheck(w, st1, bar, tick.ts, tick.open);
    assert dawn.calls <= st1.calls <= risk.st.calls;
    StillReady(st1, risk.st, tick.ts, tick.open);
    if risk.err.None? {
      var checked := st1.calls + [CheckAll];
      var status, cooldown := w.status(checked), CooldownAlert(w.alerts(checked));
      IntendsOnTime(w, c, t, start, risk.st, bar, status.breaker);
      var routed := Intend(w, c, t, start, risk.st, bar, status.breaker);
      assert risk.st.calls <= routed.st.calls;
      StillReady(risk.st, routed.st, tick.ts, tick.open);
      if routed.err.None? {
        ActsOnTime(w, c, t, start, routed.st, row, routed.intent, bar, tick, status, cooldown);
        var o := ActOn(w, c, t, start, routed.st, row, routed.intent, bar, tick, status, cooldown);
        assert routed.st.calls <= o.st.calls;
        ActKeepsBefore(w, c, t, start, routed.st, row, routed.intent, bar, tick, status, cooldown);
      }
    }
  }

  lemma {:induction false} OpeningBegins(w: World, st: State, bar: int, at: int, price: real)
    requires OnTime(st.calls)
    ensures var (r, row) := Opening(w, st, bar, at, price);
            && st.calls + [SetClock(at)] <= r.calls
            && (row.before <==> Long(w.position(st.calls + [SetClock(at)])))
  {
    hide MarkPrice;
    SetsClock(st, at);
    MarksOnTime(w, Called(st, SetClock(at)), at, bar, price, BarOpen);
  }

  lemma {:induction false} ActKeepsBefore(w: World, c: Config, t: Table, start: int, st: State, row: FunnelRow,
                                          intent: Intent, bar: int, tick: Tick, status: Status, cooldown: bool)
    requires ValidTable(t) && 0 <= start <= bar <= |t.rows| && c.freq > 0
    ensures ActOn(w, c, t, start, st, row, intent, bar, tick, status, cooldown).row.before == row.before
  {
    hide StampNew, CycleOrders, NativeOrders, CycleSnapshot, RawPrefix, OrderIds;
  }

  lemma {:induction false} HoldsIsLong(p: Option<Position>)
    ensures Holds(p) <==> Long(p)
  {
  }

  lemma {:induction false} ClosedPath(w: World, c: Config, t: Table, start: int, st: State, row: FunnelRow, bar: int)
    requires 0 <= start <= bar < |t.rows| && OnTime(st.calls)
    requires Timeline(st.calls) == Path(c, t, start, bar) + [Clock(t.rows[bar].raw.ts), Mark(t.rows[bar].raw.open)]
    ensures Timeline(CloseBar(w, c, st, row, bar, t.rows[bar].raw).calls) == Path(c, t, start, bar + 1)
  {
    hide CloseBar, OnTime, Timeline;
    ClosesOnTime(w, c, st, row, bar, t.rows[bar].raw);
  }

  lemma {:induction false} BarIsExplained(w: World, c: Config, t: Table, start: int, st: State, bar: int)
    requires ValidTable(t) && 0 <= start <= bar < |t.rows| && c.freq > 0
    requires OnTime(st.calls) && Timeline(st.calls) == Path(c, t, start, bar)
    requires Completed(w, c.freq, st, start, bar)
    requires st.funnel.Some? && RowsExplained(w, c, t, start, st.calls, st.funnel.value)
    ensures var r := Bar(w, c, t, start, st, bar).st;
            r.funnel.Some? && RowsExplained(w, c, t, start, r.calls, r.funnel.value)
  {
    hide DecideBar, CloseBar, Means, OnTime, Timeline, Path, RowsExplained;
    var raw := t.rows[bar].raw;
    var tick := Tick(raw.ts, raw.open);
    var o := DecideBar(w, c, t, start, st, bar, tick);
    DecideMeans(w, c, t, start, st, bar, tick);
    DecidesOnTime(w, c, t, start, st, bar, tick);
    DecideBarKeeps(w, c, t, start, st, bar, tick);
    DecideBegins(w, c, t, start, st, bar, tick);
    RowsStayExplained(w, c, t, start, st.calls, o.st.calls, st.funnel.value);
    if o.err.None? {
      ClosePrefix(w, c, o.st, o.row, bar, raw);
      var r := CloseBar(w, c, o.st, o.row, bar, raw);
      RowsStayExplained(w, c, t, start, o.st.calls, r.calls, st.funnel.value);
      var row := o.row.(after := Holds(w.position(r.calls)));
      HoldsIsLong(w.position(r.calls));
      SameMeaning(w, c, t, start, o.row, RiskPrefix(o.st.calls), o.st.calls, row.after);
      ClosedPath(w, c, t, start, o.st, o.row, bar);
      NewRowIsExplained(w, c, t, start, row, st.calls, o.st.calls, r.calls);
      OneMoreRow(w, c, t, start, r.calls, st.funnel.value, row);
    }
  }

  lemma {:induction false} OneMoreRow(w: World, c: Config, t: Table, start: int, calls: Log, rows: seq<FunnelRow>,
                                      row: FunnelRow)
    requires ValidTable(t) && 0 <= start <= row.bar < |t.rows| && c.freq > 0 && row.bar == start + |rows|
    requires RowsExplained(w, c, t, start, calls, rows) && Explained(w, c, t, start, calls, row)
    ensures RowsExplained(w, c, t, start, calls, rows + [row])
  {
    hide Explained;
    var more := rows + [row];
    forall k | 0 <= k < |more|
      ensures more[k].bar == start + k && start + k < |t.rows| && Explained(w, c, t, start, calls, more[k])
    {
      assert k < |rows| ==> more[k] == rows[k];
    }
  }

  /** Every row of the funnel of every run is explained: in particular `no_signal` stays exactly on
      bars whose prior closed bar has no signal, or whose router declined. */
  lemma {:induction false} EveryRowIsExplained(w: World, c: Config, t: Table, start: int, bar: int)
    requires ValidTable(t) && 0 <= start <= bar <= |t.rows| && c.freq > 0
    ensures var st := RunBars(w, c, t, start, Initial(true), bar).st;
            st.funnel.Some? && RowsExplained(w, c, t, start, st.calls, st.funnel.value)
    decreases bar
  {
    hide Bar, RowsExplained, Played, OnTime, Completed;
    if bar == start {
      NoRows(w, c, t, start);
    } else {
      EveryRowIsExplained(w, c, t, start, bar - 1);
      RunIsSafe(w, c, t, start, bar - 1, true);
      RunFollowsThePath(w, c, t, start, bar - 1, true);
      var before := RunBars(w, c, t, start, Initial(true), bar - 1);
      if before.err.None? {
        PlayedOnTime(w, c, t, start, before.st, bar - 1);
        BarIsExplained(w, c, t, start, before.st, bar - 1);
      }
    }
  }

  lemma {:induction false} NoRows(w: World, c: Config, t: Table, start: int)
    requires ValidTable(t) && 0 <= start && c.freq > 0
    ensures RowsExplained(w, c, t, start, [], [])
  {
  }
}
