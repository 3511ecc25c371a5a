/** No closed trade waits for its stamp. */
module BacktestSweeps {
  // Once a mark, a breaker or the booked answer of a runtime may have closed trades, each trade in
  // the history has its stamp before anything else is done: a later stamp would misdate it.

  import opened Arithmetic
  import opened Wrappers
  import opened Backtest
  import opened BacktestSafety
  import opened BacktestProtocol

  /** The log up to the last runtime call. */
  function AskPrefix(log: Log): Log {
    if log == [] then []
    else if log[|log| - 1].Execute? then log
    else AskPrefix(log[..|log| - 1])
  }

  /** Trades may have closed: a price was marked, a check found the breaker on, or a runtime answered
      with orders. The widening that announces the next mark closes none. */
  predicate MayHaveClosed(w: World, t: Table, start: int, log: Log) {
    && log != [] && !log[|log| - 1].Widen?
    && match StageOf(t, start, log).phase
       case Open => true
       case Low => true
       case Night => true
       case Checked => w.status(RiskPrefix(log)).breaker
       case Ran => AnsweredWithOrders(w, AskPrefix(log))
       case _ => false
  }

  /** Policies other than cycles are always followed up. */
  predicate AnsweredWithOrders(w: World, asked: Log) {
    && asked != [] && asked[|asked| - 1].Execute?
    && (!asked[|asked| - 1].runtime.cycle || w.execution(asked).orders != [])
  }

  ghost predicate Swept(w: World, log: Log) {
    forall trade :: trade in w.history(log) ==> trade.id in StampedIds(log)
  }

  /** Stamps, and the entry contexts of the orders that were just booked. */
  predicate Booking(e: Call) {
    e.StampTrade? || e.Attach? || e.Touch?
  }

  /** Before each other call the trades that may have closed are stamped. */
  ghost predicate Prompt(w: World, t: Table, start: int, log: Log) {
    forall k :: 0 <= k < |log| && !Booking(log[k]) && MayHaveClosed(w, t, start, log[..k]) ==> Swept(w, log[..k])
  }

  ghost predicate Clean(w: World, t: Table, start: int, st: State) {
    && Tidy(st) && Prompt(w, t, start, st.calls)
    && (MayHaveClosed(w, t, start, st.calls) ==> AllStamped(w, st))
  }

  lemma {:induction false} OneMorePrompt(w: World, t: Table, start: int, log: Log, e: Call)
    requires Prompt(w, t, start, log)
    requires !Booking(e) && MayHaveClosed(w, t, start, log) ==> Swept(w, log)
    ensures Prompt(w, t, start, log + [e])
  {
    hide MayHaveClosed, Swept;
    var more := log + [e];
    assert more[..|log|] == log;
    forall k | 0 <= k < |more| && !Booking(more[k]) && MayHaveClosed(w, t, start, more[..k])
      ensures Swept(w, more[..k])
    {
      assert k < |log| ==> more[..k] == log[..k] && more[k] == log[k];
    }
  }

  lemma {:induction false} NextStage(t: Table, start: int, log: Log, e: Call)
    ensures StageOf(t, start, log + [e]) == Advance(t, StageOf(t, start, log), e)
    ensures RiskPrefix(log + [e]) == if e.CheckAll? then log + [e] else RiskPrefix(log)
    ensures AskPrefix(log + [e]) == if e.Execute? then log + [e] else AskPrefix(log)
    ensures StampedIds(log + [e]) == if e.StampTrade? then StampedIds(log) + [e.id] else StampedIds(log)
  {
    assert (log + [e])[..|log|] == log;
  }

  lemma {:induction false} CleanIsSwept(w: World, t: Table, start: int, st: State)
    requires Clean(w, t, start, st)
    ensures MayHaveClosed(w, t, start, st.calls) ==> Swept(w, st.calls)
  {
  }

  /** A call that is no stamp. */
  lemma {:induction false} CallIsPrompt(w: World, t: Table, start: int, st: State, e: Call)
    requires Clean(w, t, start, st) && !e.StampTrade?
    ensures Tidy(Called(st, e)) && Prompt(w, t, start, Called(st, e).calls)
  {
    hide MayHaveClosed, Prompt;
    CleanIsSwept(w, t, start, st);
    OneMorePrompt(w, t, start, st.calls, e);
    NextStage(t, start, st.calls, e);
  }

  /** The log grew by bookings only. */
  ghost predicate Grown(w: World, t: Table, start: int, a: State, b: State) {
    && Tidy(b) && Prompt(w, t, start, b.calls)
    && StageOf(t, start, b.calls) == StageOf(t, start, a.calls)
    && RiskPrefix(b.calls) == RiskPrefix(a.calls) && AskPrefix(b.calls) == AskPrefix(a.calls)
    && a.calls <= b.calls
  }

  lemma {:induction false} OneStampGrows(w: World, t: Table, start: int, a: State, st: State, id: string, s: Stamp)
    requires Grown(w, t, start, a, st) && id !in st.stamped
    ensures Grown(w, t, start, a, Called(st, StampTrade(id, s)).(stamped := st.stamped + {id}))
  {
    hide MayHaveClosed, Prompt, StageOf, RiskPrefix, AskPrefix, HaltSafe, RisingEdges, CountExecutes;
    CalmStamp(w, 1, st, id, s);
    NextStage(t, start, st.calls, StampTrade(id, s));
    OneMorePrompt(w, t, start, st.calls, StampTrade(id, s));
  }

  lemma {:induction false} StampsGrow(w: World, t: Table, start: int, st: State, trades: seq<Trade>, at: int, bar: int,
                                      price: real, kind: RefType, reason: Option<string>)
    requires Tidy(st) && Prompt(w, t, start, st.calls)
    ensures Grown(w, t, start, st, StampAll(st, trades, at, bar, price, kind, reason))
  {
    hide Grown, Prompt, Tidy, StampOf;
    if trades == [] {
      NothingGrown(w, t, start, st);
    } else {
      var n := |trades| - 1;
      StampsGrow(w, t, start, st, trades[..n], at, bar, price, kind, reason);
      var front := StampAll(st, trades[..n], at, bar, price, kind, reason);
      if trades[n].id !in front.stamped {
        OneStampGrows(w, t, start, st, front, trades[n].id, StampOf(trades[n], at, bar, price, kind, reason));
      }
    }
  }

  /** A pass over the whole history leaves nothing behind. */
  lemma {:induction false} SweepCleans(w: World, t: Table, start: int, st: State, at: int, bar: int, price: real,
                                       kind: RefType, reason: Option<string>)
    requires Tidy(st) && Prompt(w, t, start, st.calls) && StampsTouchOneTrade(w)
    ensures var r := StampNew(w, st, at, bar, price, kind, reason);
            Grown(w, t, start, st, r) && AllStamped(w, r) && Clean(w, t, start, r)
  {
    hide MayHaveClosed, Prompt, StageOf, StampAll, StampsTouchOneTrade;
    var trades := w.history(st.calls);
    StampsGrow(w, t, start, st, trades, at, bar, price, kind, reason);
    StampAllCovers(w, st, trades, at, bar, price, kind, reason);
    StampedIsTheIds(st, trades, at, bar, price, kind, reason);
  }

  lemma {:induction false} MarkCleans(w: World, t: Table, start: int, st: State, at: int, bar: int, price: real,
                                      kind: RefType)
    requires Clean(w, t, start, st) && StampsTouchOneTrade(w)
    requires var p := StageOf(t, start, st.calls).phase; p.Dawn? || p.Dusk? || p.Low?
    ensures var r := MarkPrice(w, st, at, bar, price, kind);
            && Clean(w, t, start, r)
            && StageOf(t, start, r.calls) == Advance(t, StageOf(t, start, st.calls), UpdatePrices(price))
  {
    hide Prompt, StampNew, StampsTouchOneTrade, Advance;
    var st1 := UpdateExcursion(w, st, price);
    if st1 != st {
      WidenCleans(w, t, start, st, st1.calls[|st.calls|]);
    }
    hide Clean, Tidy;
    CallIsPrompt(w, t, start, st1, UpdatePrices(price));
    NextStage(t, start, st1.calls, UpdatePrices(price));
    SweepCleans(w, t, start, Called(st1, UpdatePrices(price)), at, bar, price, kind, None);
  }

  /** A widening touches no trade. */
  lemma {:induction false} WidenCleans(w: World, t: Table, start: int, st: State, e: Call)
    requires Clean(w, t, start, st) && e.Widen?
    ensures Clean(w, t, start, Called(st, e))
    ensures StageOf(t, start, Called(st, e).calls) == StageOf(t, start, st.calls)
  {
    CallIsPrompt(w, t, start, st, e);
    NextStage(t, start, st.calls, e);
  }

  // ------------------------------------------------------------------------- the phases

  lemma {:induction false} OpeningCleans(w: World, t: Table, start: int, st: State, bar: int, at: int, price: real)
    requires Clean(w, t, start, st) && StampsTouchOneTrade(w) && StageOf(t, start, st.calls) == Stage(bar, Night)
    ensures var r := Opening(w, st, bar, at, price).0;
            Clean(w, t, start, r) && StageOf(t, start, r.calls) == Stage(bar, Open)
  {
    hide MarkPrice, StampsTouchOneTrade;
    ClockCleans(w, t, start, st, at);
    MarkCleans(w, t, start, Called(st, SetClock(at)), at, bar, price, BarOpen);
  }

  lemma {:induction false} ClockCleans(w: World, t: Table, start: int, st: State, at: int)
    requires Clean(w, t, start, st)
    ensures var r := Called(st, SetClock(at));
            Clean(w, t, start, r) && StageOf(t, start, r.calls) == Advance(t, StageOf(t, start, st.calls), SetClock(at))
  {
    CallIsPrompt(w, t, start, st, SetClock(at));
    NextStage(t, start, st.calls, SetClock(at));
  }

  /** What a caller reads of a state but its calls and stamps does not matter here. */
  lemma {:induction false} CleanAlike(w: World, t: Table, start: int, a: State, b: State)
    requires Clean(w, t, start, a) && b.calls == a.calls && b.stamped == a.stamped
    ensures Clean(w, t, start, b)
  {
  }

  lemma {:induction false} RiskCleans(w: World, t: Table, start: int, st: State, bar: int, ts: int, price: real)
    requires Clean(w, t, start, st) && StampsTouchOneTrade(w) && StageOf(t, start, st.calls) == Stage(bar, Open)
    ensures var r := RiskCheck(w, st, bar, ts, price).st;
            && Clean(w, t, start, r) && StageOf(t, start, r.calls) == Stage(bar, Checked)
            && RiskPrefix(r.calls) == st.calls + [CheckAll]
  {
    hide Prompt, StampNew, StampsTouchOneTrade;
    var st1 := Called(st, CheckAll);
    CallIsPrompt(w, t, start, st, CheckAll);
    NextStage(t, start, st.calls, CheckAll);
    SweepCleans(w, t, start, st1, ts, bar, price, BarOpen, Some("circuit_breaker"));
    var st2 := if w.status(st1.calls).breaker then StampNew(w, st1, ts, bar, price, BarOpen, Some("circuit_breaker"))
               else st1;
    CleanAlike(w, t, start, st2, RiskCheck(w, st, bar, ts, price).st);
  }

  lemma {:induction false} RouteCleans(w: World, c: Config, t: Table, start: int, st: State, row: Row, signal: int)
    requires Clean(w, t, start, st)
    ensures var r := RouteBar(w, c, st, row, signal).st;
            && Clean(w, t, start, r) && RiskPrefix(r.calls) == RiskPrefix(st.calls)
            && StageOf(t, start, r.calls).bar == StageOf(t, start, st.calls).bar
  {
    var p := w.position(st.calls);
    var q := RouteQuery(row, row.raw.ts + c.delta, !Holds(p), if Holds(p) then p.value.owner else None);
    hide RouteBar, Holds, Prompt;
    var st1 := Called(st, q);
    var asked := st1.(routed := st1.routed + [w.decision(st1.calls)]);
    AskCleans(w, t, start, st, q);
    CleanAlike(w, t, start, st1, asked);
    AskCleans(w, t, start, asked, ProvideRuntime(w.decision(st1.calls)));
    RouteStates(w, c, st, row, signal, asked, Called(asked, ProvideRuntime(w.decision(st1.calls))));
  }

  lemma {:induction false} RoutingClosesNothing(w: World, t: Table, start: int, log: Log)
    requires var p := StageOf(t, start, log).phase; p.Asked? || p.Provided?
    ensures !MayHaveClosed(w, t, start, log)
  {
  }

  lemma {:induction false} AskCleans(w: World, t: Table, start: int, st: State, e: Call)
    requires Clean(w, t, start, st) && (e.RouteQuery? || e.ProvideRuntime?)
    ensures Clean(w, t, start, Called(st, e)) && RiskPrefix(Called(st, e).calls) == RiskPrefix(st.calls)
    ensures StageOf(t, start, Called(st, e).calls).bar == StageOf(t, start, st.calls).bar
  {
    hide Prompt, Tidy, MayHaveClosed;
    CallIsPrompt(w, t, start, st, e);
    NextStage(t, start, st.calls, e);
    hide StageOf, RiskPrefix, AskPrefix;
    RoutingClosesNothing(w, t, start, Called(st, e).calls);
  }

  /** Entering a context is part of the booking. */
  lemma {:induction false} AttachGrows(w: World, t: Table, start: int, a: State, st: State, at: int, bar: int,
                                       ref: real, strategy: string, preserve: bool)
    requires Grown(w, t, start, a, st)
    ensures Grown(w, t, start, a, AttachEntry(w, st, at, bar, ref, strategy, preserve))
  {
    hide Prompt, MayHaveClosed, StageOf, RiskPrefix, AskPrefix;
    var r := AttachEntry(w, st, at, bar, ref, strategy, preserve);
    if r != st {
      var e := r.calls[|st.calls|];
      NextStage(t, start, st.calls, e);
      OneMorePrompt(w, t, start, st.calls, e);
    }
  }

  lemma {:induction false} GrownAlike(w: World, t: Table, start: int, a: State, b: State, c: State)
    requires Grown(w, t, start, a, b) && c.calls == b.calls && c.stamped == b.stamped
    ensures Grown(w, t, start, a, c)
  {
  }

  lemma {:induction false} CycleOrdersGrow(w: World, t: Table, start: int, st: State, orders: seq<Order>,
                                           trace: Execution, rt: Runtime, bar: int, decisionTs: int, at: int,
                                           price: real)
    requires Tidy(st) && Prompt(w, t, start, st.calls)
    ensures Grown(w, t, start, st, CycleOrders(w, st, orders, trace, rt, bar, decisionTs, at, price))
  {
    hide Prompt, AttachEntry;
    if orders != [] {
      hide Grown;
      var n := |orders| - 1;
      CycleOrdersGrow(w, t, start, st, orders[..n], trace, rt, bar, decisionTs, at, price);
      var front := CycleOrders(w, st, orders[..n], trace, rt, bar, decisionTs, at, price);
      var s := SignalEntry(decisionTs, at, price, if orders[n].side.Buy? then BUY else SELL, true, trace);
      var st1 := front.(signalLog := front.signalLog + [s]);
      GrownAlike(w, t, start, st, front, st1);
      AttachGrows(w, t, start, st, st1, at, bar, price, rt.name, true);
      if orders[n].filled > 0.0 {
        var st2 := if orders[n].side.Buy? then AttachEntry(w, st1, at, bar, price, rt.name, true) else st1;
        GrownAlike(w, t, start, st, st2, CycleOrders(w, st, orders, trace, rt, bar, decisionTs, at, price));
      }
    } else {
      NothingGrown(w, t, start, st);
    }
  }

  lemma {:induction false} NothingGrown(w: World, t: Table, start: int, st: State)
    requires Tidy(st) && Prompt(w, t, start, st.calls)
    ensures Grown(w, t, start, st, st)
  {
  }

  lemma {:induction false} NativeOrdersGrow(w: World, t: Table, start: int, st: State, orders: seq<Order>, rt: Runtime,
                                            bar: int, at: int, price: real)
    requires Tidy(st) && Prompt(w, t, start, st.calls)
    ensures Grown(w, t, start, st, NativeOrders(w, st, orders, rt, bar, at, price))
  {
    hide Prompt, AttachEntry;
    if orders != [] {
      hide Grown;
      var n := |orders| - 1;
      NativeOrdersGrow(w, t, start, st, orders[..n], rt, bar, at, price);
      var front := NativeOrders(w, st, orders[..n], rt, bar, at, price);
      AttachGrows(w, t, start, st, front, at, bar, price, rt.name, false);
      var st1 := if orders[n].side.Buy? then AttachEntry(w, front, at, bar, price, rt.name, false) else front;
      GrownAlike(w, t, start, st, st1, NativeOrders(w, st, orders, rt, bar, at, price));
    } else {
      NothingGrown(w, t, start, st);
    }
  }

  /** What acting leaves behind: an aborted bar may stop before its sweep. */
  ghost predicate Left(w: World, t: Table, start: int, bar: int, o: Outcome) {
    && Prompt(w, t, start, o.st.calls)
    && (o.err.None? ==> Clean(w, t, start, o.st) && StageOf(t, start, o.st.calls).bar == bar)
  }

  lemma {:induction false} NoOrdersCloseNothing(w: World, t: Table, start: int, log: Log)
    requires log != [] && log[|log| - 1].Execute? && AskPrefix(log) == log
    ensures log[|log| - 1].runtime.cycle && w.execution(log).orders == [] && StageOf(t, start, log).phase.Ran? ==>
              !MayHaveClosed(w, t, start, log)
  {
  }

  lemma {:induction false} ExecuteIsPrompt(w: World, t: Table, start: int, st: State, e: Call)
    requires Clean(w, t, start, st) && e.Execute?
    ensures var r := Called(st, e);
            && Tidy(r) && Prompt(w, t, start, r.calls) && AskPrefix(r.calls) == r.calls
            && StageOf(t, start, r.calls) == Stage(StageOf(t, start, st.calls).bar, Ran)
            && (e.runtime.cycle && w.execution(r.calls).orders == [] ==> Clean(w, t, start, r))
  {
    hide Prompt, Tidy, MayHaveClosed;
    CallIsPrompt(w, t, start, st, e);
    NextStage(t, start, st.calls, e);
    hide StageOf, RiskPrefix, AskPrefix;
    NoOrdersCloseNothing(w, t, start, Called(st, e).calls);
  }

  lemma {:induction false} CycleBarCleans(w: World, c: Config, t: Table, start: int, st: State, row: FunnelRow,
                                          rt: Runtime, bar: int, at: int, price: real, halted: bool)
    requires Clean(w, t, start, st) && StampsTouchOneTrade(w) && rt.cycle
    requires StageOf(t, start, st.calls).bar == bar && 0 < bar <= |t.rows|
    ensures Left(w, t, start, bar, CycleBar(w, c, st, row, rt, t.rows, bar, at, price, halted))
  {
    hide Clean, Prompt, Tidy, StageOf, CycleOrders, StampNew, CycleQuantity, RawPrefix, CycleSnapshot;
    hide StampsTouchOneTrade, AskPrefix;
    var quantity := CycleQuantity(w.position(st.calls));
    CleanIsPrompt(w, t, start, st);
    if quantity.Some? && !(halted && quantity.value == 0.0) {
      var raw := t.rows[bar - 1].raw;
      var e := Execute(rt, RawPrefix(t.rows, bar), Observation(bar - 1, raw.ts + c.delta, raw, []),
                       Some(CycleSnapshot(w, st.calls, quantity.value)));
      ExecuteIsPrompt(w, t, start, st, e);
      var st1 := Called(st, e);
      var x := w.execution(st1.calls);
      CycleOrdersGrow(w, t, start, st1, x.orders, x, rt, bar, raw.ts, at, price);
      SweepCleans(w, t, start, CycleOrders(w, st1, x.orders, x, rt, bar, raw.ts, at, price), at, bar, price, BarOpen,
                  None);
      CleanIsPrompt(w, t, start, StampNew(w, CycleOrders(w, st1, x.orders, x, rt, bar, raw.ts, at, price), at, bar,
                                          price, BarOpen, None));
    }
  }

  lemma {:induction false} CleanIsPrompt(w: World, t: Table, start: int, st: State)
    ensures Clean(w, t, start, st) ==> Prompt(w, t, start, st.calls)
  {
  }

  lemma {:induction false} NativeBarCleans(w: World, c: Config, t: Table, start: int, st: State, row: FunnelRow,
                                           intent: Intent, bar: int, at: int, price: real)
    requires Clean(w, t, start, st) && StampsTouchOneTrade(w)
    requires StageOf(t, start, st.calls).bar == bar && 0 < bar <= |t.rows|
    ensures Left(w, t, start, bar, NativeBar(w, c, st, row, intent, t.rows, bar, at, price))
  {
    hide Clean, Prompt, Tidy, StageOf, NativeOrders, StampNew, RawPrefix, StampsTouchOneTrade, AskPrefix, OrderIds;
    var holds := Holds(w.position(st.calls));
    CleanIsPrompt(w, t, start, st);
    if intent.signal != 0 && !(intent.signal == 1 && holds && !intent.manage) && !(intent.signal == -1 && !holds) {
      hide Holds;
      var decision := t.rows[bar - 1];
      var e := Execute(intent.runtime, RawPrefix(t.rows, bar),
                       Observation(bar - 1, decision.raw.ts + c.delta, decision.raw, decision.features), None);
      ExecuteIsPrompt(w, t, start, st, e);
      var st1 := Called(st, e);
      var x := w.execution(st1.calls);
      var s := SignalEntry(decision.raw.ts, at, price, if intent.signal == 1 then BUY else SELL, false, x);
      var st2 := st1.(signalLog := st1.signalLog + [s]);
      TidyAlike(st1, st2);
      NativeOrdersGrow(w, t, start, st2, x.orders, intent.runtime, bar, at, price);
      var booked := NativeOrders(w, st2, x.orders, intent.runtime, bar, at, price);
      SweepCleans(w, t, start, booked, at, bar, price, BarOpen, None);
      CleanIsPrompt(w, t, start, StampNew(w, booked, at, bar, price, BarOpen, None));
    }
  }

  lemma {:induction false} TidyAlike(a: State, b: State)
    requires Tidy(a) && b.calls == a.calls && b.stamped == a.stamped
    ensures Tidy(b)
  {
  }

  lemma {:induction false} DecideCleans(w: World, c: Config, t: Table, start: int, st: State, bar: int, tick: Tick)
    requires ValidTable(t) && 0 <= start <= bar <= |t.rows| && c.freq > 0 && StampsTouchOneTrade(w)
    requires Clean(w, t, start, st) && StageOf(t, start, st.calls) == Stage(bar, Night)
    ensures Left(w, t, start, bar, DecideBar(w, c, t, start, st, bar, tick))
  {
    hide Clean, Prompt, StageOf, Opening, RiskCheck, RouteBar, CycleBar, NativeBar, Preset, StampsTouchOneTrade;
    var (st1, row) := Opening(w, st, bar, tick.ts, tick.open);
    OpeningCleans(w, t, start, st, bar, tick.ts, tick.open);
    RiskCleans(w, t, start, st1, bar, tick.ts, tick.open);
    var risk := RiskCheck(w, st1, bar, tick.ts, tick.open);
    CleanIsPrompt(w, t, start, risk.st);
    var status, cooldown := w.status(st1.calls + [CheckAll]), CooldownAlert(w.alerts(st1.calls + [CheckAll]));
    var routed := Intend(w, c, t, start, risk.st, bar, status.breaker);
    if Due(start, c.freq, bar) {
      RouteCleans(w, c, t, start, risk.st, t.rows[bar - 1], SignalAt(t, start, bar));
      CleanIsPrompt(w, t, start, routed.st);
      var rt := routed.intent.runtime;
      var row1 := Preset(row, bar == start, rt.cycle, true, routed.intent.signal, status.breaker, cooldown);
      if rt.cycle {
        CycleBarCleans(w, c, t, start, routed.st, row1, rt, bar, tick.ts, tick.open, status.breaker || status.cooldown);
      }
      NativeBarCleans(w, c, t, start, routed.st, row1, routed.intent, bar, tick.ts, tick.open);
    }
  }

  lemma {:induction false} CloseCleans(w: World, c: Config, t: Table, start: int, st: State, row: FunnelRow, bar: int)
    requires 0 <= bar < |t.rows| && StampsTouchOneTrade(w)
    requires Clean(w, t, start, st) && StageOf(t, start, st.calls).bar == bar &&
             !StageOf(t, start, st.calls).phase.Night?
    ensures var r := CloseBar(w, c, st, row, bar, t.rows[bar].raw);
            Clean(w, t, start, r) && StageOf(t, start, r.calls) == Stage(bar + 1, Night)
  {
    hide Clean, StageOf, MarkPrice, StampsTouchOneTrade;
    var raw := t.rows[bar].raw;
    var at := raw.ts + c.delta;
    var st1 := Called(st, SetClock(at));
    ClockCleans(w, t, start, st, at);
    var st2 := if raw.low < raw.open then MarkPrice(w, st1, at, bar, raw.low, BarLow) else st1;
    MarkCleans(w, t, start, st1, at, bar, raw.low, BarLow);
    MarkCleans(w, t, start, st2, at, bar, raw.close, BarClose);
    CleanAlike(w, t, start, MarkPrice(w, st2, at, bar, raw.close, BarClose), CloseBar(w, c, st, row, bar, raw));
  }

  lemma {:induction false} NothingToSweep(w: World, t: Table, start: int, funnel: bool)
    ensures Clean(w, t, start, Initial(funnel))
  {
  }

  lemma {:induction false} BarCleans(w: World, c: Config, t: Table, start: int, st: State, bar: int)
    requires ValidTable(t) && 0 <= start <= bar < |t.rows| && c.freq > 0 && StampsTouchOneTrade(w)
    requires Clean(w, t, start, st) && StageOf(t, start, st.calls) == Stage(bar, Night)
    requires Fine(w, c, t, start, st) && Flagged(w, st)
    ensures var r := Bar(w, c, t, start, st, bar);
            Prompt(w, t, start, r.st.calls) && (r.err.None? ==> Clean(w, t, start, r.st))
  {
    hide Clean, Prompt, Fine, Flagged, DecideBar, CloseBar, StageOf, Fault, TakesUp, StampsTouchOneTrade;
    var raw := t.rows[bar].raw;
    var tick := Tick(raw.ts, raw.open);
    DecideCleans(w, c, t, start, st, bar, tick);
    DecideLaw(w, c, t, start, st, bar, tick);
    var o := DecideBar(w, c, t, start, st, bar, tick);
    if o.err.None? {
      CloseCleans(w, c, t, start, o.st, o.row, bar);
      CleanIsPrompt(w, t, start, CloseBar(w, c, o.st, o.row, bar, raw));
    }
  }

  /** Over every run, completed or aborted, no closed trade waits for its stamp; and at the end of a
      completed run none is left without one. */
  lemma {:induction false} StampsArePrompt(w: World, c: Config, t: Table, start: int, stop: int, funnel: bool)
    requires ValidTable(t) && 0 <= start <= stop <= |t.rows| && c.freq > 0 && StampsTouchOneTrade(w)
    ensures var r := RunBars(w, c, t, start, Initial(funnel), stop);
            Prompt(w, t, start, r.st.calls) && (r.err.None? ==> Clean(w, t, start, r.st))
    decreases stop
  {
    hide Clean, Prompt, Fine, Fault, Bar, StampsTouchOneTrade;
    if stop == start {
      NothingToSweep(w, t, start, funnel);
      CleanIsPrompt(w, t, start, Initial(funnel));
    } else {
      StampsArePrompt(w, c, t, start, stop - 1, funnel);
      RunIsLawful(w, c, t, start, stop - 1, funnel);
      var before := RunBars(w, c, t, start, Initial(funnel), stop - 1);
      if before.err.None? {
        BarCleans(w, c, t, start, before.st, stop - 1);
      }
    }
  }
}
