/** What every run of the simulator keeps. */
module BacktestSafety {
  // Halts are respected, breakers are logged on their rising edges, the funnel accounts for every
  // bar, and trades are stamped exactly once.

  import opened Arithmetic
  import opened Wrappers
  import opened Backtest

  // ------------------------------------------------- the log up to the last risk check

  function RiskPrefix(calls: Log): (r: Log)
    ensures |r| <= |calls|
  {
    if calls == [] then []
    else if calls[|calls| - 1].CheckAll? then calls
    else RiskPrefix(calls[..|calls| - 1])
  }

  /** Breaker state at the last risk check; off before the first one. */
  predicate BreakerOn(w: World, calls: Log) {
    RiskPrefix(calls) != [] && w.status(RiskPrefix(calls)).breaker
  }

  /** Risk checks that find the breaker on when the one before did not. */
  function RisingEdges(w: World, calls: Log): nat {
    if calls == [] then 0
    else
      var front := calls[..|calls| - 1];
      if calls[|calls| - 1].CheckAll? && w.status(calls).breaker && !BreakerOn(w, front) then RisingEdges(w, front) + 1
      else RisingEdges(w, front)
  }

  /** The runtime may be called here: a cycle policy only with inventory while halted, any other
      policy only while neither halted nor cooling down; always at cadence. */
  ghost predicate MayExecute(w: World, freq: int, before: Log, e: Call)
    requires e.Execute? && freq > 0
  {
    var risk := RiskPrefix(before);
    && risk != []
    && e.obs.index % freq == 0
    && (if e.runtime.cycle then
          var quantity := CycleQuantity(w.position(before));
          quantity.Some? && (w.status(risk).breaker || w.status(risk).cooldown ==> quantity.value > 0.0)
        else !w.status(risk).breaker && !CooldownAlert(w.alerts(risk)))
  }

  ghost predicate HaltSafe(w: World, freq: int, calls: Log)
    requires freq > 0
  {
    calls != [] ==>
      && HaltSafe(w, freq, calls[..|calls| - 1])
      && (calls[|calls| - 1].Execute? ==> MayExecute(w, freq, calls[..|calls| - 1], calls[|calls| - 1]))
  }

  function CountExecutes(calls: Log): nat {
    if calls == [] then 0
    else if calls[|calls| - 1].Execute? then CountExecutes(calls[..|calls| - 1]) + 1
    else CountExecutes(calls[..|calls| - 1])
  }

  /** The ids stamped, in order. */
  function StampedIds(calls: Log): seq<string> {
    if calls == [] then []
    else if calls[|calls| - 1].StampTrade? then StampedIds(calls[..|calls| - 1]) + [calls[|calls| - 1].id]
    else StampedIds(calls[..|calls| - 1])
  }

  // ------------------------------------------------------- one call at a time

  lemma {:induction false} OneMore(w: World, freq: int, calls: Log, c: Call)
    requires freq > 0
    ensures (calls + [c])[..|calls + [c]| - 1] == calls
    ensures RiskPrefix(calls + [c]) == if c.CheckAll? then calls + [c] else RiskPrefix(calls)
    ensures HaltSafe(w, freq, calls + [c]) <==>
            HaltSafe(w, freq, calls) && (c.Execute? ==> MayExecute(w, freq, calls, c))
    ensures CountExecutes(calls + [c]) == if c.Execute? then CountExecutes(calls) + 1 else CountExecutes(calls)
    ensures StampedIds(calls + [c]) == if c.StampTrade? then StampedIds(calls) + [c.id] else StampedIds(calls)
    ensures RisingEdges(w, calls + [c]) ==
            if c.CheckAll? && w.status(calls + [c]).breaker && !BreakerOn(w, calls) then RisingEdges(w, calls) + 1
            else RisingEdges(w, calls)
  {
  }

  /** What the phases without a risk check or a runtime call leave alone. */
  ghost predicate Calm(w: World, freq: int, a: State, b: State)
    requires freq > 0
  {
    && (HaltSafe(w, freq, a.calls) ==> HaltSafe(w, freq, b.calls))
    && RiskPrefix(b.calls) == RiskPrefix(a.calls)
    && CountExecutes(b.calls) == CountExecutes(a.calls)
    && RisingEdges(w, b.calls) == RisingEdges(w, a.calls)
    && b.breakers == a.breakers && b.breakerActive == a.breakerActive
    && b.equityCurve == a.equityCurve && b.funnel == a.funnel
    && (Tidy(a) ==> Tidy(b))
  }

  ghost predicate Distinct(s: seq<string>) {
    forall i, j :: 0 <= i < j < |s| ==> s[i] != s[j]
  }

  /** The stamped set is exactly the ids stamped, and none was stamped twice. */
  ghost predicate Tidy(st: State) {
    && Distinct(StampedIds(st.calls))
    && st.stamped == set id | id in StampedIds(st.calls)
  }

  lemma {:induction false} CalmCall(w: World, freq: int, st: State, c: Call)
    requires freq > 0 && !c.CheckAll? && !c.Execute? && !c.StampTrade?
    ensures Calm(w, freq, st, Called(st, c))
  {
  }

  lemma {:induction false} CalmStamp(w: World, freq: int, st: State, id: string, s: Stamp)
    requires freq > 0 && id !in st.stamped
    ensures Calm(w, freq, st, Called(st, StampTrade(id, s)).(stamped := st.stamped + {id}))
  {
  }

  lemma {:induction false} CalmStampAll(w: World, freq: int, st: State, trades: seq<Trade>, at: int, bar: int,
                                        price: real, kind: RefType, reason: Option<string>)
    requires freq > 0
    ensures Calm(w, freq, st, StampAll(st, trades, at, bar, price, kind, reason))
  {
    if trades != [] {
      var n := |trades| - 1;
      CalmStampAll(w, freq, st, trades[..n], at, bar, price, kind, reason);
      var front := StampAll(st, trades[..n], at, bar, price, kind, reason);
      if trades[n].id !in front.stamped {
        CalmStamp(w, freq, front, trades[n].id, StampOf(trades[n], at, bar, price, kind, reason));
      }
    }
  }

  lemma {:induction false} CalmMark(w: World, freq: int, st: State, at: int, bar: int, price: real, kind: RefType)
    requires freq > 0
    ensures Calm(w, freq, st, MarkPrice(w, st, at, bar, price, kind))
  {
    var st1 := UpdateExcursion(w, st, price);
    if st1 != st {
      var m := w.position(st.calls).value.simulation.value;
      CalmCall(w, freq, st, Widen(price, Min(m.low, price), Max(m.high, price)));
    }
    var st2 := Called(st1, UpdatePrices(price));
    CalmCall(w, freq, st1, UpdatePrices(price));
    CalmStampAll(w, freq, st2, w.history(st2.calls), at, bar, price, kind, None);
  }

  lemma {:induction false} CalmAttach(w: World, freq: int, st: State, at: int, bar: int, ref: real, strategy: string,
                                      preserve: bool)
    requires freq > 0
    ensures Calm(w, freq, st, AttachEntry(w, st, at, bar, ref, strategy, preserve))
  {
  }

  lemma {:induction false} CalmCycleOrders(w: World, freq: int, st: State, orders: seq<Order>, trace: Execution,
                                           rt: Runtime, bar: int, decisionTs: int, at: int, price: real)
    requires freq > 0
    ensures Calm(w, freq, st, CycleOrders(w, st, orders, trace, rt, bar, decisionTs, at, price))
  {
    if orders != [] {
      var n := |orders| - 1;
      CalmCycleOrders(w, freq, st, orders[..n], trace, rt, bar, decisionTs, at, price);
      var front := CycleOrders(w, st, orders[..n], trace, rt, bar, decisionTs, at, price);
      var o := orders[n];
      var st1 := front.(signalLog := front.signalLog +
                          [SignalEntry(decisionTs, at, price, if o.side.Buy? then BUY else SELL, true, trace)]);
      CalmAttach(w, freq, st1, at, bar, price, rt.name, true);
    }
  }

  lemma {:induction false} CalmNativeOrders(w: World, freq: int, st: State, orders: seq<Order>, rt: Runtime, bar: int,
                                            at: int, price: real)
    requires freq > 0
    ensures Calm(w, freq, st, NativeOrders(w, st, orders, rt, bar, at, price))
  {
    if orders != [] {
      var n := |orders| - 1;
      CalmNativeOrders(w, freq, st, orders[..n], rt, bar, at, price);
      CalmAttach(w, freq, NativeOrders(w, st, orders[..n], rt, bar, at, price), at, bar, price, rt.name, false);
    }
  }

  lemma {:induction false} CalmRoute(w: World, c: Config, st: State, row: Row, signal: int)
    requires c.freq > 0
    ensures Calm(w, c.freq, st, RouteBar(w, c, st, row, signal).st)
  {
    hide RouteBar, Calm;
    var p := w.position(st.calls);
    var query := RouteQuery(row, row.raw.ts + c.delta, !Holds(p), if Holds(p) then p.value.owner else None);
    var st1 := Called(st, query);
    var d := w.decision(st1.calls);
    var st2 := st1.(routed := st1.routed + [d]);
    CalmCall(w, c.freq, st, query);
    CalmCall(w, c.freq, st2, ProvideRuntime(d));
    CalmBook(w, c.freq, st, st1, st2);
    CalmBook(w, c.freq, st, st, st);
    CalmTrans(w, c.freq, st, st2, Called(st2, ProvideRuntime(d)));
    RouteStates(w, c, st, row, signal, st2, Called(st2, ProvideRuntime(d)));
  }

  /** Nor does the list of routing decisions matter. */
  lemma {:induction false} CalmBook(w: World, freq: int, a: State, b: State, c: State)
    requires freq > 0 && (a == b || Calm(w, freq, a, b)) && c == b.(routed := c.routed)
    ensures Calm(w, freq, a, c)
  {
  }

  /** Routing stops before its query, after it, or after asking for a runtime. */
  lemma {:induction false} RouteStates(w: World, c: Config, st: State, row: Row, signal: int, asked: State,
                                       provided: State)
    requires var p := w.position(st.calls);
             var q := RouteQuery(row, row.raw.ts + c.delta, !Holds(p), if Holds(p) then p.value.owner else None);
             var st1 := Called(st, q);
             && asked == st1.(routed := st1.routed + [w.decision(st1.calls)])
             && provided == Called(asked, ProvideRuntime(w.decision(st1.calls)))
    ensures var after := RouteBar(w, c, st, row, signal).st; after == st || after == asked || after == provided
  {
  }

  lemma {:induction false} CalmTrans(w: World, freq: int, a: State, b: State, c: State)
    requires freq > 0 && Calm(w, freq, a, b) && Calm(w, freq, b, c)
    ensures Calm(w, freq, a, c)
  {
  }

  lemma {:induction false} CalmOpening(w: World, freq: int, st: State, bar: int, at: int, price: real)
    requires freq > 0
    ensures Calm(w, freq, st, Opening(w, st, bar, at, price).0)
  {
    CalmCall(w, freq, st, SetClock(at));
    CalmMark(w, freq, Called(st, SetClock(at)), at, bar, price, BarOpen);
  }

  // ------------------------------------------------------------- the phases of a bar

  /** One logged breaker per rising edge, and the flag is the breaker's last state. */
  ghost predicate BreakersLogged(w: World, st: State) {
    |st.breakers| == RisingEdges(w, st.calls) && st.breakerActive == BreakerOn(w, st.calls)
  }

  ghost predicate Good(w: World, freq: int, st: State)
    requires freq > 0
  {
    HaltSafe(w, freq, st.calls) && Tidy(st) && BreakersLogged(w, st)
  }

  /** What no phase before the close touches, and what every phase keeps even when it aborts. */
  ghost predicate Kept(w: World, freq: int, a: State, b: State)
    requires freq > 0
  {
    HaltSafe(w, freq, b.calls) && Tidy(b) && b.equityCurve == a.equityCurve && b.funnel == a.funnel
  }

  lemma {:induction false} RiskCheckKeeps(w: World, freq: int, st: State, bar: int, ts: int, price: real)
    requires freq > 0 && Good(w, freq, st)
    ensures var r := RiskCheck(w, st, bar, ts, price);
            && Kept(w, freq, st, r.st)
            && RiskPrefix(r.st.calls) == st.calls + [CheckAll]
            && CountExecutes(r.st.calls) == CountExecutes(st.calls)
            && (r.err.None? ==> BreakersLogged(w, r.st))
  {
    OneMore(w, freq, st.calls, CheckAll);
    var st1 := Called(st, CheckAll);
    assert Tidy(st1);
    CalmStampAll(w, freq, st1, w.history(st1.calls), ts, bar, price, BarOpen, Some("circuit_breaker"));
  }

  /** Terminals other than the runtime's own and the provisional one. */
  predicate Settled(row: FunnelRow) {
    && (row.called <==> row.terminal.RuntimeResult?)
    && row.terminal != CycleCheck
    && (row.terminal == NoSignal ==> row.action == HOLD)
  }

  /** What a phase that may call the runtime does. */
  ghost predicate Handled(w: World, freq: int, st: State, row: FunnelRow, o: Outcome)
    requires freq > 0
  {
    && Kept(w, freq, st, o.st)
    && (o.err.None? ==>
          && BreakersLogged(w, o.st)
          && Settled(o.row) && o.row.bar == row.bar && o.row.decisionBar == row.decisionBar
          && CountExecutes(o.st.calls) == CountExecutes(st.calls) + if o.row.called then 1 else 0)
  }

  lemma {:induction false} ExecuteKeeps(w: World, freq: int, st: State, e: Call)
    requires freq > 0 && Good(w, freq, st) && e.Execute? && MayExecute(w, freq, st.calls, e)
    ensures Kept(w, freq, st, Called(st, e)) && BreakersLogged(w, Called(st, e))
    ensures CountExecutes(Called(st, e).calls) == CountExecutes(st.calls) + 1
  {
  }

  /** The runtime call of a fill-cycle bar. */
  function CycleCall(w: World, c: Config, st: State, rt: Runtime, rows: seq<Row>, bar: int): (e: Call)
    requires 0 < bar <= |rows|
    ensures e.Execute? && e.runtime == rt && e.obs.index == bar - 1
  {
    var quantity := CycleQuantity(w.position(st.calls));
    var obs := Observation(bar - 1, rows[bar - 1].raw.ts + c.delta, rows[bar - 1].raw, []);
    Execute(rt, RawPrefix(rows, bar), obs,
            Some(CycleSnapshot(w, st.calls, if quantity.Some? then quantity.value else 0.0)))
  }

  /** A fill-cycle bar stops before its runtime call, right after it, or once the answer is booked. */
  lemma {:induction false} CycleBarStates(w: World, c: Config, st: State, row: FunnelRow, rt: Runtime, rows: seq<Row>,
                                          bar: int, at: int, price: real, halted: bool)
    requires 0 < bar <= |rows|
    ensures var r, st1 := CycleBar(w, c, st, row, rt, rows, bar, at, price, halted),
                          Called(st, CycleCall(w, c, st, rt, rows, bar));
            var x, q := w.execution(st1.calls), CycleQuantity(w.position(st.calls));
            var booked := CycleOrders(w, st1, x.orders, x, rt, bar, rows[bar - 1].raw.ts, at, price);
            if q.None? || (halted && q.value == 0.0) then
              && r.st == st && (q.None? ==> r.err.Some?)
              && (r.err.Some? || r.row == row.(action := HOLD, terminal := RiskEntryHalt))
            else
              && (r.st == st1 || r.st == StampNew(w, booked, at, bar, price, BarOpen, None))
              && (r.err.Some? ||
                    r.row == row.(called := true, action := Reported(x.signal), terminal := RuntimeResult(x.result)))
  {
    hide StampNew, CycleOrders, CycleSnapshot, CycleQuantity, RawPrefix;
  }

  /** The runtime call e, and what is booked and stamped after it. */
  lemma {:induction false} CycleAnswerKeeps(w: World, freq: int, st: State, e: Call, rt: Runtime, bar: int,
                                            decisionTs: int, at: int, price: real)
    requires freq > 0 && Good(w, freq, st) && e.Execute? && MayExecute(w, freq, st.calls, e)
    ensures var st1 := Called(st, e);
            var x := w.execution(st1.calls);
            var booked := CycleOrders(w, st1, x.orders, x, rt, bar, decisionTs, at, price);
            var r := StampNew(w, booked, at, bar, price, BarOpen, None);
            && Kept(w, freq, st, st1) && BreakersLogged(w, st1) &&
                 CountExecutes(st1.calls) == CountExecutes(st.calls) + 1
            && Kept(w, freq, st, r) && BreakersLogged(w, r) && CountExecutes(r.calls) == CountExecutes(st.calls) + 1
  {
    hide CycleOrders, StampAll, MayExecute, HaltSafe, Tidy;
    var st1 := Called(st, e);
    ExecuteKeeps(w, freq, st, e);
    var x := w.execution(st1.calls);
    var st2 := CycleOrders(w, st1, x.orders, x, rt, bar, decisionTs, at, price);
    CalmCycleOrders(w, freq, st1, x.orders, x, rt, bar, decisionTs, at, price);
    CalmStampAll(w, freq, st2, w.history(st2.calls), at, bar, price, BarOpen, None);
    CalmTrans(w, freq, st1, st2, StampNew(w, st2, at, bar, price, BarOpen, None));
  }

  lemma {:induction false} HaltIsHandled(w: World, freq: int, st: State, row: FunnelRow, o: Outcome)
    requires freq > 0 && Good(w, freq, st) && o.st == st && !row.called
    requires o.err.Some? || o.row == row.(action := HOLD, terminal := RiskEntryHalt)
    ensures Handled(w, freq, st, row, o)
  {
  }

  lemma {:induction false} AnswerIsHandled(w: World, freq: int, st: State, row: FunnelRow, o: Outcome, x: Execution)
    requires freq > 0 && Kept(w, freq, st, o.st) && BreakersLogged(w, o.st)
    requires CountExecutes(o.st.calls) == CountExecutes(st.calls) + 1
    requires o.err.Some? ||
             o.row == row.(called := true, action := Reported(x.signal), terminal := RuntimeResult(x.result))
    ensures Handled(w, freq, st, row, o)
  {
  }

  lemma {:induction false} SameHandled(w: World, freq: int, st: State, row: FunnelRow, other: FunnelRow, o: Outcome)
    requires freq > 0 && Handled(w, freq, st, row, o) && other.bar == row.bar && other.decisionBar == row.decisionBar
    ensures Handled(w, freq, st, other, o)
  {
  }

  lemma {:induction false} CycleCallIsGated(w: World, freq: int, before: Log, e: Call, halted: bool)
    requires freq > 0 && e.Execute? && e.runtime.cycle && e.obs.index % freq == 0 && RiskPrefix(before) != []
    requires var s := w.status(RiskPrefix(before)); halted == (s.breaker || s.cooldown)
    requires var q := CycleQuantity(w.position(before)); q.Some? && !(halted && q.value == 0.0)
    ensures MayExecute(w, freq, before, e)
  {
  }

  lemma {:induction false} CycleBarKeeps(w: World, c: Config, st: State, row: FunnelRow, rt: Runtime, rows: seq<Row>,
                                         bar: int, at: int, price: real, halted: bool)
    requires c.freq > 0 && 0 < bar <= |rows| && (bar - 1) % c.freq == 0
    requires Good(w, c.freq, st) && RiskPrefix(st.calls) != [] && rt.cycle
    requires var s := w.status(RiskPrefix(st.calls)); halted == (s.breaker || s.cooldown)
    ensures Handled(w, c.freq, st, row, CycleBar(w, c, st, row.(called := false), rt, rows, bar, at, price, halted))
  {
    hide CycleBar, CycleCall, CycleOrders, StampNew, CycleQuantity, RiskPrefix, MayExecute;
    hide Good, Kept, BreakersLogged, CountExecutes, Handled;
    var quantity := CycleQuantity(w.position(st.calls));
    var idle := row.(called := false);
    var o := CycleBar(w, c, st, idle, rt, rows, bar, at, price, halted);
    CycleBarStates(w, c, st, idle, rt, rows, bar, at, price, halted);
    if quantity.None? || (halted && quantity.value == 0.0) {
      HaltIsHandled(w, c.freq, st, idle, o);
    } else {
      var e := CycleCall(w, c, st, rt, rows, bar);
      CycleCallIsGated(w, c.freq, st.calls, e, halted);
      CycleAnswerKeeps(w, c.freq, st, e, rt, bar, rows[bar - 1].raw.ts, at, price);
      AnswerIsHandled(w, c.freq, st, idle, o, w.execution(st.calls + [e]));
    }
    SameHandled(w, c.freq, st, idle, row, o);
  }

  lemma {:induction false} NativeBarKeeps(w: World, c: Config, st: State, row: FunnelRow, intent: Intent,
                                          rows: seq<Row>, bar: int, at: int, price: real)
    requires c.freq > 0 && 0 < bar <= |rows| && (bar - 1) % c.freq == 0
    requires Good(w, c.freq, st) && RiskPrefix(st.calls) != [] && !intent.runtime.cycle
    requires !w.status(RiskPrefix(st.calls)).breaker && !CooldownAlert(w.alerts(RiskPrefix(st.calls)))
    requires !row.called && row.terminal == NoSignal && row.action == ActionOf(intent.signal)
    ensures Handled(w, c.freq, st, row, NativeBar(w, c, st, row, intent, rows, bar, at, price))
  {
    var holds := Holds(w.position(st.calls));
    if intent.signal != 0 && !(intent.signal == 1 && holds && !intent.manage) && !(intent.signal == -1 && !holds) {
      var decision := rows[bar - 1];
      var obs := Observation(bar - 1, decision.raw.ts + c.delta, decision.raw, decision.features);
      var e := Execute(intent.runtime, RawPrefix(rows, bar), obs, None);
      var st1 := Called(st, e);
      ExecuteKeeps(w, c.freq, st, e);
      var x := w.execution(st1.calls);
      var st2 := st1.(signalLog := st1.signalLog +
                        [SignalEntry(decision.raw.ts, at, price, if intent.signal == 1 then BUY else SELL, false, x)]);
      var st3 := NativeOrders(w, st2, x.orders, intent.runtime, bar, at, price);
      CalmNativeOrders(w, c.freq, st2, x.orders, intent.runtime, bar, at, price);
      CalmStampAll(w, c.freq, st3, w.history(st3.calls), at, bar, price, BarOpen, None);
      CalmTrans(w, c.freq, st2, st3, StampNew(w, st3, at, bar, price, BarOpen, None));
    }
  }

  lemma {:induction false} ActOnKeeps(w: World, c: Config, t: Table, start: int, st: State, row: FunnelRow,
                                      intent: Intent, bar: int, tick: Tick)
    requires ValidTable(t) && 0 <= start <= bar <= |t.rows| && c.freq > 0
    requires Good(w, c.freq, st) && RiskPrefix(st.calls) != []
    requires !row.called && row.terminal == NoSignal && (bar == start ==> intent.signal == 0)
    ensures var risk := RiskPrefix(st.calls);
            Handled(w, c.freq, st, row,
                    ActOn(w, c, t, start, st, row, intent, bar, tick, w.status(risk), CooldownAlert(w.alerts(risk))))
  {
    var status, cooldown := w.status(RiskPrefix(st.calls)), CooldownAlert(w.alerts(RiskPrefix(st.calls)));
    var due := Due(start, c.freq, bar);
    var row1 := Preset(row, bar == start, intent.runtime.cycle && due, due, intent.signal, status.breaker, cooldown);
    assert row1.(called := false) == row1;
    if intent.runtime.cycle && due {
      CycleBarKeeps(w, c, st, row1, intent.runtime, t.rows, bar, tick.ts, tick.open, status.breaker || status.cooldown);
    } else if due && !status.breaker && !cooldown {
      NativeBarKeeps(w, c, st, row1, intent, t.rows, bar, tick.ts, tick.open);
    }
  }

  lemma {:induction false} DecideBarKeeps(w: World, c: Config, t: Table, start: int, st: State, bar: int, tick: Tick)
    requires ValidTable(t) && 0 <= start <= bar <= |t.rows| && c.freq > 0
    requires Good(w, c.freq, st)
    ensures var o := DecideBar(w, c, t, start, st, bar, tick);
            && Kept(w, c.freq, st, o.st)
            && (o.err.None? ==>
                  && BreakersLogged(w, o.st)
                  && Settled(o.row) && o.row.bar == bar && o.row.decisionBar == bar - 1
                  && CountExecutes(o.st.calls) == CountExecutes(st.calls) + if o.row.called then 1 else 0)
  {
    var (st1, row) := Opening(w, st, bar, tick.ts, tick.open);
    CalmOpening(w, c.freq, st, bar, tick.ts, tick.open);
    RiskCheckKeeps(w, c.freq, st1, bar, tick.ts, tick.open);
    var risk := RiskCheck(w, st1, bar, tick.ts, tick.open);
    if risk.err.None? {
      var routed := Intend(w, c, t, start, risk.st, bar, w.status(st1.calls + [CheckAll]).breaker);
      IntendKeeps(w, c, t, start, risk.st, bar, w.status(st1.calls + [CheckAll]).breaker);
      if routed.err.None? {
        ActOnKeeps(w, c, t, start, routed.st, row, routed.intent, bar, tick);
      }
    }
  }

  lemma {:induction false} IntendKeeps(w: World, c: Config, t: Table, start: int, st: State, bar: int, on: bool)
    requires ValidTable(t) && 0 <= start <= bar <= |t.rows| && c.freq > 0
    ensures var r := Intend(w, c, t, start, st, bar, on);
            Calm(w, c.freq, st, r.st) && (bar == start ==> r.intent.signal == 0)
  {
    if c.adaptive && Due(start, c.freq, bar) && !on {
      CalmRoute(w, c, st, t.rows[bar - 1], SignalAt(t, start, bar));
    }
  }

  /** State after the marks of the close, before equity and funnel are recorded. */
  function MarkedClose(w: World, c: Config, st: State, bar: int, raw: Raw): State {
    var at := raw.ts + c.delta;
    var st1 := Called(st, SetClock(at));
    MarkPrice(w, if raw.low < raw.open then MarkPrice(w, st1, at, bar, raw.low, BarLow) else st1, at, bar, raw.close,
              BarClose)
  }

  lemma {:induction false} CalmClose(w: World, c: Config, st: State, bar: int, raw: Raw)
    requires c.freq > 0
    ensures Calm(w, c.freq, st, MarkedClose(w, c, st, bar, raw))
  {
    hide MarkPrice, Calm;
    var at := raw.ts + c.delta;
    var st1 := Called(st, SetClock(at));
    CalmCall(w, c.freq, st, SetClock(at));
    CalmMark(w, c.freq, st1, at, bar, raw.low, BarLow);
    var st2 := if raw.low < raw.open then MarkPrice(w, st1, at, bar, raw.low, BarLow) else st1;
    CalmTrans(w, c.freq, st, st1, st2);
    CalmMark(w, c.freq, st2, at, bar, raw.close, BarClose);
    CalmTrans(w, c.freq, st, st2, MarkPrice(w, st2, at, bar, raw.close, BarClose));
  }

  // ------------------------------------------------------------------- whole runs

  function CalledRows(rows: seq<FunnelRow>): nat {
    if rows == [] then 0
    else if rows[|rows| - 1].called then CalledRows(rows[..|rows| - 1]) + 1
    else CalledRows(rows[..|rows| - 1])
  }

  /** One settled row per bar, in order; as many of them called the runtime as the log did. */
  ghost predicate Accounts(rows: seq<FunnelRow>, start: int, bar: int, executes: int) {
    && |rows| == bar - start
    && (forall k :: 0 <= k < |rows| ==>
              rows[k].bar == start + k && rows[k].decisionBar == start + k - 1 && Settled(rows[k]))
    && CalledRows(rows) == executes
  }

  ghost predicate Completed(w: World, freq: int, st: State, start: int, bar: int)
    requires freq > 0
  {
    && Good(w, freq, st)
    && |st.equityCurve| == bar - start
    && (st.funnel.Some? ==> Accounts(st.funnel.value, start, bar, CountExecutes(st.calls)))
  }

  function Initial(funnel: bool): State {
    State([], [], [], [], [], false, None, {}, [], if funnel then Some([]) else None)
  }

  lemma {:induction false} CloseBarCompletes(w: World, c: Config, before: State, o: State, row: FunnelRow, start: int,
                                             bar: int, raw: Raw)
    requires c.freq > 0 && start <= bar && Completed(w, c.freq, before, start, bar)
    requires Kept(w, c.freq, before, o) && BreakersLogged(w, o)
    requires Settled(row) && row.bar == bar && row.decisionBar == bar - 1
    requires CountExecutes(o.calls) == CountExecutes(before.calls) + if row.called then 1 else 0
    ensures Completed(w, c.freq, CloseBar(w, c, o, row, bar, raw), start, bar + 1)
    ensures CloseBar(w, c, o, row, bar, raw).funnel.Some? == before.funnel.Some?
  {
    hide MarkPrice;
    CalmClose(w, c, o, bar, raw);
    var marked := MarkedClose(w, c, o, bar, raw);
    if before.funnel.Some? {
      var rows, last := before.funnel.value, row.(after := Holds(w.position(marked.calls)));
      assert (rows + [last])[..|rows|] == rows;
      assert CloseBar(w, c, o, row, bar, raw).funnel == Some(rows + [last]);
    }
  }

  lemma {:induction false} BarIsSafe(w: World, c: Config, t: Table, start: int, st: State, bar: int)
    requires ValidTable(t) && 0 <= start <= bar < |t.rows| && c.freq > 0
    requires Completed(w, c.freq, st, start, bar)
    ensures var r := Bar(w, c, t, start, st, bar);
            && HaltSafe(w, c.freq, r.st.calls) && Tidy(r.st)
            && (r.err.None? ==> Completed(w, c.freq, r.st, start, bar + 1) && r.st.funnel.Some? == st.funnel.Some?)
  {
    hide DecideBar, CloseBar;
    var raw := t.rows[bar].raw;
    DecideBarKeeps(w, c, t, start, st, bar, Tick(raw.ts, raw.open));
    var o := DecideBar(w, c, t, start, st, bar, Tick(raw.ts, raw.open));
    if o.err.None? {
      CloseBarCompletes(w, c, st, o.st, o.row, start, bar, raw);
    }
  }

  /** Every run of the simulator, completed or aborted. */
  lemma {:induction false} RunIsSafe(w: World, c: Config, t: Table, start: int, bar: int, funnel: bool)
    requires ValidTable(t) && 0 <= start <= bar <= |t.rows| && c.freq > 0
    ensures var r := RunBars(w, c, t, start, Initial(funnel), bar);
            && HaltSafe(w, c.freq, r.st.calls) && Tidy(r.st)
            && (r.err.None? ==> Completed(w, c.freq, r.st, start, bar) && r.st.funnel.Some? == funnel)
    decreases bar
  {
    hide Bar;
    if bar > start {
      RunIsSafe(w, c, t, start, bar - 1, funnel);
      var before := RunBars(w, c, t, start, Initial(funnel), bar - 1);
      if before.err.None? {
        BarIsSafe(w, c, t, start, before.st, bar - 1);
      }
    }
  }

  /** `HaltSafe`, spelled out: every runtime call of a run passed the gate. */
  lemma {:induction false} EveryCallIsGated(w: World, freq: int, calls: Log, k: nat)
    requires freq > 0 && HaltSafe(w, freq, calls)
    requires k < |calls| && calls[k].Execute?
    ensures MayExecute(w, freq, calls[..k], calls[k])
  {
    var front := calls[..|calls| - 1];
    if k < |front| {
      EveryCallIsGated(w, freq, front, k);
      assert front[..k] == calls[..k];
    }
  }

  /** Halt safety over whole runs: with the breaker on, or with the cooldown each branch reads,
      only a cycle policy holding inventory reaches the runtime, and always at cadence. */
  lemma {:induction false} HaltedCallsAreGated(w: World, c: Config, t: Table, start: int, bar: int, funnel: bool,
                                               k: nat)
    requires ValidTable(t) && 0 <= start <= bar <= |t.rows| && c.freq > 0
    requires var calls := RunBars(w, c, t, start, Initial(funnel), bar).st.calls; k < |calls| && calls[k].Execute?
    ensures var calls := RunBars(w, c, t, start, Initial(funnel), bar).st.calls;
            var status := w.status(RiskPrefix(calls[..k]));
            && calls[k].obs.index % c.freq == 0
            && (!calls[k].runtime.cycle ==> !status.breaker && !CooldownAlert(w.alerts(RiskPrefix(calls[..k]))))
            && (calls[k].runtime.cycle && (status.breaker || status.cooldown) ==>
                  var q := CycleQuantity(w.position(calls[..k])); q.Some? && q.value > 0.0)
  {
    RunIsSafe(w, c, t, start, bar, funnel);
    EveryCallIsGated(w, c.freq, RunBars(w, c, t, start, Initial(funnel), bar).st.calls, k);
  }

  // ------------------------------------------------------------------- stamping

  /** Stamping a trade rewrites its own fields and may move it in the list; the other trades stay
      as they are, and no trade is added. */
  ghost predicate StampsTouchOneTrade(w: World) {
    forall calls: Log, id: string, s: Stamp ::
            TouchesOneTrade(w.history(calls), w.history(calls + [StampTrade(id, s)]), id)
  }

  ghost predicate TouchesOneTrade(before: seq<Trade>, after: seq<Trade>, id: string) {
    && (forall t :: t in before && t.id != id ==> t in after)
    && (forall t :: t in after ==> HasId(before, t.id))
  }

  ghost predicate HasId(trades: seq<Trade>, id: string) {
    exists t :: t in trades && t.id == id
  }

  ghost predicate AllStamped(w: World, st: State) {
    forall t :: t in w.history(st.calls) ==> t.id in st.stamped
  }

  lemma {:induction false} StampedIsTheIds(st: State, trades: seq<Trade>, at: int, bar: int, price: real, kind: RefType,
                                           reason: Option<string>)
    ensures StampAll(st, trades, at, bar, price, kind, reason).stamped == st.stamped + (set t | t in trades :: t.id)
  {
    if trades != [] {
      var n := |trades| - 1;
      assert trades == trades[..n] + [trades[n]];
      StampedIsTheIds(st, trades[..n], at, bar, price, kind, reason);
      assert (set t | t in trades :: t.id) == (set t | t in trades[..n] :: t.id) + {trades[n].id};
    }
  }

  /** What a stamping pass does to the history. */
  ghost predicate PassKept(w: World, start: Log, st: State) {
    && (forall t :: t in w.history(st.calls) ==> HasId(w.history(start), t.id))
    && (forall t :: t in w.history(start) && t.id !in st.stamped ==> t in w.history(st.calls))
  }

  lemma {:induction false} PassBegins(w: World, st: State)
    ensures PassKept(w, st.calls, st)
  {
    forall t | t in w.history(st.calls) ensures HasId(w.history(st.calls), t.id) {
    }
  }

  /** No trade appears during a pass, and those not stamped stay as they are. */
  lemma {:induction false} StampAllCovers(w: World, st: State, trades: seq<Trade>, at: int, bar: int, price: real,
                                          kind: RefType, reason: Option<string>)
    requires StampsTouchOneTrade(w)
    ensures PassKept(w, st.calls, StampAll(st, trades, at, bar, price, kind, reason))
  {
    hide PassKept, StampsTouchOneTrade;
    if trades == [] {
      PassBegins(w, st);
    } else {
      var n := |trades| - 1;
      StampAllCovers(w, st, trades[..n], at, bar, price, kind, reason);
      var front := StampAll(st, trades[..n], at, bar, price, kind, reason);
      if trades[n].id !in front.stamped {
        OneMoreStamp(w, st.calls, front, trades[n].id, StampOf(trades[n], at, bar, price, kind, reason));
      }
    }
  }

  lemma {:induction false} OneMoreStamp(w: World, start: Log, st: State, id: string, s: Stamp)
    requires StampsTouchOneTrade(w) && PassKept(w, start, st)
    ensures PassKept(w, start, Called(st, StampTrade(id, s)).(stamped := st.stamped + {id}))
  {
    assert TouchesOneTrade(w.history(st.calls), w.history(st.calls + [StampTrade(id, s)]), id);
  }

  /** Exactly the trades not stamped before get a stamp, with this bar's time and price. */
  lemma {:induction false} OnlyNewTradesAreStamped(st: State, trades: seq<Trade>, at: int, bar: int, price: real,
                                                   kind: RefType, reason: Option<string>, k: nat)
    requires var r := StampAll(st, trades, at, bar, price, kind, reason); |st.calls| <= k < |r.calls|
    ensures var r := StampAll(st, trades, at, bar, price, kind, reason);
            && r.calls[..|st.calls|] == st.calls
            && r.calls[k].StampTrade? && r.calls[k].id !in st.stamped
            && exists t :: t in trades && r.calls[k] == StampTrade(t.id, StampOf(t, at, bar, price, kind, reason))
  {
    var n := |trades| - 1;
    var front := StampAll(st, trades[..n], at, bar, price, kind, reason);
    StampAllExtends(st, trades[..n], at, bar, price, kind, reason);
    if k < |front.calls| {
      OnlyNewTradesAreStamped(st, trades[..n], at, bar, price, kind, reason, k);
      var t :| t in trades[..n] && front.calls[k] == StampTrade(t.id, StampOf(t, at, bar, price, kind, reason));
      assert t in trades;
    } else {
      assert trades[n] in trades;
    }
  }

  lemma {:induction false} StampAllExtends(st: State, trades: seq<Trade>, at: int, bar: int, price: real, kind: RefType,
                                           reason: Option<string>)
    ensures var r := StampAll(st, trades, at, bar, price, kind, reason);
            st.stamped <= r.stamped && |st.calls| <= |r.calls| && r.calls[..|st.calls|] == st.calls
  {
    if trades != [] {
      StampAllExtends(st, trades[..|trades| - 1], at, bar, price, kind, reason);
    }
  }

  ghost predicate StampedHere(a: Log, b: Log, id: string) {
    exists k :: |a| <= k < |b| && b[k].StampTrade? && b[k].id == id
  }

  /** And every trade not stamped before gets one. */
  lemma {:induction false} EveryNewTradeIsStamped(st: State, trades: seq<Trade>, at: int, bar: int, price: real,
                                                  kind: RefType, reason: Option<string>, t: Trade)
    requires t in trades && t.id !in st.stamped
    ensures StampedHere(st.calls, StampAll(st, trades, at, bar, price, kind, reason).calls, t.id)
  {
    var n := |trades| - 1;
    var front, r := StampAll(st, trades[..n], at, bar, price, kind, reason),
                    StampAll(st, trades, at, bar, price, kind, reason);
    StampAllExtends(st, trades[..n], at, bar, price, kind, reason);
    if t in trades[..n] {
      EveryNewTradeIsStamped(st, trades[..n], at, bar, price, kind, reason, t);
      var k :| |st.calls| <= k < |front.calls| && front.calls[k].StampTrade? && front.calls[k].id == t.id;
      assert r.calls[k] == front.calls[k];
    } else {
      assert trades[n] == t;
      if t.id in front.stamped {
        StampedHasStamp(st, trades[..n], at, bar, price, kind, reason, t.id);
      } else {
        assert r.calls[|front.calls|].id == t.id;
      }
    }
  }

  lemma {:induction false} StampedHasStamp(st: State, trades: seq<Trade>, at: int, bar: int, price: real, kind: RefType,
                                           reason: Option<string>, id: string)
    requires id !in st.stamped && id in StampAll(st, trades, at, bar, price, kind, reason).stamped
    ensures StampedHere(st.calls, StampAll(st, trades, at, bar, price, kind, reason).calls, id)
  {
    var n := |trades| - 1;
    var front, r := StampAll(st, trades[..n], at, bar, price, kind, reason),
                    StampAll(st, trades, at, bar, price, kind, reason);
    StampAllExtends(st, trades[..n], at, bar, price, kind, reason);
    if id in front.stamped {
      StampedHasStamp(st, trades[..n], at, bar, price, kind, reason, id);
      var k :| |st.calls| <= k < |front.calls| && front.calls[k].StampTrade? && front.calls[k].id == id;
      assert r.calls[k] == front.calls[k];
    } else {
      assert r.calls[|front.calls|].id == id;
    }
  }

  lemma {:induction false} MarkStampsAll(w: World, st: State, at: int, bar: int, price: real, kind: RefType)
    requires StampsTouchOneTrade(w)
    ensures AllStamped(w, MarkPrice(w, st, at, bar, price, kind))
  {
    var st1 := Called(UpdateExcursion(w, st, price), UpdatePrices(price));
    hide StampAll, UpdateExcursion, StampsTouchOneTrade;
    StampAllCovers(w, st1, w.history(st1.calls), at, bar, price, kind, None);
    StampedIsTheIds(st1, w.history(st1.calls), at, bar, price, kind, None);
  }

  lemma {:induction false} CloseStampsAll(w: World, c: Config, st: State, row: FunnelRow, bar: int, raw: Raw)
    requires StampsTouchOneTrade(w)
    ensures AllStamped(w, CloseBar(w, c, st, row, bar, raw))
  {
    hide MarkPrice, StampsTouchOneTrade;
    var at := raw.ts + c.delta;
    var st1 := Called(st, SetClock(at));
    MarkStampsAll(w, if raw.low < raw.open then MarkPrice(w, st1, at, bar, raw.low, BarLow) else st1, at, bar,
                  raw.close, BarClose);
  }

  /** At the end of every completed bar each listed trade is stamped, and over the whole run no
      trade was stamped twice. */
  lemma {:induction false} EveryTradeIsStampedOnce(w: World, c: Config, t: Table, start: int, bar: int, funnel: bool)
    requires ValidTable(t) && 0 <= start < bar <= |t.rows| && c.freq > 0 && StampsTouchOneTrade(w)
    ensures var r := RunBars(w, c, t, start, Initial(funnel), bar);
            && Distinct(StampedIds(r.st.calls))
            && (r.err.None? ==>
                  forall trade :: trade in w.history(r.st.calls) ==> trade.id in StampedIds(r.st.calls))
  {
    hide DecideBar, CloseBar;
    RunIsSafe(w, c, t, start, bar, funnel);
    var r := RunBars(w, c, t, start, Initial(funnel), bar);
    if r.err.None? {
      var before := RunBars(w, c, t, start, Initial(funnel), bar - 1);
      var raw := t.rows[bar - 1].raw;
      var o := DecideBar(w, c, t, start, before.st, bar - 1, Tick(raw.ts, raw.open));
      CloseStampsAll(w, c, o.st, o.row, bar - 1, raw);
    }
  }
}
