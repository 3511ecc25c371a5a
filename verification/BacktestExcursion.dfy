/** The excursion a position carries. */
module BacktestExcursion {
  // The excursion a position carries is the fold of the prices marked since its entry, and the
  // adverse excursion stamped on a trade never exceeds the favourable one.

  import opened Arithmetic
  import opened Wrappers
  import opened Backtest
  import opened BacktestSafety

  // ------------------------------------------------- what the exchange does with metadata

  /** The simulation entry of an open position. */
  function SimulationOf(p: Option<Position>): Option<Excursion> {
    if p.Some? && p.value.active then p.value.simulation else None
  }

  /** The `simulation` entry of an open position changes only when the simulator writes it, and goes
      when the position closes. A trade carries a copy of the entry its position had. */
  ghost predicate KeepsMetadata(w: World) {
    && SimulationOf(w.position([])).None?
    && (forall t :: t in w.history([]) ==> t.simulation.None?)
    && (forall calls, c :: Carried(w, calls, c))
    && (forall calls, c, t :: t in w.history(calls + [c]) ==> Copied(w, calls, t))
  }

  ghost predicate Carried(w: World, calls: Log, c: Call) {
    var before, after := SimulationOf(w.position(calls)), SimulationOf(w.position(calls + [c]));
    after.Some? ==>
      match c
      case Attach(_, m, _) => after == Some(m)
      case Widen(_, low, high) => before.Some? && after.value == before.value.(low := low, high := high)
      case _ => after == before
  }

  ghost predicate Copied(w: World, calls: Log, t: Trade) {
    || t.simulation.None?
    || t.simulation == SimulationOf(w.position(calls))
    || exists u :: u in w.history(calls) && u.simulation == t.simulation
  }

  // ------------------------------------------------------- the reference definition

  /** The reference price of the last entry in the log. */
  function EntryRef(calls: Log): Option<real> {
    if calls == [] then None
    else if calls[|calls| - 1].Attach? then Some(calls[|calls| - 1].excursion.entryRef)
    else EntryRef(calls[..|calls| - 1])
  }

  /** The time of the last entry in the log. */
  function EntryTime(calls: Log): Option<int> {
    if calls == [] then None
    else if calls[|calls| - 1].Attach? then Some(calls[|calls| - 1].at)
    else EntryTime(calls[..|calls| - 1])
  }

  /** A Widen whose mark has not followed yet. */
  predicate Pending(calls: Log) {
    calls != [] && calls[|calls| - 1].Widen?
  }

  /** The prices marked since that entry, with the one the last Widen announces. */
  function Seen(calls: Log): seq<real> {
    if calls == [] then []
    else
      var front, c := calls[..|calls| - 1], calls[|calls| - 1];
      if c.Attach? then []
      else if c.Widen? then Seen(front) + [c.ref]
      else if c.UpdatePrices? && !Pending(front) then Seen(front) + [c.price]
      else Seen(front)
  }

  /** The prices marked since the last entry, and nothing else. */
  function Marked(calls: Log): seq<real> {
    if calls == [] then []
    else
      var front, c := calls[..|calls| - 1], calls[|calls| - 1];
      if c.Attach? then [] else if c.UpdatePrices? then Marked(front) + [c.price] else Marked(front)
  }

  ghost predicate IsLeast(x: real, entry: real, refs: seq<real>) {
    && (x == entry || x in refs) && x <= entry && forall r :: r in refs ==> x <= r
  }

  ghost predicate IsGreatest(x: real, entry: real, refs: seq<real>) {
    && (x == entry || x in refs) && x >= entry && forall r :: r in refs ==> x >= r
  }

  /** The entry's time and reference price, and the extremes of that price and some others. */
  ghost predicate IsFold(m: Excursion, calls: Log, refs: seq<real>) {
    && EntryRef(calls) == Some(m.entryRef) && EntryTime(calls) == Some(m.entryTime)
    && IsLeast(m.low, m.entryRef, refs)
    && IsGreatest(m.high, m.entryRef, refs)
  }

  // --------------------------------------------------- what the simulator writes

  /** Every write in the log was computed from what the exchange said just before it, and no mark
      of an open position with a simulation entry came without its Widen. */
  ghost predicate Stepwise(w: World, calls: Log) {
    calls != [] ==> Stepwise(w, calls[..|calls| - 1]) && Justified(w, calls[..|calls| - 1], calls[|calls| - 1])
  }

  ghost predicate Disciplined(w: World, calls: Log) {
    Stepwise(w, calls) && !Pending(calls)
  }

  ghost predicate Justified(w: World, before: Log, c: Call) {
    match c
    case UpdatePrices(price) =>
      if Pending(before) then before[|before| - 1].ref == price else SimulationOf(w.position(before)).None?
    case Attach(at, m, _) => !Pending(before) && m.low == m.entryRef == m.high && m.entryTime == at
    case Widen(ref, low, high) =>
      var m := SimulationOf(w.position(before));
      !Pending(before) && m.Some? && low == Min(m.value.low, ref) && high == Max(m.value.high, ref)
    case StampTrade(id, s) =>
      !Pending(before) && exists t :: t in w.history(before) && StampedAs(t, id, s)
    case _ => !Pending(before)
  }

  /** A stamp in percent of the entry price says from where to where the price went, and since when:
      by the trade's simulation entry, or by the trade alone if it has none. */
  ghost predicate StampedAs(t: Trade, id: string, s: Stamp) {
    && t.id == id
    && match t.simulation
       case Some(m) => Spans(s, t.entryPrice, m.low, m.high) && s.entryTime == m.entryTime
       case None =>
         && Spans(s, t.entryPrice, t.entryPrice, t.entryPrice)
         && (if t.entryTime.Some? then s.entryTime == t.entryTime.value else s.entryTime == s.at)
  }

  ghost predicate Spans(s: Stamp, entryPrice: Price, low: real, high: real) {
    (1.0 + s.mae / 100.0) * entryPrice == low && (1.0 + s.mfe / 100.0) * entryPrice == high
  }

  lemma {:induction false} PercentOf(x: real, p: Price)
    ensures (1.0 + (x / p - 1.0) * 100.0 / 100.0) * p == x
  {
    var q := x / p;
    assert (q - 1.0) * 100.0 / 100.0 == q - 1.0;
  }

  lemma {:induction false} StampShows(t: Trade, at: int, bar: int, price: real, kind: RefType, reason: Option<string>)
    ensures StampedAs(t, t.id, StampOf(t, at, bar, price, kind, reason))
  {
    if t.simulation.Some? {
      PercentOf(t.simulation.value.low, t.entryPrice);
      PercentOf(t.simulation.value.high, t.entryPrice);
    }
    PercentOf(t.entryPrice, t.entryPrice);
  }

  lemma {:induction false} DisciplineSnoc(w: World, calls: Log, c: Call)
    requires Stepwise(w, calls) && Justified(w, calls, c)
    ensures Stepwise(w, calls + [c])
    ensures Pending(calls + [c]) <==> c.Widen?
  {
    assert (calls + [c])[..|calls|] == calls;
  }

  // --------------------------------------------------------------- main theorems

  lemma {:induction false} SeenIsTheFold(w: World, calls: Log)
    requires KeepsMetadata(w) && Stepwise(w, calls)
    ensures var m := SimulationOf(w.position(calls)); m.Some? ==> IsFold(m.value, calls, Seen(calls))
  {
    if calls != [] {
      var front, c := calls[..|calls| - 1], calls[|calls| - 1];
      SeenIsTheFold(w, front);
      assert calls == front + [c];
      assert Carried(w, front, c);
    }
  }

  lemma {:induction false} SeenIsMarked(w: World, calls: Log)
    requires Stepwise(w, calls)
    ensures Seen(calls) == if Pending(calls) then Marked(calls) + [calls[|calls| - 1].ref] else Marked(calls)
  {
    if calls != [] {
      SeenIsMarked(w, calls[..|calls| - 1]);
    }
  }

  /** In every disciplined log the open position's excursion is the fold of the prices marked since
      its entry. */
  lemma {:induction false} ExcursionIsTheFold(w: World, calls: Log)
    requires KeepsMetadata(w) && Disciplined(w, calls)
    ensures var m := SimulationOf(w.position(calls)); m.Some? ==> IsFold(m.value, calls, Marked(calls))
  {
    SeenIsTheFold(w, calls);
    SeenIsMarked(w, calls);
  }

  ghost predicate Ordered(m: Excursion) {
    m.low <= m.entryRef <= m.high
  }

  lemma {:induction false} TradesAreOrdered(w: World, calls: Log, t: Trade)
    requires KeepsMetadata(w) && Stepwise(w, calls) && t in w.history(calls)
    ensures t.simulation.Some? ==> Ordered(t.simulation.value)
    decreases |calls|
  {
    if calls != [] && t.simulation.Some? {
      var front, c := calls[..|calls| - 1], calls[|calls| - 1];
      assert calls == front + [c];
      assert Copied(w, front, t);
      if t.simulation == SimulationOf(w.position(front)) {
        SeenIsTheFold(w, front);
      } else {
        var u :| u in w.history(front) && u.simulation == t.simulation;
        TradesAreOrdered(w, front, u);
      }
    }
  }

  lemma {:induction false} StampIsOrdered(t: Trade, s: Stamp)
    requires StampedAs(t, t.id, s)
    requires t.simulation.Some? ==> Ordered(t.simulation.value)
    ensures s.mae <= s.mfe
    ensures t.simulation.Some? ==>
              var entry := (t.simulation.value.entryRef / t.entryPrice - 1.0) * 100.0; s.mae <= entry <= s.mfe
    ensures t.simulation.None? ==> s.mae == 0.0 && s.mfe == 0.0
  {
    var p, a, b := t.entryPrice, 1.0 + s.mae / 100.0, 1.0 + s.mfe / 100.0;
    if t.simulation.Some? {
      var m := t.simulation.value;
      var e := m.entryRef / p;
      assert e * p == m.entryRef;
      CancelFactor(a, e, p, m.low, m.entryRef);
      CancelFactor(e, b, p, m.entryRef, m.high);
    } else {
      CancelFactor(a, 1.0, p, p, p);
      CancelFactor(1.0, a, p, p, p);
      CancelFactor(b, 1.0, p, p, p);
      CancelFactor(1.0, b, p, p, p);
    }
  }

  lemma {:induction false} EveryStampIsOrdered(w: World, calls: Log, k: nat)
    requires KeepsMetadata(w) && Stepwise(w, calls)
    requires k < |calls| && calls[k].StampTrade?
    ensures calls[k].stamp.mae <= calls[k].stamp.mfe
  {
    var front := calls[..|calls| - 1];
    if k < |front| {
      EveryStampIsOrdered(w, front, k);
    } else {
      var t :| t in w.history(front) && StampedAs(t, calls[k].id, calls[k].stamp);
      TradesAreOrdered(w, front, t);
      StampIsOrdered(t, calls[k].stamp);
    }
  }

  /** The log up to which the position of this trade was open: its simulation entry then is the
      trade's, and it is the fold of the prices marked since that position's entry. */
  ghost predicate OpenUntil(w: World, calls: Log, m: Excursion, j: nat) {
    j <= |calls| && SimulationOf(w.position(calls[..j])) == Some(m) && IsFold(m, calls[..j], Seen(calls[..j]))
  }

  lemma {:induction false} TradesCarryFolds(w: World, calls: Log, t: Trade) returns (j: nat)
    requires KeepsMetadata(w) && Stepwise(w, calls) && t in w.history(calls) && t.simulation.Some?
    ensures OpenUntil(w, calls, t.simulation.value, j)
    decreases |calls|
  {
    var front, c := calls[..|calls| - 1], calls[|calls| - 1];
    assert calls == front + [c];
    assert Copied(w, front, t);
    if t.simulation == SimulationOf(w.position(front)) {
      SeenIsTheFold(w, front);
      j := |front|;
    } else {
      var u :| u in w.history(front) && u.simulation == t.simulation;
      j := TradesCarryFolds(w, front, u);
      assert front[..j] == calls[..j];
    }
  }

  /** The stamp's own figures are the extremes of the entry reference and the prices marked while the
      position was open, and its entry time is when that position was entered. */
  ghost predicate Extremes(w: World, calls: Log, t: Trade, s: Stamp, j: nat) {
    && j <= |calls| && SimulationOf(w.position(calls[..j])) == t.simulation
    && EntryTime(calls[..j]) == Some(s.entryTime)
    && EntryRef(calls[..j]).Some?
    && IsLeast((1.0 + s.mae / 100.0) * t.entryPrice, EntryRef(calls[..j]).value, Seen(calls[..j]))
    && IsGreatest((1.0 + s.mfe / 100.0) * t.entryPrice, EntryRef(calls[..j]).value, Seen(calls[..j]))
  }

  /** Stamp k is of a trade in the history then: with a simulation entry it shows the extremes of an
      open position, without one it shows none. */
  ghost predicate ShowsTrade(w: World, calls: Log, k: nat)
    requires k < |calls| && calls[k].StampTrade?
  {
    exists t :: t in w.history(calls[..k]) && t.id == calls[k].id && Shows(w, calls[..k], t, calls[k].stamp)
  }

  /** What a stamp made for this trade shows. */
  ghost predicate Shows(w: World, log: Log, t: Trade, s: Stamp) {
    if t.simulation.Some? then exists j: nat :: Extremes(w, log, t, s, j)
    else s.mae == 0.0 && s.mfe == 0.0 && s.entryTime == if t.entryTime.Some? then t.entryTime.value else s.at
  }

  lemma {:induction false} SameExtremes(x: real, low: real, y: real, high: real, entry: real, refs: seq<real>)
    requires x == low && y == high && IsLeast(low, entry, refs) && IsGreatest(high, entry, refs)
    ensures IsLeast(x, entry, refs) && IsGreatest(y, entry, refs)
  {
  }

  lemma {:induction false} FoldShows(w: World, log: Log, t: Trade, s: Stamp, j: nat)
    requires t.simulation.Some? && StampedAs(t, t.id, s) && OpenUntil(w, log, t.simulation.value, j)
    ensures Extremes(w, log, t, s, j)
  {
    var m, open := t.simulation.value, log[..j];
    SameExtremes((1.0 + s.mae / 100.0) * t.entryPrice, m.low, (1.0 + s.mfe / 100.0) * t.entryPrice, m.high, m.entryRef,
                 Seen(open));
    assert EntryTime(open) == Some(s.entryTime) && EntryRef(open).value == m.entryRef;
  }

  lemma {:induction false} StampedShows(w: World, log: Log, t: Trade, s: Stamp)
    requires KeepsMetadata(w) && Stepwise(w, log) && t in w.history(log) && StampedAs(t, t.id, s)
    ensures Shows(w, log, t, s)
  {
    hide KeepsMetadata, Stepwise, Extremes;
    if t.simulation.Some? {
      var j := TradesCarryFolds(w, log, t);
      FoldShows(w, log, t, s, j);
    } else {
      StampIsOrdered(t, s);
    }
  }

  lemma {:induction false} StampsShowExtremes(w: World, calls: Log, k: nat)
    requires KeepsMetadata(w) && Stepwise(w, calls)
    requires k < |calls| && calls[k].StampTrade?
    ensures ShowsTrade(w, calls, k)
  {
    var front := calls[..|calls| - 1];
    hide Shows, KeepsMetadata;
    if k < |front| {
      StampsShowExtremes(w, front, k);
      assert front[..k] == calls[..k] && front[k] == calls[k];
    } else {
      assert calls[..k] == front;
      var t :| t in w.history(front) && StampedAs(t, calls[k].id, calls[k].stamp);
      StampedShows(w, front, t, calls[k].stamp);
    }
  }

  // ------------------------------------------- every phase of a run keeps the discipline

  lemma {:induction false} StampAllDiscipline(w: World, st: State, trades: seq<Trade>, at: int, bar: int, price: real,
                                              kind: RefType, reason: Option<string>)
    requires StampsTouchOneTrade(w) && Disciplined(w, st.calls)
    requires forall t :: t in trades ==> t in w.history(st.calls)
    ensures Disciplined(w, StampAll(st, trades, at, bar, price, kind, reason).calls)
  {
    if trades != [] {
      var n := |trades| - 1;
      StampAllDiscipline(w, st, trades[..n], at, bar, price, kind, reason);
      StampAllCovers(w, st, trades[..n], at, bar, price, kind, reason);
      var front := StampAll(st, trades[..n], at, bar, price, kind, reason);
      if trades[n].id !in front.stamped {
        var s := StampOf(trades[n], at, bar, price, kind, reason);
        StampShows(trades[n], at, bar, price, kind, reason);
        assert trades[n] in w.history(front.calls) && StampedAs(trades[n], trades[n].id, s);
        DisciplineSnoc(w, front.calls, StampTrade(trades[n].id, s));
      }
    }
  }

  lemma {:induction false} StampNewDiscipline(w: World, st: State, at: int, bar: int, price: real, kind: RefType,
                                              reason: Option<string>)
    requires StampsTouchOneTrade(w) && Disciplined(w, st.calls)
    ensures Disciplined(w, StampNew(w, st, at, bar, price, kind, reason).calls)
  {
    StampAllDiscipline(w, st, w.history(st.calls), at, bar, price, kind, reason);
  }

  lemma {:induction false} PlainCallDiscipline(w: World, st: State, c: Call)
    requires Disciplined(w, st.calls) && !c.Attach? && !c.Widen? && !c.StampTrade? && !c.UpdatePrices?
    ensures Disciplined(w, Called(st, c).calls)
  {
  }

  lemma {:induction false} MarkDiscipline(w: World, st: State, at: int, bar: int, price: real, kind: RefType)
    requires StampsTouchOneTrade(w) && Disciplined(w, st.calls)
    ensures Disciplined(w, MarkPrice(w, st, at, bar, price, kind).calls)
  {
    hide StampNew;
    var m := SimulationOf(w.position(st.calls));
    var st1 := UpdateExcursion(w, st, price);
    if m.Some? {
      var e := Widen(price, Min(m.value.low, price), Max(m.value.high, price));
      DisciplineSnoc(w, st.calls, e);
      assert st1.calls == st.calls + [e];
    }
    DisciplineSnoc(w, st1.calls, UpdatePrices(price));
    StampNewDiscipline(w, Called(st1, UpdatePrices(price)), at, bar, price, kind, None);
  }

  lemma {:induction false} AttachDiscipline(w: World, st: State, at: int, bar: int, ref: real, strategy: string,
                                            preserve: bool)
    requires Disciplined(w, st.calls)
    ensures Disciplined(w, AttachEntry(w, st, at, bar, ref, strategy, preserve).calls)
  {
  }

  lemma {:induction false} CycleOrdersDiscipline(w: World, st: State, orders: seq<Order>, trace: Execution, rt: Runtime,
                                                 bar: int, decisionTs: int, at: int, price: real)
    requires Disciplined(w, st.calls)
    ensures Disciplined(w, CycleOrders(w, st, orders, trace, rt, bar, decisionTs, at, price).calls)
  {
    if orders != [] {
      var n := |orders| - 1;
      CycleOrdersDiscipline(w, st, orders[..n], trace, rt, bar, decisionTs, at, price);
      var front := CycleOrders(w, st, orders[..n], trace, rt, bar, decisionTs, at, price);
      var entry := SignalEntry(decisionTs, at, price, if orders[n].side.Buy? then BUY else SELL, true, trace);
      AttachDiscipline(w, front.(signalLog := front.signalLog + [entry]), at, bar, price, rt.name, true);
    }
  }

  lemma {:induction false} NativeOrdersDiscipline(w: World, st: State, orders: seq<Order>, rt: Runtime, bar: int,
                                                  at: int, price: real)
    requires Disciplined(w, st.calls)
    ensures Disciplined(w, NativeOrders(w, st, orders, rt, bar, at, price).calls)
  {
    if orders != [] {
      var n := |orders| - 1;
      NativeOrdersDiscipline(w, st, orders[..n], rt, bar, at, price);
      AttachDiscipline(w, NativeOrders(w, st, orders[..n], rt, bar, at, price), at, bar, price, rt.name, false);
    }
  }

  lemma {:induction false} RouteDiscipline(w: World, c: Config, st: State, row: Row, signal: int)
    requires Disciplined(w, st.calls)
    ensures Disciplined(w, RouteBar(w, c, st, row, signal).st.calls)
  {
    var p := w.position(st.calls);
    var q := RouteQuery(row, row.raw.ts + c.delta, !Holds(p), if Holds(p) then p.value.owner else None);
    hide RouteBar, Disciplined, Holds;
    var st1 := Called(st, q);
    PlainCallDiscipline(w, st, q);
    var asked := st1.(routed := st1.routed + [w.decision(st1.calls)]);
    PlainCallDiscipline(w, asked, ProvideRuntime(w.decision(st1.calls)));
    RouteStates(w, c, st, row, signal, asked, Called(asked, ProvideRuntime(w.decision(st1.calls))));
  }

  lemma {:induction false} RiskDiscipline(w: World, st: State, bar: int, ts: int, price: real)
    requires StampsTouchOneTrade(w) && Disciplined(w, st.calls)
    ensures Disciplined(w, RiskCheck(w, st, bar, ts, price).st.calls)
  {
    hide StampNew;
    PlainCallDiscipline(w, st, CheckAll);
    StampNewDiscipline(w, Called(st, CheckAll), ts, bar, price, BarOpen, Some("circuit_breaker"));
  }

  lemma {:induction false} CycleBarDiscipline(w: World, c: Config, st: State, row: FunnelRow, rt: Runtime,
                                              rows: seq<Row>, bar: int, at: int, price: real, halted: bool)
    requires StampsTouchOneTrade(w) && Disciplined(w, st.calls) && 0 < bar <= |rows|
    ensures Disciplined(w, CycleBar(w, c, st, row, rt, rows, bar, at, price, halted).st.calls)
  {
    hide CycleBar, CycleOrders, StampNew, CycleCall, Disciplined;
    var e := CycleCall(w, c, st, rt, rows, bar);
    var st1 := Called(st, e);
    var x := w.execution(st1.calls);
    CycleBarStates(w, c, st, row, rt, rows, bar, at, price, halted);
    PlainCallDiscipline(w, st, e);
    CycleOrdersDiscipline(w, st1, x.orders, x, rt, bar, rows[bar - 1].raw.ts, at, price);
    StampNewDiscipline(w, CycleOrders(w, st1, x.orders, x, rt, bar, rows[bar - 1].raw.ts, at, price), at, bar, price,
                       BarOpen, None);
  }

  lemma {:induction false} NativeBarDiscipline(w: World, c: Config, st: State, row: FunnelRow, intent: Intent,
                                               rows: seq<Row>, bar: int, at: int, price: real)
    requires StampsTouchOneTrade(w) && Disciplined(w, st.calls) && 0 < bar <= |rows|
    ensures Disciplined(w, NativeBar(w, c, st, row, intent, rows, bar, at, price).st.calls)
  {
    hide StampNew;
    var decision := rows[bar - 1];
    var obs := Observation(bar - 1, decision.raw.ts + c.delta, decision.raw, decision.features);
    var st1 := Called(st, Execute(intent.runtime, RawPrefix(rows, bar), obs, None));
    PlainCallDiscipline(w, st, Execute(intent.runtime, RawPrefix(rows, bar), obs, None));
    var x := w.execution(st1.calls);
    var st2 := st1.(signalLog := st1.signalLog +
                      [SignalEntry(decision.raw.ts, at, price, if intent.signal == 1 then BUY else SELL, false, x)]);
    NativeOrdersDiscipline(w, st2, x.orders, intent.runtime, bar, at, price);
    StampNewDiscipline(w, NativeOrders(w, st2, x.orders, intent.runtime, bar, at, price), at, bar, price, BarOpen,
                       None);
  }

  lemma {:induction false} DecideBarDiscipline(w: World, c: Config, t: Table, start: int, st: State, bar: int,
                                               tick: Tick)
    requires ValidTable(t) && 0 <= start <= bar <= |t.rows| && c.freq > 0
    requires StampsTouchOneTrade(w) && Disciplined(w, st.calls)
    ensures Disciplined(w, DecideBar(w, c, t, start, st, bar, tick).st.calls)
  {
    hide MarkPrice, RiskCheck, RouteBar, CycleBar, NativeBar, Preset;
    PlainCallDiscipline(w, st, SetClock(tick.ts));
    MarkDiscipline(w, Called(st, SetClock(tick.ts)), tick.ts, bar, tick.open, BarOpen);
    var (st1, row) := Opening(w, st, bar, tick.ts, tick.open);
    RiskDiscipline(w, st1, bar, tick.ts, tick.open);
    var risk := RiskCheck(w, st1, bar, tick.ts, tick.open);
    var status, cooldown := w.status(st1.calls + [CheckAll]), CooldownAlert(w.alerts(st1.calls + [CheckAll]));
    var routed := Intend(w, c, t, start, risk.st, bar, status.breaker);
    if Due(start, c.freq, bar) {
      RouteDiscipline(w, c, risk.st, t.rows[bar - 1], SignalAt(t, start, bar));
      var cycle := routed.intent.runtime.cycle;
      var row1 := Preset(row, bar == start, cycle, true, routed.intent.signal, status.breaker, cooldown);
      CycleBarDiscipline(w, c, routed.st, row1, routed.intent.runtime, t.rows, bar, tick.ts, tick.open,
                         status.breaker || status.cooldown);
      NativeBarDiscipline(w, c, routed.st, row1, routed.intent, t.rows, bar, tick.ts, tick.open);
    }
  }

  lemma {:induction false} CloseBarDiscipline(w: World, c: Config, st: State, row: FunnelRow, bar: int, raw: Raw)
    requires StampsTouchOneTrade(w) && Disciplined(w, st.calls)
    ensures Disciplined(w, CloseBar(w, c, st, row, bar, raw).calls)
  {
    hide MarkPrice;
    var at := raw.ts + c.delta;
    var st1 := Called(st, SetClock(at));
    PlainCallDiscipline(w, st, SetClock(at));
    MarkDiscipline(w, st1, at, bar, raw.low, BarLow);
    MarkDiscipline(w, if raw.low < raw.open then MarkPrice(w, st1, at, bar, raw.low, BarLow) else st1, at, bar,
                   raw.close, BarClose);
  }

  lemma {:induction false} RunIsDisciplined(w: World, c: Config, t: Table, start: int, bar: int, funnel: bool)
    requires ValidTable(t) && 0 <= start <= bar <= |t.rows| && c.freq > 0 && StampsTouchOneTrade(w)
    ensures Disciplined(w, RunBars(w, c, t, start, Initial(funnel), bar).st.calls)
    decreases bar
  {
    hide DecideBar, CloseBar;
    if bar > start {
      RunIsDisciplined(w, c, t, start, bar - 1, funnel);
      var before := RunBars(w, c, t, start, Initial(funnel), bar - 1);
      if before.err.None? {
        var raw := t.rows[bar - 1].raw;
        DecideBarDiscipline(w, c, t, start, before.st, bar - 1, Tick(raw.ts, raw.open));
        var o := DecideBar(w, c, t, start, before.st, bar - 1, Tick(raw.ts, raw.open));
        CloseBarDiscipline(w, c, o.st, o.row, bar - 1, raw);
      }
    }
  }

  /** Over every run: the extremes of an open position with a simulation entry are those of its
      entry reference and all prices marked since, and on every stamped trade the adverse excursion
      is at most the favourable one. */
  lemma {:induction false} RunExcursionsAreFolds(w: World, c: Config, t: Table, start: int, bar: int, funnel: bool)
    requires ValidTable(t) && 0 <= start <= bar <= |t.rows| && c.freq > 0
    requires StampsTouchOneTrade(w) && KeepsMetadata(w)
    ensures var calls := RunBars(w, c, t, start, Initial(funnel), bar).st.calls;
            && (var m := SimulationOf(w.position(calls)); m.Some? ==>
                  IsFold(m.value, calls, Marked(calls)) && Ordered(m.value))
            && (forall k :: 0 <= k < |calls| && calls[k].StampTrade? ==> calls[k].stamp.mae <= calls[k].stamp.mfe)
  {
    hide RunBars;
    RunIsDisciplined(w, c, t, start, bar, funnel);
    var calls := RunBars(w, c, t, start, Initial(funnel), bar).st.calls;
    ExcursionIsTheFold(w, calls);
    forall k | 0 <= k < |calls| && calls[k].StampTrade? ensures calls[k].stamp.mae <= calls[k].stamp.mfe {
      EveryStampIsOrdered(w, calls, k);
    }
  }

  /** Over every run each stamped trade shows the extremes of the entry reference and all prices marked
      while its position was open, and the time of its entry. */
  lemma {:induction false} RunStampsShowExtremes(w: World, c: Config, t: Table, start: int, bar: int, funnel: bool,
                                                 k: nat)
    requires ValidTable(t) && 0 <= start <= bar <= |t.rows| && c.freq > 0
    requires StampsTouchOneTrade(w) && KeepsMetadata(w)
    requires var calls := RunBars(w, c, t, start, Initial(funnel), bar).st.calls; k < |calls| && calls[k].StampTrade?
    ensures ShowsTrade(w, RunBars(w, c, t, start, Initial(funnel), bar).st.calls, k)
  {
    hide RunBars;
    RunIsDisciplined(w, c, t, start, bar, funnel);
    StampsShowExtremes(w, RunBars(w, c, t, start, Initial(funnel), bar).st.calls, k);
  }
}
