/** When a run of the simulator aborts, and what it asks and writes on the way. */
module BacktestProtocol {
  // Everything here is read off the call log and the answers to it: which part of which bar a log
  // has reached, what is wrong there, and which calls may follow with which contents.

  import opened Wrappers
  import opened Backtest
  import opened BacktestSafety

  // ----------------------------------------------------------- where a log has got to

  /** Before a bar; its clock set; its open marked; risks checked; the router asked; a runtime
      provided; a runtime called; the clock set to the close; the low marked. */
  datatype Phase = Night | Dawn | Open | Checked | Asked | Provided | Ran | Dusk | Low

  datatype Stage = Stage(bar: int, phase: Phase)

  function Advance(t: Table, s: Stage, e: Call): Stage {
    match e
    case SetClock(_) => if s.phase.Night? then s.(phase := Dawn) else s.(phase := Dusk)
    case UpdatePrices(_) =>
      if s.phase.Dawn? then s.(phase := Open)
      else if s.phase.Dusk? && FallsBelow(t, s.bar) then s.(phase := Low)
      else Stage(s.bar + 1, Night)
    case CheckAll => s.(phase := Checked)
    case RouteQuery(_, _, _, _) => s.(phase := Asked)
    case ProvideRuntime(_) => s.(phase := Provided)
    case Execute(_, _, _, _) => s.(phase := Ran)
    case _ => s
  }

  predicate FallsBelow(t: Table, bar: int) {
    0 <= bar < |t.rows| && t.rows[bar].raw.low < t.rows[bar].raw.open
  }

  function StageOf(t: Table, start: int, log: Log): Stage {
    if log == [] then Stage(start, Night) else Advance(t, StageOf(t, start, log[..|log| - 1]), log[|log| - 1])
  }

  // ------------------------------------------------------------------ what is wrong

  /** The decision just taken opens or manages a position. */
  predicate TakesUp(w: World, log: Log) {
    && log != [] && log[|log| - 1].RouteQuery?
    && var q, d := log[|log| - 1], w.decision(log);
       d.chosen.Some? && (d.allowNew || (!q.flat && d.chosen == q.owner))
  }

  /** A cycle policy whose record of the position cannot be read. */
  function Unreadable(w: World, rt: Runtime, log: Log): Option<Abort> {
    if rt.cycle && w.position(log).Some? && w.position(log).value.cycle.None? then Some(CycleRejected) else None
  }

  /** The breaker has just gone on, and no alert says why. */
  predicate Silent(w: World, risk: Log) {
    && risk != [] && w.status(risk).breaker && w.alerts(risk) == []
    && (RiskPrefix(risk[..|risk| - 1]) == [] || !w.status(RiskPrefix(risk[..|risk| - 1])).breaker)
  }

  /** What makes the run stop at this log, if anything. */
  function Fault(w: World, c: Config, t: Table, start: int, log: Log): Option<Abort>
    requires c.freq > 0
  {
    var s, risk := StageOf(t, start, log), RiskPrefix(log);
    match s.phase
    case Checked =>
      if Silent(w, risk) then Some(MissingAlert)
      else if s.bar <= start || (s.bar - 1) % c.freq != 0 then None
      else if c.adaptive && !w.status(risk).breaker then if c.routers then None else Some(MissingRouter)
      else Unreadable(w, c.runtime, log)
    case Asked =>
      if TakesUp(w, log) then if c.provider then None else Some(MissingProvider)
      else Unreadable(w, c.runtime, log)
    case Provided =>
      if log == [] || !log[|log| - 1].ProvideRuntime? then None
      else
        var d, r := log[|log| - 1].decision, w.runtime(log);
        if r.None? then Some(NoRuntime)
        else if d.chosen == Some(r.value.name) && r.value.symbol == c.symbol && r.value.timeframe == c.timeframe then
          Unreadable(w, r.value, log)
        else Some(RuntimeMismatch)
    case Ran =>
      if log != [] && log[|log| - 1].Execute? && log[|log| - 1].runtime.cycle &&
         w.execution(log).prepare in {"position_cycle_unknown", "position_cycle_snapshot_unavailable",
                                      "position_cycle_clock_unavailable", "bad_observation", "no_price"} then
        Some(CycleRejected)
      else None
    case _ => None
  }

  // ------------------------------------------------------------- what may come next

  predicate Flat(p: Option<Position>) {
    p.None? || !p.value.active || p.value.quantity <= 0.0
  }

  /** What a cycle policy is told about the account. */
  ghost predicate Reports(w: World, log: Log, s: Snapshot) {
    var p := w.position(log);
    && s.equity == w.equity(log) && s.cash == w.cash(log)
    && (p.None? ==> s.quantity == 0.0)
    && (p.Some? ==> p.value.cycle == Some(s.quantity))
    && (if p.Some? && s.quantity > 0.0 && p.value.mark > 0.0 && s.equity > 0.0 then
          s.exposure * s.equity == s.quantity * p.value.mark
        else s.exposure == 0.0)
  }

  /** A stamp tells where in the bar it was made, and that a breaker closed the trade if one did. */
  ghost predicate Placed(w: World, s: Stage, log: Log, stamp: Stamp) {
    match s.phase
    case Open => stamp.kind == BarOpen && stamp.bar == s.bar && stamp.reason.None?
    case Checked =>
      && stamp.kind == BarOpen && stamp.bar == s.bar && stamp.reason == Some("circuit_breaker")
      && w.status(RiskPrefix(log)).breaker
    case Ran => stamp.kind == BarOpen && stamp.bar == s.bar && stamp.reason.None?
    case Low => stamp.kind == BarLow && stamp.bar == s.bar && stamp.reason.None?
    case Night => stamp.kind == BarClose && stamp.bar == s.bar - 1 && stamp.reason.None?
    case _ => false
  }

  /** The runtime a bar's decision is for. */
  ghost predicate DecidedFor(w: World, c: Config, s: Stage, log: Log, rt: Runtime) {
    match s.phase
    case Checked => rt == c.runtime && !(c.adaptive && !w.status(RiskPrefix(log)).breaker)
    case Asked => rt == c.runtime && !TakesUp(w, log)
    case Provided => w.runtime(log) == Some(rt)
    case _ => false
  }

  /** The bar is at cadence. */
  predicate Deciding(c: Config, t: Table, start: int, s: Stage)
    requires c.freq > 0
  {
    start < s.bar <= |t.rows| && 0 <= start && (s.bar - 1) % c.freq == 0
  }

  ghost predicate Rule(w: World, c: Config, t: Table, start: int, log: Log, e: Call)
    requires c.freq > 0
  {
    var s := StageOf(t, start, log);
    && (e.StampTrade? || Fault(w, c, t, start, log).None?)
    && (s.phase.Asked? && TakesUp(w, log) ==> e.ProvideRuntime?)
    && match e
       case RouteQuery(row, at, flat, owner) =>
         && s.phase.Checked? && Deciding(c, t, start, s)
         && c.adaptive && c.routers && !w.status(RiskPrefix(log)).breaker
         && row == t.rows[s.bar - 1] && at == t.rows[s.bar - 1].raw.ts + c.delta
         && flat == Flat(w.position(log))
         && (if flat then owner.None? else owner == w.position(log).value.owner)
       case ProvideRuntime(d) => s.phase.Asked? && TakesUp(w, log) && c.provider && d == w.decision(log)
       case Execute(rt, _, obs, snapshot) =>
         && Deciding(c, t, start, s) && obs.index == s.bar - 1 && DecidedFor(w, c, s, log, rt)
         && (if rt.cycle then obs.features == [] && snapshot.Some? && Reports(w, log, snapshot.value)
             else obs.features == t.rows[s.bar - 1].features && snapshot.None?)
       case StampTrade(_, stamp) => Placed(w, s, log, stamp)
       case Attach(_, m, _) => s.phase.Ran? && m.entryBar == s.bar
       case Touch(_) => s.phase.Ran?
       case SetClock(_) => !(s.phase.Dawn? || s.phase.Open? || s.phase.Dusk? || s.phase.Low?)
       case CheckAll => s.phase.Open?
       case _ => s.phase.Dawn? || s.phase.Dusk? || s.phase.Low?
  }

  /** Every call of the log obeys the rule. */
  ghost predicate Lawful(w: World, c: Config, t: Table, start: int, log: Log)
    requires c.freq > 0
  {
    log != [] ==>
      Lawful(w, c, t, start, log[..|log| - 1]) && Rule(w, c, t, start, log[..|log| - 1], log[|log| - 1])
  }

  // ------------------------------------------------------------------- what is noted

  /** The router's decisions, in order. */
  function Decisions(w: World, log: Log): seq<Decision> {
    if log == [] then []
    else if log[|log| - 1].RouteQuery? then Decisions(w, log[..|log| - 1]) + [w.decision(log)]
    else Decisions(w, log[..|log| - 1])
  }

  function LastClock(log: Log): int {
    if log == [] then 0
    else if log[|log| - 1].SetClock? then log[|log| - 1].at
    else LastClock(log[..|log| - 1])
  }

  /** For each check that finds the breaker gone on: when, and the first alert. */
  function Trips(w: World, log: Log): seq<(int, string)> {
    if log == [] then []
    else
      var front := log[..|log| - 1];
      if log[|log| - 1].CheckAll? && w.status(log).breaker && w.alerts(log) != [] &&
         (RiskPrefix(front) == [] || !w.status(RiskPrefix(front)).breaker) then
        Trips(w, front) + [(LastClock(front), w.alerts(log)[0])]
      else Trips(w, front)
  }

  ghost predicate Fine(w: World, c: Config, t: Table, start: int, st: State)
    requires c.freq > 0
  {
    Lawful(w, c, t, start, st.calls) && st.routed == Decisions(w, st.calls) && st.breakers == Trips(w, st.calls)
  }

  // ----------------------------------------------------------------- one call at a time

  lemma {:induction false} NextCall(w: World, c: Config, t: Table, start: int, log: Log, e: Call)
    requires c.freq > 0
    ensures Lawful(w, c, t, start, log + [e]) <==> Lawful(w, c, t, start, log) && Rule(w, c, t, start, log, e)
    ensures StageOf(t, start, log + [e]) == Advance(t, StageOf(t, start, log), e)
    ensures RiskPrefix(log + [e]) == if e.CheckAll? then log + [e] else RiskPrefix(log)
    ensures Decisions(w, log + [e]) ==
            if e.RouteQuery? then Decisions(w, log) + [w.decision(log + [e])] else Decisions(w, log)
    ensures !e.CheckAll? ==> Trips(w, log + [e]) == Trips(w, log)
    ensures LastClock(log + [e]) == if e.SetClock? then e.at else LastClock(log)
  {
    hide Rule, Advance;
    assert (log + [e])[..|log|] == log;
  }

  /** A call that is noted nowhere. */
  lemma {:induction false} PlainLaw(w: World, c: Config, t: Table, start: int, st: State, e: Call)
    requires c.freq > 0 && Fine(w, c, t, start, st) && Rule(w, c, t, start, st.calls, e)
    requires !e.RouteQuery? && !e.CheckAll?
    ensures var r := Called(st, e);
            && Fine(w, c, t, start, r) && StageOf(t, start, r.calls) == Advance(t, StageOf(t, start, st.calls), e)
            && RiskPrefix(r.calls) == RiskPrefix(st.calls)
            && LastClock(r.calls) == if e.SetClock? then e.at else LastClock(st.calls)
  {
    hide Rule, Lawful, Advance;
    NextCall(w, c, t, start, st.calls, e);
  }

  /** At these points nothing can be wrong, and the clock, a mark or its widening may follow. */
  lemma {:induction false} TickLaw(w: World, c: Config, t: Table, start: int, log: Log, e: Call)
    requires c.freq > 0
    requires var p := StageOf(t, start, log).phase;
             || (p.Night? && e.SetClock?) || (p.Open? && e.CheckAll?)
             || ((p.Dawn? || p.Dusk? || p.Low?) && (e.UpdatePrices? || e.Widen?))
    ensures Rule(w, c, t, start, log, e)
  {
  }

  // ------------------------------------------------------------------------ the phases

  /** The log has grown without leaving its place. */
  ghost predicate Stays(t: Table, start: int, a: Log, b: Log) {
    StageOf(t, start, b) == StageOf(t, start, a) && RiskPrefix(b) == RiskPrefix(a) && LastClock(b) == LastClock(a)
  }

  lemma {:induction false} StampsLaw(w: World, c: Config, t: Table, start: int, st: State, trades: seq<Trade>, at: int,
                                     bar: int, price: real, kind: RefType, reason: Option<string>)
    requires c.freq > 0 && Fine(w, c, t, start, st)
    requires forall s: Stamp :: s.bar == bar && s.kind == kind && s.reason == reason ==>
               Placed(w, StageOf(t, start, st.calls), st.calls, s)
    ensures var r := StampAll(st, trades, at, bar, price, kind, reason);
            Fine(w, c, t, start, r) && Stays(t, start, st.calls, r.calls)
  {
    if trades != [] {
      var n := |trades| - 1;
      StampsLaw(w, c, t, start, st, trades[..n], at, bar, price, kind, reason);
      var front := StampAll(st, trades[..n], at, bar, price, kind, reason);
      if trades[n].id !in front.stamped {
        hide Lawful, Fault, TakesUp;
        var s := StampOf(trades[n], at, bar, price, kind, reason);
        StampLaw(w, c, t, start, st.calls, front, StampTrade(trades[n].id, s));
      }
    }
  }

  lemma {:induction false} StampLaw(w: World, c: Config, t: Table, start: int, from: Log, st: State, e: Call)
    requires c.freq > 0 && Fine(w, c, t, start, st) && Stays(t, start, from, st.calls)
    requires e.StampTrade? && Placed(w, StageOf(t, start, from), from, e.stamp)
    ensures Fine(w, c, t, start, Called(st, e)) && Stays(t, start, from, Called(st, e).calls)
  {
    assert Rule(w, c, t, start, st.calls, e) by {
      hide Fault;
    }
    hide Rule, Fine;
    PlainLaw(w, c, t, start, st, e);
  }

  lemma {:induction false} WidenLaw(w: World, c: Config, t: Table, start: int, st: State, ref: real)
    requires c.freq > 0 && Fine(w, c, t, start, st)
    requires var p := StageOf(t, start, st.calls).phase; p.Dawn? || p.Dusk? || p.Low?
    ensures var r := UpdateExcursion(w, st, ref); Fine(w, c, t, start, r) && Stays(t, start, st.calls, r.calls)
  {
    hide Fine, Rule, Fault, StageOf, RiskPrefix, LastClock;
    var r := UpdateExcursion(w, st, ref);
    if r != st {
      TickLaw(w, c, t, start, st.calls, r.calls[|st.calls|]);
      PlainLaw(w, c, t, start, st, r.calls[|st.calls|]);
    }
  }

  /** A mark has just been set; the trades it closed are stamped with what it was. */
  lemma {:induction false} SweepLaw(w: World, c: Config, t: Table, start: int, st: State, trades: seq<Trade>, at: int,
                                    bar: int, price: real, kind: RefType)
    requires c.freq > 0 && Fine(w, c, t, start, st)
    requires var s := StageOf(t, start, st.calls);
             || (s == Stage(bar, Open) && kind == BarOpen) || (s == Stage(bar, Low) && kind == BarLow)
             || (s == Stage(bar + 1, Night) && kind == BarClose)
    ensures var r := StampAll(st, trades, at, bar, price, kind, None);
            Fine(w, c, t, start, r) && Stays(t, start, st.calls, r.calls)
  {
    hide Fine, Stays, StageOf, RiskPrefix, StampAll;
    StampsLaw(w, c, t, start, st, trades, at, bar, price, kind, None);
  }

  lemma {:induction false} MarkLaw(w: World, c: Config, t: Table, start: int, st: State, at: int, bar: int, price: real,
                                   kind: RefType)
    requires c.freq > 0 && Fine(w, c, t, start, st)
    requires var s := StageOf(t, start, st.calls);
             && s.bar == bar
             && match s.phase
                case Dawn => kind == BarOpen
                case Dusk => kind == if FallsBelow(t, bar) then BarLow else BarClose
                case Low => kind == BarClose
                case _ => false
    ensures var r := MarkPrice(w, st, at, bar, price, kind);
            && Fine(w, c, t, start, r) && RiskPrefix(r.calls) == RiskPrefix(st.calls)
            && StageOf(t, start, r.calls) == Advance(t, StageOf(t, start, st.calls), UpdatePrices(price))
            && LastClock(r.calls) == LastClock(st.calls)
  {
    hide Fine, Rule, Fault, StampAll, StageOf, RiskPrefix, LastClock, FallsBelow, UpdateExcursion;
    var st1 := UpdateExcursion(w, st, price);
    WidenLaw(w, c, t, start, st, price);
    TickLaw(w, c, t, start, st1.calls, UpdatePrices(price));
    PlainLaw(w, c, t, start, st1, UpdatePrices(price));
    var st2 := Called(st1, UpdatePrices(price));
    SweepLaw(w, c, t, start, st2, w.history(st2.calls), at, bar, price, kind);
  }

  lemma {:induction false} OpeningLaw(w: World, c: Config, t: Table, start: int, st: State, bar: int, at: int,
                                      price: real)
    requires c.freq > 0 && Fine(w, c, t, start, st) && StageOf(t, start, st.calls) == Stage(bar, Night)
    ensures var r := Opening(w, st, bar, at, price).0;
            && Fine(w, c, t, start, r) && StageOf(t, start, r.calls) == Stage(bar, Open)
            && RiskPrefix(r.calls) == RiskPrefix(st.calls) && LastClock(r.calls) == at
  {
    hide Fine, Rule, MarkPrice;
    TickLaw(w, c, t, start, st.calls, SetClock(at));
    PlainLaw(w, c, t, start, st, SetClock(at));
    MarkLaw(w, c, t, start, Called(st, SetClock(at)), at, bar, price, BarOpen);
  }

  /** The breaker's flag is its last state, as the risk check finds it. */
  ghost predicate Flagged(w: World, st: State) {
    st.breakerActive == (RiskPrefix(st.calls) != [] && w.status(RiskPrefix(st.calls)).breaker)
  }

  lemma {:induction false} CheckLaw(w: World, c: Config, t: Table, start: int, st: State, bar: int)
    requires c.freq > 0 && Fine(w, c, t, start, st) && StageOf(t, start, st.calls) == Stage(bar, Open)
    ensures var calls := st.calls + [CheckAll];
            && Lawful(w, c, t, start, calls) && StageOf(t, start, calls) == Stage(bar, Checked)
            && RiskPrefix(calls) == calls && LastClock(calls) == LastClock(st.calls)
            && Decisions(w, calls) == Decisions(w, st.calls)
            && Trips(w, calls) == if w.status(calls).breaker && w.alerts(calls) != [] &&
                 (RiskPrefix(st.calls) == [] || !w.status(RiskPrefix(st.calls)).breaker) then
                 Trips(w, st.calls) + [(LastClock(st.calls), w.alerts(calls)[0])]
               else Trips(w, st.calls)
  {
    hide Rule, Lawful, StageOf;
    TickLaw(w, c, t, start, st.calls, CheckAll);
    NextCall(w, c, t, start, st.calls, CheckAll);
    assert (st.calls + [CheckAll])[..|st.calls|] == st.calls;
  }

  /** The risk check: it fails exactly silently. */
  lemma {:induction false} RiskLaw(w: World, c: Config, t: Table, start: int, st: State, bar: int, ts: int, price: real)
    requires c.freq > 0 && Fine(w, c, t, start, st) && StageOf(t, start, st.calls) == Stage(bar, Open)
    requires Flagged(w, st) && LastClock(st.calls) == ts
    ensures var r := RiskCheck(w, st, bar, ts, price);
            && Fine(w, c, t, start, r.st) && StageOf(t, start, r.st.calls) == Stage(bar, Checked)
            && RiskPrefix(r.st.calls) == st.calls + [CheckAll]
            && (r.err == if Silent(w, st.calls + [CheckAll]) then Some(MissingAlert) else None)
            && (r.err.None? ==> Flagged(w, r.st))
  {
    var st1 := Called(st, CheckAll);
    CheckLaw(w, c, t, start, st, bar);
    assert (st.calls + [CheckAll])[..|st.calls|] == st.calls;
    hide Lawful, StageOf, RiskPrefix, LastClock, Decisions, Trips, StampAll;
    var trips := Trips(w, st1.calls);
    var noted := st1.(breakers := trips);
    var stamped := StampAll(noted, w.history(st1.calls), ts, bar, price, BarOpen, Some("circuit_breaker"));
    if w.status(st1.calls).breaker {
      StampsLaw(w, c, t, start, noted, w.history(st1.calls), ts, bar, price, BarOpen, Some("circuit_breaker"));
    }
    StampsIgnoreNotes(st1, trips, w.history(st1.calls), ts, bar, price, BarOpen, Some("circuit_breaker"));
  }

  /** Stamping reads and writes none of what is noted about breakers. */
  lemma {:induction false} StampsIgnoreNotes(st: State, trips: seq<(int, string)>, trades: seq<Trade>, at: int,
                                             bar: int, price: real, kind: RefType, reason: Option<string>)
    ensures StampAll(st.(breakers := trips), trades, at, bar, price, kind, reason) ==
            StampAll(st, trades, at, bar, price, kind, reason).(breakers := trips)
    ensures StampAll(st, trades, at, bar, price, kind, reason).breakers == st.breakers
    ensures StampAll(st, trades, at, bar, price, kind, reason).breakerActive == st.breakerActive
  {
    if trades != [] {
      StampsIgnoreNotes(st, trips, trades[..|trades| - 1], at, bar, price, kind, reason);
    }
  }

  // ---------------------------------------------------------------------- routing

  /** Nothing is wrong, and the bar's decision is for this runtime, if that can read the position. */
  ghost predicate Settled(w: World, c: Config, t: Table, start: int, log: Log, rt: Runtime)
    requires c.freq > 0
  {
    var s := StageOf(t, start, log);
    && Deciding(c, t, start, s) && DecidedFor(w, c, s, log, rt)
    && Fault(w, c, t, start, log) == Unreadable(w, rt, log)
  }

  /** Past the risk check of this bar, with nothing wrong so far. */
  ghost predicate Cleared(w: World, t: Table, start: int, log: Log, bar: int) {
    StageOf(t, start, log) == Stage(bar, Checked) && RiskPrefix(log) != [] && !Silent(w, RiskPrefix(log))
  }

  lemma {:induction false} QueryLaw(w: World, c: Config, t: Table, start: int, st: State, bar: int, q: Call)
    requires c.freq > 0 && Fine(w, c, t, start, st) && Cleared(w, t, start, st.calls, bar)
    requires c.adaptive && c.routers && !w.status(RiskPrefix(st.calls)).breaker
    requires 0 <= start < bar <= |t.rows| && (bar - 1) % c.freq == 0
    requires var p, row := w.position(st.calls), t.rows[bar - 1];
             q == RouteQuery(row, row.raw.ts + c.delta, !Holds(p), if Holds(p) then p.value.owner else None)
    ensures var asked := Called(st, q);
            var r := asked.(routed := asked.routed + [w.decision(asked.calls)]);
            && Fine(w, c, t, start, r) && StageOf(t, start, r.calls) == Stage(bar, Asked)
            && RiskPrefix(r.calls) == RiskPrefix(st.calls)
            && (TakesUp(w, r.calls) <==>
                  var d := w.decision(r.calls);
                  d.chosen.Some? && (d.allowNew || (!q.flat && d.chosen == q.owner)))
  {
    assert Rule(w, c, t, start, st.calls, q);
    hide Rule, Lawful, StageOf, RiskPrefix, Fault;
    NextCall(w, c, t, start, st.calls, q);
  }

  lemma {:induction false} ProvideLaw(w: World, c: Config, t: Table, start: int, st: State, bar: int)
    requires c.freq > 0 && Fine(w, c, t, start, st) && StageOf(t, start, st.calls) == Stage(bar, Asked)
    requires TakesUp(w, st.calls) && c.provider && 0 <= start < bar <= |t.rows| && (bar - 1) % c.freq == 0
    ensures var d := w.decision(st.calls);
            var r := Called(st, ProvideRuntime(d));
            var rt := w.runtime(r.calls);
            && Fine(w, c, t, start, r) && RiskPrefix(r.calls) == RiskPrefix(st.calls)
            && StageOf(t, start, r.calls) == Stage(bar, Provided)
            && (rt.None? ==> Fault(w, c, t, start, r.calls) == Some(NoRuntime))
            && (rt.Some? ==>
                  if d.chosen == Some(rt.value.name) && rt.value.symbol == c.symbol &&
                     rt.value.timeframe == c.timeframe then Settled(w, c, t, start, r.calls, rt.value)
                  else Fault(w, c, t, start, r.calls) == Some(RuntimeMismatch))
  {
    var e := ProvideRuntime(w.decision(st.calls));
    assert Rule(w, c, t, start, st.calls, e);
    hide Rule, Lawful, StageOf, RiskPrefix, TakesUp, Unreadable;
    PlainLaw(w, c, t, start, st, e);
  }

  lemma {:induction false} DeclineLaw(w: World, c: Config, t: Table, start: int, log: Log, bar: int)
    requires c.freq > 0 && StageOf(t, start, log) == Stage(bar, Asked) && !TakesUp(w, log)
    requires 0 <= start < bar <= |t.rows| && (bar - 1) % c.freq == 0
    ensures Settled(w, c, t, start, log, c.runtime)
  {
  }

  /** Routing fails exactly where a fault is, and otherwise settles the runtime. */
  lemma {:induction false} RouteLaw(w: World, c: Config, t: Table, start: int, st: State, bar: int, signal: int)
    requires c.freq > 0 && Fine(w, c, t, start, st) && Cleared(w, t, start, st.calls, bar)
    requires c.adaptive && !w.status(RiskPrefix(st.calls)).breaker
    requires 0 <= start < bar <= |t.rows| && (bar - 1) % c.freq == 0
    ensures var r := RouteBar(w, c, st, t.rows[bar - 1], signal);
            && Fine(w, c, t, start, r.st) && RiskPrefix(r.st.calls) == RiskPrefix(st.calls)
            && StageOf(t, start, r.st.calls).bar == bar
            && r.st.breakerActive == st.breakerActive
            && match r.err
               case Some(e) => Fault(w, c, t, start, r.st.calls) == Some(e)
               case None => Settled(w, c, t, start, r.st.calls, r.intent.runtime)
  {
    hide Fine, Settled, TakesUp, StageOf, RiskPrefix, Unreadable, Silent;
    var p, row := w.position(st.calls), t.rows[bar - 1];
    if c.routers {
      var q := RouteQuery(row, row.raw.ts + c.delta, !Holds(p), if Holds(p) then p.value.owner else None);
      QueryLaw(w, c, t, start, st, bar, q);
      var st1 := Called(st, q);
      var st2 := st1.(routed := st1.routed + [w.decision(st1.calls)]);
      if TakesUp(w, st2.calls) {
        if c.provider {
          ProvideLaw(w, c, t, start, st2, bar);
        }
      } else {
        DeclineLaw(w, c, t, start, st2.calls, bar);
      }
    }
  }

  lemma {:induction false} UnroutedLaw(w: World, c: Config, t: Table, start: int, log: Log, bar: int)
    requires c.freq > 0 && Cleared(w, t, start, log, bar)
    requires c.adaptive && bar > start && (bar - 1) % c.freq == 0 ==> w.status(RiskPrefix(log)).breaker
    ensures if 0 <= start < bar <= |t.rows| && (bar - 1) % c.freq == 0 then Settled(w, c, t, start, log, c.runtime)
            else 0 <= start && bar <= |t.rows| ==> Fault(w, c, t, start, log).None?
  {
  }

  // ------------------------------------------------------------------- the decision

  /** A bar that has been acted on: it stopped at a fault, or it may go on. */
  ghost predicate Acted(w: World, c: Config, t: Table, start: int, bar: int, st: State, o: Outcome)
    requires c.freq > 0
  {
    && Fine(w, c, t, start, o.st) && RiskPrefix(o.st.calls) == RiskPrefix(st.calls)
    && o.st.breakerActive == st.breakerActive
    && StageOf(t, start, o.st.calls).bar == bar
    && Fault(w, c, t, start, o.st.calls) == o.err
    && (o.err.None? ==> MayClose(w, t, start, o.st.calls))
  }

  ghost predicate MayClose(w: World, t: Table, start: int, log: Log) {
    var p := StageOf(t, start, log).phase;
    (p.Checked? || p.Asked? || p.Provided? || p.Ran?) && !(p.Asked? && TakesUp(w, log))
  }

  lemma {:induction false} AttachLaw(w: World, c: Config, t: Table, start: int, st: State, at: int, bar: int, ref: real,
                                     strategy: string, preserve: bool)
    requires c.freq > 0 && Fine(w, c, t, start, st) && StageOf(t, start, st.calls) == Stage(bar, Ran)
    requires Fault(w, c, t, start, st.calls).None?
    ensures var r := AttachEntry(w, st, at, bar, ref, strategy, preserve);
            && Fine(w, c, t, start, r) && Stays(t, start, st.calls, r.calls)
            && Fault(w, c, t, start, r.calls).None? && r.breakerActive == st.breakerActive
  {
    hide Fine, StageOf, RiskPrefix, LastClock, TakesUp;
    var r := AttachEntry(w, st, at, bar, ref, strategy, preserve);
    if r != st {
      PlainLaw(w, c, t, start, st, r.calls[|st.calls|]);
    }
  }

  lemma {:induction false} LoggedLaw(w: World, c: Config, t: Table, start: int, a: State, b: State)
    requires c.freq > 0 && Fine(w, c, t, start, a) && b.calls == a.calls && b.routed == a.routed
    requires b.breakers == a.breakers
    ensures Fine(w, c, t, start, b)
  {
  }

  /** Booking the answer to the runtime call. */
  ghost predicate Booked(w: World, c: Config, t: Table, start: int, a: State, b: State)
    requires c.freq > 0
  {
    && Fine(w, c, t, start, b) && Stays(t, start, a.calls, b.calls)
    && Fault(w, c, t, start, b.calls).None? && b.breakerActive == a.breakerActive
  }

  lemma {:induction false} CycleOrdersLaw(w: World, c: Config, t: Table, start: int, st: State, orders: seq<Order>,
                                          trace: Execution, rt: Runtime, bar: int, decisionTs: int, at: int,
                                          price: real)
    requires c.freq > 0 && Fine(w, c, t, start, st) && StageOf(t, start, st.calls) == Stage(bar, Ran)
    requires Fault(w, c, t, start, st.calls).None?
    ensures Booked(w, c, t, start, st, CycleOrders(w, st, orders, trace, rt, bar, decisionTs, at, price))
  {
    hide Fine, StageOf, RiskPrefix, LastClock, Fault, AttachEntry;
    if orders != [] {
      var n := |orders| - 1;
      CycleOrdersLaw(w, c, t, start, st, orders[..n], trace, rt, bar, decisionTs, at, price);
      var front := CycleOrders(w, st, orders[..n], trace, rt, bar, decisionTs, at, price);
      if orders[n].filled > 0.0 {
        var s := SignalEntry(decisionTs, at, price, if orders[n].side.Buy? then BUY else SELL, true, trace);
        var st1 := front.(signalLog := front.signalLog + [s]);
        LoggedLaw(w, c, t, start, front, st1);
        AttachLaw(w, c, t, start, st1, at, bar, price, rt.name, true);
        var st2 := if orders[n].side.Buy? then AttachEntry(w, st1, at, bar, price, rt.name, true) else st1;
        LoggedLaw(w, c, t, start, st2, CycleOrders(w, st, orders, trace, rt, bar, decisionTs, at, price));
      }
    }
  }

  lemma {:induction false} NativeOrdersLaw(w: World, c: Config, t: Table, start: int, st: State, orders: seq<Order>,
                                           rt: Runtime, bar: int, at: int, price: real)
    requires c.freq > 0 && Fine(w, c, t, start, st) && StageOf(t, start, st.calls) == Stage(bar, Ran)
    requires Fault(w, c, t, start, st.calls).None?
    ensures Booked(w, c, t, start, st, NativeOrders(w, st, orders, rt, bar, at, price))
  {
    hide Fine, StageOf, RiskPrefix, LastClock, Fault, AttachEntry;
    if orders != [] {
      var n := |orders| - 1;
      NativeOrdersLaw(w, c, t, start, st, orders[..n], rt, bar, at, price);
      var front := NativeOrders(w, st, orders[..n], rt, bar, at, price);
      AttachLaw(w, c, t, start, front, at, bar, price, rt.name, false);
      var st1 := if orders[n].side.Buy? then AttachEntry(w, front, at, bar, price, rt.name, false) else front;
      LoggedLaw(w, c, t, start, st1, NativeOrders(w, st, orders, rt, bar, at, price));
    }
  }

  /** After booking, the trades it closed are stamped. */
  lemma {:induction false} FinishLaw(w: World, c: Config, t: Table, start: int, a: State, b: State, at: int, bar: int,
                                     price: real)
    requires c.freq > 0 && StageOf(t, start, a.calls) == Stage(bar, Ran) && Booked(w, c, t, start, a, b)
    ensures Booked(w, c, t, start, a, StampNew(w, b, at, bar, price, BarOpen, None))
  {
    hide Fine, StageOf, RiskPrefix, LastClock, StampAll, Fault;
    var trades := w.history(b.calls);
    StampsLaw(w, c, t, start, b, trades, at, bar, price, BarOpen, None);
    StampsIgnoreNotes(b, [], trades, at, bar, price, BarOpen, None);
    StampsFault(w, c, t, start, b, trades, at, bar, price);
  }

  /** Stamping answers no runtime call. */
  lemma {:induction false} StampsFault(w: World, c: Config, t: Table, start: int, st: State, trades: seq<Trade>,
                                       at: int, bar: int, price: real)
    requires c.freq > 0 && Fault(w, c, t, start, st.calls).None?
    requires StageOf(t, start, st.calls) == Stage(bar, Ran)
    ensures var r := StampAll(st, trades, at, bar, price, BarOpen, None);
            StageOf(t, start, r.calls) == Stage(bar, Ran) && Fault(w, c, t, start, r.calls).None?
  {
    if trades != [] {
      var n := |trades| - 1;
      StampsFault(w, c, t, start, st, trades[..n], at, bar, price);
      var front := StampAll(st, trades[..n], at, bar, price, BarOpen, None);
      if trades[n].id !in front.stamped {
        var e := StampTrade(trades[n].id, StampOf(trades[n], at, bar, price, BarOpen, None));
        hide StageOf, Silent, TakesUp;
        NextCall(w, c, t, start, front.calls, e);
      }
    }
  }

  /** A runtime call by the rule. */
  lemma {:induction false} ExecuteLaw(w: World, c: Config, t: Table, start: int, st: State, e: Call, bar: int)
    requires c.freq > 0 && Fine(w, c, t, start, st) && e.Execute? && StageOf(t, start, st.calls).bar == bar
    requires Settled(w, c, t, start, st.calls, e.runtime) && Fault(w, c, t, start, st.calls).None?
    requires e.obs.index == bar - 1 && 0 < bar <= |t.rows|
    requires if e.runtime.cycle then e.obs.features == [] && e.snapshot.Some? && Reports(w, st.calls, e.snapshot.value)
             else e.obs.features == t.rows[bar - 1].features && e.snapshot.None?
    ensures var r := Called(st, e);
            && Fine(w, c, t, start, r) && StageOf(t, start, r.calls) == Stage(bar, Ran)
            && RiskPrefix(r.calls) == RiskPrefix(st.calls)
            && Fault(w, c, t, start, r.calls) ==
               if e.runtime.cycle && w.execution(r.calls).prepare in REJECTED then Some(CycleRejected) else None
  {
    hide Fine, StageOf, RiskPrefix, LastClock, Reports, Silent, TakesUp;
    assert Rule(w, c, t, start, st.calls, e);
    PlainLaw(w, c, t, start, st, e);
  }

  lemma {:induction false} SnapshotReports(w: World, log: Log)
    requires CycleQuantity(w.position(log)).Some?
    ensures Reports(w, log, CycleSnapshot(w, log, CycleQuantity(w.position(log)).value))
  {
  }

  lemma {:induction false} ReadsPosition(w: World, rt: Runtime, log: Log)
    requires rt.cycle
    ensures Unreadable(w, rt, log) == if CycleQuantity(w.position(log)).None? then Some(CycleRejected) else None
  {
  }

  lemma {:induction false} SettledCloses(w: World, c: Config, t: Table, start: int, log: Log, rt: Runtime)
    requires c.freq > 0 && Settled(w, c, t, start, log, rt)
    ensures MayClose(w, t, start, log)
  {
  }

  lemma {:induction false} CycleBarLaw(w: World, c: Config, t: Table, start: int, st: State, row: FunnelRow,
                                       rt: Runtime, bar: int, at: int, price: real, halted: bool)
    requires c.freq > 0 && Fine(w, c, t, start, st) && StageOf(t, start, st.calls).bar == bar && 0 < bar <= |t.rows|
    requires rt.cycle && Settled(w, c, t, start, st.calls, rt)
    ensures Acted(w, c, t, start, bar, st, CycleBar(w, c, st, row, rt, t.rows, bar, at, price, halted))
  {
    hide Fine, Settled, StageOf, RiskPrefix, Fault, Reports, CycleOrders, StampNew, CycleQuantity, Unreadable;
    hide CycleSnapshot, Booked, RawPrefix;
    var quantity := CycleQuantity(w.position(st.calls));
    ReadsPosition(w, rt, st.calls);
    SettledFault(w, c, t, start, st.calls, rt);
    SettledCloses(w, c, t, start, st.calls, rt);
    if quantity.Some? && !(halted && quantity.value == 0.0) {
      var raw := t.rows[bar - 1].raw;
      var e := Execute(rt, RawPrefix(t.rows, bar), Observation(bar - 1, raw.ts + c.delta, raw, []),
                       Some(CycleSnapshot(w, st.calls, quantity.value)));
      SnapshotReports(w, st.calls);
      ExecuteLaw(w, c, t, start, st, e, bar);
      var st1 := Called(st, e);
      var x := w.execution(st1.calls);
      if x.prepare !in REJECTED && x.orders != [] {
        CycleOrdersLaw(w, c, t, start, st1, x.orders, x, rt, bar, raw.ts, at, price);
        FinishLaw(w, c, t, start, st1, CycleOrders(w, st1, x.orders, x, rt, bar, raw.ts, at, price), at, bar, price);
        BookedIsActed(w, c, t, start, st1, StampNew(w, CycleOrders(w, st1, x.orders, x, rt, bar, raw.ts, at, price), at,
                                                    bar, price, BarOpen, None), bar);
      }
    }
  }

  lemma {:induction false} SettledFault(w: World, c: Config, t: Table, start: int, log: Log, rt: Runtime)
    requires c.freq > 0 && Settled(w, c, t, start, log, rt)
    ensures Fault(w, c, t, start, log) == Unreadable(w, rt, log)
    ensures !rt.cycle ==> Unreadable(w, rt, log).None?
  {
  }

  lemma {:induction false} BookedIsActed(w: World, c: Config, t: Table, start: int, a: State, b: State, bar: int)
    requires c.freq > 0 && Booked(w, c, t, start, a, b) && StageOf(t, start, a.calls) == Stage(bar, Ran)
    ensures Fine(w, c, t, start, b) && RiskPrefix(b.calls) == RiskPrefix(a.calls)
    ensures StageOf(t, start, b.calls) == Stage(bar, Ran) && Fault(w, c, t, start, b.calls).None?
    ensures b.breakerActive == a.breakerActive
  {
  }

  lemma {:induction false} NativeBarLaw(w: World, c: Config, t: Table, start: int, st: State, row: FunnelRow,
                                        intent: Intent, bar: int, at: int, price: real)
    requires c.freq > 0 && Fine(w, c, t, start, st) && StageOf(t, start, st.calls).bar == bar && 0 < bar <= |t.rows|
    requires !intent.runtime.cycle && Settled(w, c, t, start, st.calls, intent.runtime)
    ensures Acted(w, c, t, start, bar, st, NativeBar(w, c, st, row, intent, t.rows, bar, at, price))
  {
    hide Fine, Settled, StageOf, RiskPrefix, Fault, Reports, NativeOrders, StampNew, Unreadable, RawPrefix, Booked;
    hide OrderIds;
    SettledFault(w, c, t, start, st.calls, intent.runtime);
    SettledCloses(w, c, t, start, st.calls, intent.runtime);
    var o, holds := NativeBar(w, c, st, row, intent, t.rows, bar, at, price), Holds(w.position(st.calls));
    if intent.signal != 0 && !(intent.signal == 1 && holds && !intent.manage) && !(intent.signal == -1 && !holds) {
      hide Holds;
      var decision := t.rows[bar - 1];
      var e := Execute(intent.runtime, RawPrefix(t.rows, bar),
                       Observation(bar - 1, decision.raw.ts + c.delta, decision.raw, decision.features), None);
      ExecuteLaw(w, c, t, start, st, e, bar);
      var st1 := Called(st, e);
      var x := w.execution(st1.calls);
      var s := SignalEntry(decision.raw.ts, at, price, if intent.signal == 1 then BUY else SELL, false, x);
      var st2 := st1.(signalLog := st1.signalLog + [s]);
      LoggedLaw(w, c, t, start, st1, st2);
      NativeOrdersLaw(w, c, t, start, st2, x.orders, intent.runtime, bar, at, price);
      FinishLaw(w, c, t, start, st2, NativeOrders(w, st2, x.orders, intent.runtime, bar, at, price), at, bar, price);
      BookedIsActed(w, c, t, start, st2, o.st, bar);
    }
  }

  /** The decision is settled, or this is no time for one. */
  ghost predicate Routable(w: World, c: Config, t: Table, start: int, log: Log, bar: int, rt: Runtime)
    requires c.freq > 0
  {
    && StageOf(t, start, log).bar == bar
    && if bar > start && (bar - 1) % c.freq == 0 then Settled(w, c, t, start, log, rt)
       else Fault(w, c, t, start, log).None? && MayClose(w, t, start, log)
  }

  lemma {:induction false} IntendLaw(w: World, c: Config, t: Table, start: int, st: State, bar: int)
    requires ValidTable(t) && 0 <= start <= bar <= |t.rows| && c.freq > 0
    requires Fine(w, c, t, start, st) && Cleared(w, t, start, st.calls, bar)
    ensures var r := Intend(w, c, t, start, st, bar, w.status(RiskPrefix(st.calls)).breaker);
            && Fine(w, c, t, start, r.st) && RiskPrefix(r.st.calls) == RiskPrefix(st.calls)
            && StageOf(t, start, r.st.calls).bar == bar && r.st.breakerActive == st.breakerActive
            && match r.err
               case Some(e) => Fault(w, c, t, start, r.st.calls) == Some(e)
               case None => Routable(w, c, t, start, r.st.calls, bar, r.intent.runtime)
  {
    hide Fine, Settled, StageOf, RiskPrefix, Fault, RouteBar, Silent, TakesUp;
    if c.adaptive && Due(start, c.freq, bar) && !w.status(RiskPrefix(st.calls)).breaker {
      RouteLaw(w, c, t, start, st, bar, SignalAt(t, start, bar));
    } else {
      UnroutedLaw(w, c, t, start, st.calls, bar);
    }
  }

  lemma {:induction false} ActLaw(w: World, c: Config, t: Table, start: int, st: State, row: FunnelRow, intent: Intent,
                                  bar: int, tick: Tick, status: Status, cooldown: bool)
    requires ValidTable(t) && 0 <= start <= bar <= |t.rows| && c.freq > 0
    requires Fine(w, c, t, start, st) && Routable(w, c, t, start, st.calls, bar, intent.runtime)
    ensures Acted(w, c, t, start, bar, st, ActOn(w, c, t, start, st, row, intent, bar, tick, status, cooldown))
  {
    hide Fine, Settled, StageOf, RiskPrefix, Fault, CycleBar, NativeBar, Preset, MayClose, Unreadable;
    var due := Due(start, c.freq, bar);
    var row1 := Preset(row, bar == start, intent.runtime.cycle && due, due, intent.signal, status.breaker, cooldown);
    if due {
      SettledFault(w, c, t, start, st.calls, intent.runtime);
      SettledCloses(w, c, t, start, st.calls, intent.runtime);
      if intent.runtime.cycle {
        CycleBarLaw(w, c, t, start, st, row1, intent.runtime, bar, tick.ts, tick.open,
                    status.breaker || status.cooldown);
      } else {
        NativeBarLaw(w, c, t, start, st, row1, intent, bar, tick.ts, tick.open);
      }
    }
  }

  lemma {:induction false} DecideLaw(w: World, c: Config, t: Table, start: int, st: State, bar: int, tick: Tick)
    requires ValidTable(t) && 0 <= start <= bar <= |t.rows| && c.freq > 0
    requires Fine(w, c, t, start, st) && StageOf(t, start, st.calls) == Stage(bar, Night) && Flagged(w, st)
    ensures var o := DecideBar(w, c, t, start, st, bar, tick);
            && Fine(w, c, t, start, o.st) && StageOf(t, start, o.st.calls).bar == bar
            && Fault(w, c, t, start, o.st.calls) == o.err
            && (o.err.None? ==> Flagged(w, o.st) && MayClose(w, t, start, o.st.calls))
  {
    hide Fine, StageOf, RiskPrefix, Fault, Opening, RiskCheck, Intend, ActOn, MayClose, Silent, LastClock;
    var (st1, row) := Opening(w, st, bar, tick.ts, tick.open);
    OpeningLaw(w, c, t, start, st, bar, tick.ts, tick.open);
    OpeningFlag(w, st, bar, tick.ts, tick.open);
    RiskLaw(w, c, t, start, st1, bar, tick.ts, tick.open);
    var risk := RiskCheck(w, st1, bar, tick.ts, tick.open);
    var checked := st1.calls + [CheckAll];
    if risk.err.None? {
      IntendLaw(w, c, t, start, risk.st, bar);
      var routed := Intend(w, c, t, start, risk.st, bar, w.status(checked).breaker);
      if routed.err.None? {
        ActLaw(w, c, t, start, routed.st, row, routed.intent, bar, tick, w.status(checked),
               CooldownAlert(w.alerts(checked)));
      }
    } else {
      SilentFault(w, c, t, start, risk.st.calls, bar);
    }
  }

  lemma {:induction false} OpeningFlag(w: World, st: State, bar: int, at: int, price: real)
    ensures Opening(w, st, bar, at, price).0.breakerActive == st.breakerActive
  {
    var st1 := Called(UpdateExcursion(w, Called(st, SetClock(at)), price), UpdatePrices(price));
    StampsIgnoreNotes(st1, [], w.history(st1.calls), at, bar, price, BarOpen, None);
  }

  lemma {:induction false} SilentFault(w: World, c: Config, t: Table, start: int, log: Log, bar: int)
    requires c.freq > 0 && StageOf(t, start, log) == Stage(bar, Checked) && Silent(w, RiskPrefix(log))
    ensures Fault(w, c, t, start, log) == Some(MissingAlert)
  {
  }

  // ------------------------------------------------------------------------- whole runs

  lemma {:induction false} CloseLaw(w: World, c: Config, t: Table, start: int, st: State, row: FunnelRow, bar: int)
    requires 0 <= bar < |t.rows| && c.freq > 0
    requires Fine(w, c, t, start, st) && StageOf(t, start, st.calls).bar == bar && Flagged(w, st)
    requires Fault(w, c, t, start, st.calls).None? && MayClose(w, t, start, st.calls)
    ensures var r := CloseBar(w, c, st, row, bar, t.rows[bar].raw);
            && Fine(w, c, t, start, r) && StageOf(t, start, r.calls) == Stage(bar + 1, Night) && Flagged(w, r)
  {
    hide Fine, StageOf, RiskPrefix, Fault, MarkPrice, LastClock, TakesUp;
    var raw := t.rows[bar].raw;
    var at := raw.ts + c.delta;
    var st1 := Called(st, SetClock(at));
    assert Rule(w, c, t, start, st.calls, SetClock(at));
    PlainLaw(w, c, t, start, st, SetClock(at));
    var st2 := if raw.low < raw.open then MarkPrice(w, st1, at, bar, raw.low, BarLow) else st1;
    if raw.low < raw.open {
      MarkLaw(w, c, t, start, st1, at, bar, raw.low, BarLow);
    }
    MarkLaw(w, c, t, start, st2, at, bar, raw.close, BarClose);
    MarkFlag(w, st1, at, bar, raw.low, BarLow);
    MarkFlag(w, st2, at, bar, raw.close, BarClose);
    var marked := MarkPrice(w, st2, at, bar, raw.close, BarClose);
    LoggedLaw(w, c, t, start, marked, CloseBar(w, c, st, row, bar, raw));
  }

  lemma {:induction false} MarkFlag(w: World, st: State, at: int, bar: int, price: real, kind: RefType)
    ensures MarkPrice(w, st, at, bar, price, kind).breakerActive == st.breakerActive
  {
    var st1 := Called(UpdateExcursion(w, st, price), UpdatePrices(price));
    StampsIgnoreNotes(st1, [], w.history(st1.calls), at, bar, price, kind, None);
  }

  /** Every run, completed or aborted: each call obeys the rule for where the log had got to, the
      router's decisions and the breaker's trips are noted in order, and the run stopped for what is
      wrong at the end of its log, or completed if nothing is. */
  lemma {:induction false} RunIsLawful(w: World, c: Config, t: Table, start: int, stop: int, funnel: bool)
    requires ValidTable(t) && 0 <= start <= stop <= |t.rows| && c.freq > 0
    ensures var r := RunBars(w, c, t, start, Initial(funnel), stop);
            && Fine(w, c, t, start, r.st)
            && r.err == Fault(w, c, t, start, r.st.calls)
            && (r.err.None? ==> StageOf(t, start, r.st.calls) == Stage(stop, Night) && Flagged(w, r.st))
    decreases stop
  {
    hide Fine, StageOf, DecideBar, CloseBar, MayClose, Flagged;
    if stop == start {
      NothingWrongYet(w, c, t, start, funnel);
    } else {
      RunIsLawful(w, c, t, start, stop - 1, funnel);
      var before := RunBars(w, c, t, start, Initial(funnel), stop - 1);
      if before.err.None? {
        hide Fault;
        var raw := t.rows[stop - 1].raw;
        DecideLaw(w, c, t, start, before.st, stop - 1, Tick(raw.ts, raw.open));
        var o := DecideBar(w, c, t, start, before.st, stop - 1, Tick(raw.ts, raw.open));
        if o.err.None? {
          CloseLaw(w, c, t, start, o.st, o.row, stop - 1);
          NightIsCalm(w, c, t, start, CloseBar(w, c, o.st, o.row, stop - 1, raw).calls);
        }
      }
    }
  }

  lemma {:induction false} NothingWrongYet(w: World, c: Config, t: Table, start: int, funnel: bool)
    requires c.freq > 0
    ensures Fine(w, c, t, start, Initial(funnel)) && StageOf(t, start, []) == Stage(start, Night)
    ensures Flagged(w, Initial(funnel)) && Fault(w, c, t, start, []).None?
  {
  }

  lemma {:induction false} NightIsCalm(w: World, c: Config, t: Table, start: int, log: Log)
    requires c.freq > 0 && StageOf(t, start, log).phase.Night?
    ensures Fault(w, c, t, start, log).None?
  {
  }

  // ------------------------------------------------------------------------ consequences

  lemma {:induction false} RuleAt(w: World, c: Config, t: Table, start: int, log: Log, k: nat)
    requires c.freq > 0 && Lawful(w, c, t, start, log) && k < |log|
    ensures Rule(w, c, t, start, log[..k], log[k])
  {
    hide Rule;
    var front := log[..|log| - 1];
    if k < |front| {
      RuleAt(w, c, t, start, front, k);
      assert front[..k] == log[..k];
    }
  }

  /** The log up to n is what a run has to go on with: it has stamped all it stamps there. */
  ghost predicate Rested(log: Log, n: nat) {
    n <= |log| && (n < |log| ==> !log[n].StampTrade?)
  }

  /** A run aborts with an error exactly when its log gets to where that error is. */
  lemma {:induction false} AbortsAreExact(w: World, c: Config, t: Table, start: int, stop: int, funnel: bool, e: Abort)
    requires ValidTable(t) && 0 <= start <= stop <= |t.rows| && c.freq > 0
    ensures var r := RunBars(w, c, t, start, Initial(funnel), stop);
            r.err == Some(e) <==>
            exists n: nat :: Rested(r.st.calls, n) && Fault(w, c, t, start, r.st.calls[..n]) == Some(e)
  {
    hide RunBars, Fault;
    RunIsLawful(w, c, t, start, stop, funnel);
    var r := RunBars(w, c, t, start, Initial(funnel), stop);
    var calls := r.st.calls;
    assert calls[..|calls|] == calls;
    if n: nat :| Rested(calls, n) && Fault(w, c, t, start, calls[..n]) == Some(e) {
      if n < |calls| {
        RuleAt(w, c, t, start, calls, n);
      }
    }
  }

  /** Collaborators that give no cause to abort. */
  ghost predicate Dependable(w: World, c: Config) {
    && (forall log :: w.status(log).breaker ==> w.alerts(log) != [])
    && (c.adaptive ==> c.routers && c.provider)
    && (forall log: Log :: log != [] && log[|log| - 1].ProvideRuntime? && log[|log| - 1].decision.chosen.Some? ==>
              w.runtime(log).Some? && Fits(c, log[|log| - 1].decision, w.runtime(log).value))
    && (forall log :: w.position(log).Some? ==> w.position(log).value.cycle.Some?)
    && (forall log :: w.execution(log).prepare !in REJECTED)
  }

  predicate Fits(c: Config, d: Decision, r: Runtime) {
    d.chosen == Some(r.name) && r.symbol == c.symbol && r.timeframe == c.timeframe
  }

  lemma {:induction false} DependableIsFaultless(w: World, c: Config, t: Table, start: int, log: Log)
    requires c.freq > 0 && Dependable(w, c)
    requires log != [] && log[|log| - 1].ProvideRuntime? ==> log[|log| - 1].decision.chosen.Some?
    requires StageOf(t, start, log).phase.Asked? ==> c.adaptive
    ensures Fault(w, c, t, start, log).None?
  {
    hide RiskPrefix, StageOf, TakesUp;
    var risk := RiskPrefix(log);
    assert w.status(risk).breaker ==> w.alerts(risk) != [];
    assert !Silent(w, risk);
    assert w.position(log).Some? ==> w.position(log).value.cycle.Some?;
    assert forall rt :: Unreadable(w, rt, log).None?;
    assert w.execution(log).prepare !in REJECTED;
    hide Silent, Unreadable;
    if log != [] && log[|log| - 1].ProvideRuntime? {
      assert w.runtime(log).Some? && Fits(c, log[|log| - 1].decision, w.runtime(log).value);
    }
  }

  /** With such collaborators every run completes. */
  lemma {:induction false} DependableRunsComplete(w: World, c: Config, t: Table, start: int, stop: int, funnel: bool)
    requires ValidTable(t) && 0 <= start <= stop <= |t.rows| && c.freq > 0 && Dependable(w, c)
    ensures RunBars(w, c, t, start, Initial(funnel), stop).err.None?
  {
    hide RunBars, Fault, Dependable;
    RunIsLawful(w, c, t, start, stop, funnel);
    var calls := RunBars(w, c, t, start, Initial(funnel), stop).st.calls;
    PhaseTells(w, c, t, start, calls);
    if calls != [] {
      RuleAt(w, c, t, start, calls, |calls| - 1);
    }
    DependableIsFaultless(w, c, t, start, calls);
  }

  /** A runtime that was provided and called is the one the router chose, for this symbol and
      timeframe; one called without is the configured one, and then the router was not to be asked or
      declined. */
  lemma {:induction false} CalledRuntimesFit(w: World, c: Config, t: Table, start: int, stop: int, funnel: bool, k: nat)
    requires ValidTable(t) && 0 <= start <= stop <= |t.rows| && c.freq > 0
    requires var calls := RunBars(w, c, t, start, Initial(funnel), stop).st.calls; k < |calls| && calls[k].Execute?
    ensures var calls := RunBars(w, c, t, start, Initial(funnel), stop).st.calls;
            var rt := calls[k].runtime;
            if k > 0 && calls[k - 1].ProvideRuntime? then
              && w.runtime(calls[..k]) == Some(rt) && calls[k - 1].decision.chosen == Some(rt.name)
              && rt.symbol == c.symbol && rt.timeframe == c.timeframe
              && TakesUp(w, calls[..k - 1]) && calls[k - 1].decision == w.decision(calls[..k - 1])
            else
              rt == c.runtime && (c.adaptive ==> w.status(RiskPrefix(calls[..k])).breaker ||
                                                 (k > 0 && calls[k - 1].RouteQuery? && !TakesUp(w, calls[..k])))
  {
    hide RunBars;
    RunIsLawful(w, c, t, start, stop, funnel);
    var calls := RunBars(w, c, t, start, Initial(funnel), stop).st.calls;
    RuleAt(w, c, t, start, calls, k);
    LawfulFront(w, c, t, start, calls, k);
    hide Fine, Lawful, TakesUp, RiskPrefix, Silent, StageOf;
    PhaseTells(w, c, t, start, calls[..k]);
    if k > 0 {
      assert calls[..k][k - 1] == calls[k - 1];
      RuleAt(w, c, t, start, calls, k - 1);
    }
  }

  /** Routing phases are right behind their calls. */
  lemma {:induction false} PhaseTells(w: World, c: Config, t: Table, start: int, log: Log)
    requires c.freq > 0 && Lawful(w, c, t, start, log)
    ensures var p := StageOf(t, start, log).phase;
            && (log != [] && log[|log| - 1].ProvideRuntime? <==> p.Provided?)
            && (log != [] && log[|log| - 1].RouteQuery? <==> p.Asked?)
  {
    hide Fault, TakesUp, FallsBelow;
  }

  lemma {:induction false} LawfulFront(w: World, c: Config, t: Table, start: int, log: Log, k: nat)
    requires c.freq > 0 && Lawful(w, c, t, start, log) && k <= |log|
    ensures Lawful(w, c, t, start, log[..k])
  {
    hide Rule;
    if k < |log| {
      LawfulFront(w, c, t, start, log[..|log| - 1], k);
      assert log[..|log| - 1][..k] == log[..k];
    } else {
      assert log[..k] == log;
    }
  }
}
