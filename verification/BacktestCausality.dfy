/** No look-ahead, over whole runs of the simulator. */
module BacktestCausality {
  import opened Wrappers
  import opened Backtest

  /** Indicators and signals: one row and one signal per input bar, none of which changes when
      later bars do. */
  ghost predicate Causal(prepare: seq<Raw> -> Table) {
    && (forall a :: ValidTable(prepare(a)) && |prepare(a).rows| == |a|)
    && (forall a, b, n: nat {:trigger prepare(a), prepare(b), a[..n]} ::
          n <= |a| && n <= |b| && a[..n] == b[..n] ==>
            prepare(a).rows[..n] == prepare(b).rows[..n] && prepare(a).signals[..n] == prepare(b).signals[..n])
    && (forall a, i :: 0 <= i < |a| ==> prepare(a).rows[i].raw == a[i])
  }

  ghost predicate SamePast(t: Table, u: Table, n: nat) {
    && ValidTable(t) && ValidTable(u) && n <= |t.rows| && n <= |u.rows|
    && t.rows[..n] == u.rows[..n] && t.signals[..n] == u.signals[..n]
  }

  lemma {:induction false} SamePastShrinks(t: Table, u: Table, n: nat)
    requires n > 0 && SamePast(t, u, n)
    ensures SamePast(t, u, n - 1)
    ensures t.rows[n - 1] == u.rows[n - 1] && t.signals[n - 1] == u.signals[n - 1]
  {
  }

  lemma {:induction false} SameRawPrefix(t: Table, u: Table, n: nat)
    requires SamePast(t, u, n)
    ensures RawPrefix(t.rows, n) == RawPrefix(u.rows, n)
  {
  }

  lemma {:induction false} CycleBarIsCausal(w: World, c: Config, st: State, row: FunnelRow, rt: Runtime, t: Table,
                                            u: Table, bar: int, at: int, price: real, halted: bool)
    requires bar > 0 && SamePast(t, u, bar)
    ensures CycleBar(w, c, st, row, rt, t.rows, bar, at, price, halted) ==
            CycleBar(w, c, st, row, rt, u.rows, bar, at, price, halted)
  {
    SamePastShrinks(t, u, bar);
    SameRawPrefix(t, u, bar);
  }

  lemma {:induction false} NativeBarIsCausal(w: World, c: Config, st: State, row: FunnelRow, intent: Intent, t: Table,
                                             u: Table, bar: int, at: int, price: real)
    requires bar > 0 && SamePast(t, u, bar)
    ensures NativeBar(w, c, st, row, intent, t.rows, bar, at, price) ==
            NativeBar(w, c, st, row, intent, u.rows, bar, at, price)
  {
    SamePastShrinks(t, u, bar);
    SameRawPrefix(t, u, bar);
  }

  lemma {:induction false} DecideBarIsCausal(w: World, c: Config, t: Table, u: Table, start: int, st: State, bar: int,
                                             tick: Tick)
    requires 0 <= start <= bar && SamePast(t, u, bar) && c.freq > 0
    ensures DecideBar(w, c, t, start, st, bar, tick) == DecideBar(w, c, u, start, st, bar, tick)
  {
    var (st1, row) := Opening(w, st, bar, tick.ts, tick.open);
    var risk := RiskCheck(w, st1, bar, tick.ts, tick.open);
    var checked := st1.calls + [CheckAll];
    IntendIsCausal(w, c, t, u, start, risk.st, bar, w.status(checked).breaker);
    var routed := Intend(w, c, t, start, risk.st, bar, w.status(checked).breaker);
    ActOnIsCausal(w, c, t, u, start, routed.st, row, routed.intent, bar, tick, w.status(checked),
                  CooldownAlert(w.alerts(checked)));
  }

  lemma {:induction false} IntendIsCausal(w: World, c: Config, t: Table, u: Table, start: int, st: State, bar: int,
                                          on: bool)
    requires 0 <= start <= bar && SamePast(t, u, bar) && c.freq > 0
    ensures Intend(w, c, t, start, st, bar, on) == Intend(w, c, u, start, st, bar, on)
  {
  }

  lemma {:induction false} ActOnIsCausal(w: World, c: Config, t: Table, u: Table, start: int, st: State, row: FunnelRow,
                                         intent: Intent, bar: int, tick: Tick, status: Status, cooldown: bool)
    requires 0 <= start <= bar && SamePast(t, u, bar) && c.freq > 0
    ensures ActOn(w, c, t, start, st, row, intent, bar, tick, status, cooldown) ==
            ActOn(w, c, u, start, st, row, intent, bar, tick, status, cooldown)
  {
    var due := Due(start, c.freq, bar);
    if due {
      var row1 := Preset(row, bar == start, intent.runtime.cycle && due, due, intent.signal, status.breaker, cooldown);
      CycleBarIsCausal(w, c, st, row1, intent.runtime, t, u, bar, tick.ts, tick.open,
                       status.breaker || status.cooldown);
      NativeBarIsCausal(w, c, st, row1, intent, t, u, bar, tick.ts, tick.open);
    }
  }

  lemma {:induction false} RunBarsIsCausal(w: World, c: Config, t: Table, u: Table, start: int, st: State, bar: int)
    requires 0 <= start <= bar && SamePast(t, u, bar) && c.freq > 0
    ensures RunBars(w, c, t, start, st, bar) == RunBars(w, c, u, start, st, bar)
    decreases bar
  {
    hide DecideBar, CloseBar;
    if bar > start {
      SamePastShrinks(t, u, bar);
      RunBarsIsCausal(w, c, t, u, start, st, bar - 1);
      var before := RunBars(w, c, t, start, st, bar - 1);
      if before.err.None? {
        var raw := t.rows[bar - 1].raw;
        DecideBarIsCausal(w, c, t, u, start, before.st, bar - 1, Tick(raw.ts, raw.open));
      }
    }
  }

  /** The run up to and including the decision of bar i. */
  function UpToDecision(w: World, c: Config, t: Table, start: int, st: State, bar: int): Outcome
    requires ValidTable(t) && 0 <= start <= bar < |t.rows| && c.freq > 0
  {
    var before := RunBars(w, c, t, start, st, bar);
    var blank := FunnelRow(bar, bar - 1, HOLD, NoSignal, false, [], false, false);
    if before.err.Some? then Outcome(before.st, blank, before.err)
    else DecideBar(w, c, t, start, before.st, bar, Tick(t.rows[bar].raw.ts, t.rows[bar].raw.open))
  }

  /** Two price tables that agree before bar i, and on the timestamp and open of bar i, produce
      the same calls, orders, logs and errors up to the decision of bar i, whatever comes later. */
  lemma {:induction false} NoLookAhead(w: World, c: Config, prepare: seq<Raw> -> Table, a: seq<Raw>, b: seq<Raw>,
                                       start: int, st: State, i: int)
    requires Causal(prepare) && c.freq > 0
    requires 0 <= start <= i < |a| && i < |b|
    requires a[..i] == b[..i] && a[i].ts == b[i].ts && a[i].open == b[i].open
    ensures UpToDecision(w, c, prepare(a), start, st, i) == UpToDecision(w, c, prepare(b), start, st, i)
  {
    var t, u := prepare(a), prepare(b);
    assert SamePast(t, u, i);
    RunBarsIsCausal(w, c, t, u, start, st, i);
    var before := RunBars(w, c, t, start, st, i);
    if before.err.None? {
      DecideBarIsCausal(w, c, t, u, start, before.st, i, Tick(a[i].ts, a[i].open));
    }
  }
}
