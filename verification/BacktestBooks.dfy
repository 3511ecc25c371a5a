/** The books of a run: what the simulator writes into its trade log, signal log and equity curve
    is what the runtime answered, booked at the open of the bar after the decision. */
module BacktestBooks {
  import opened Wrappers
  import opened Backtest
  import opened BacktestSafety

  // ------------------------------------------- the reference: fills in the call log

  /** `log` is the log once the fill was entered. */
  datatype Fill = Fill(side: Side, amount: real, tick: Tick, native: bool, strategy: string, log: Log)

  /** Where the answer to the last call of `asked` is booked: at the tick of this bar, for this
      strategy. */
  datatype Desk = Desk(asked: Log, tick: Tick, bar: int, strategy: string, native: bool)

  function DeskOf(t: Table, asked: Log): Desk
    requires asked != [] && asked[|asked| - 1].Execute?
  {
    var e := asked[|asked| - 1];
    Desk(asked, TickAt(t, e.obs.index + 1), e.obs.index + 1, e.runtime.name, !e.runtime.cycle)
  }

  function TickAt(t: Table, i: int): Tick {
    if 0 <= i < |t.rows| then Tick(t.rows[i].raw.ts, t.rows[i].raw.open) else Tick(0, 0.0)
  }

  /** A fill cycle counts what was filled; any other policy counts every order, at the filled
      amount or, when that is zero, at the amount asked for. */
  function FillsOf(w: World, d: Desk, orders: seq<Order>): seq<Fill> {
    if orders == [] then []
    else
      var front, o := FillsOf(w, d, orders[..|orders| - 1]), orders[|orders| - 1];
      var n := if o.side.Buy? then Purchases(front) + 1 else Purchases(front);
      if d.native then
        front + [Fill(o.side, if o.filled != 0.0 then o.filled else o.amount, d.tick, true, d.strategy,
                      EntryLog(w, d, n))]
      else if o.filled > 0.0 then front + [Fill(o.side, o.filled, d.tick, false, d.strategy, EntryLog(w, d, n))]
      else front
  }

  /** A fill-cycle answer with a rejected preparation aborts the run unbooked. */
  predicate Answered(w: World, calls: Log) {
    && calls != []
    && calls[|calls| - 1].Execute?
    && (calls[|calls| - 1].runtime.cycle ==> w.execution(calls).prepare !in REJECTED)
  }

  /** All fills the runtime reported, each at the open after its decision bar. */
  function Fills(w: World, t: Table, calls: Log): seq<Fill> {
    if calls == [] then []
    else
      var front := Fills(w, t, calls[..|calls| - 1]);
      if Answered(w, calls) then
        front + FillsOf(w, DeskOf(t, calls), w.execution(calls).orders)
      else front
  }

  /** The last native fill, when it was a purchase. Fill cycles keep their own inventory. */
  function OpenEntry(fills: seq<Fill>): Option<Fill> {
    if fills == [] then None
    else
      var f := fills[|fills| - 1];
      if !f.native then OpenEntry(fills[..|fills| - 1])
      else if f.side.Buy? then Some(f)
      else None
  }

  /** A native sale earns the move since the purchase it answers, on the amount then bought. */
  function Pnl(before: seq<Fill>, f: Fill): real {
    var entry := OpenEntry(before);
    if f.native && f.side.Sell? && entry.Some? then (f.tick.open - entry.value.tick.open) * entry.value.amount else 0.0
  }

  ghost predicate Books(w: World, fills: seq<Fill>, st: State) {
    && |st.tradeLog| == |fills|
    && (forall k :: 0 <= k < |fills| ==> Books1(w, fills[..k], fills[k], st.tradeLog[k]))
    && (var o := OpenEntry(fills);
        if o.None? then st.entry.None?
        else st.entry == Some(Entry(o.value.tick.open, o.value.amount, o.value.strategy)))
  }

  ghost predicate Books1(w: World, before: seq<Fill>, f: Fill, e: TradeEntry) {
    e == TradeEntry(f.tick.ts, f.side, f.amount, f.tick.open, Pnl(before, f), w.equity(f.log))
  }

  // -------------------------------------------------- the reference: signals and calls

  /** The k-th call is a runtime call that saw exactly the bars up to its decision bar, which is
      not the last one. */
  ghost predicate FedClosedBars(c: Config, t: Table, e: Call)
    requires e.Execute?
  {
    var i := e.obs.index;
    && 0 <= i && i + 1 < |t.rows|
    && |e.data| == i + 1 && (forall j :: 0 <= j <= i ==> e.data[j] == t.rows[j].raw)
    && e.obs.raw == t.rows[i].raw
    && e.obs.at == t.rows[i].raw.ts + c.delta
  }

  /** A runtime call enters the signal log with its answer, the time of its decision bar, and the
      time and open of the bar after. */
  function Entered(t: Table, e: Call, side: Action, trace: Execution): SignalEntry
    requires e.Execute?
  {
    var tick := TickAt(t, e.obs.index + 1);
    SignalEntry(TickAt(t, e.obs.index).ts, tick.ts, tick.open, side, e.runtime.cycle, trace)
  }

  /** A fill cycle enters each order that was filled, with its side. */
  function CycleSignals(t: Table, e: Call, orders: seq<Order>, trace: Execution): seq<SignalEntry>
    requires e.Execute?
  {
    if orders == [] then []
    else
      var front, o := CycleSignals(t, e, orders[..|orders| - 1], trace), orders[|orders| - 1];
      if o.filled > 0.0 then front + [Entered(t, e, if o.side.Buy? then BUY else SELL, trace)] else front
  }

  /** The side any other policy is called for: a routed policy to buy, the fixed one by its signal. */
  function SideAt(c: Config, t: Table, i: int): Action {
    if c.adaptive || (0 <= i < |t.signals| && t.signals[i] == Some(1)) then BUY else SELL
  }

  function SignalsOf(c: Config, t: Table, e: Call, x: Execution): seq<SignalEntry>
    requires e.Execute?
  {
    if e.runtime.cycle then CycleSignals(t, e, x.orders, x) else [Entered(t, e, SideAt(c, t, e.obs.index), x)]
  }

  /** All entries, in the order of the calls. */
  function Signals(w: World, c: Config, t: Table, calls: Log): seq<SignalEntry> {
    if calls == [] then []
    else
      var front, e := Signals(w, c, t, calls[..|calls| - 1]), calls[|calls| - 1];
      if Answered(w, calls) then front + SignalsOf(c, t, e, w.execution(calls)) else front
  }

  /** Runtime calls so far decided on bars before `bar`, each on a later one than the call before. */
  ghost predicate CallsInOrder(c: Config, t: Table, calls: Log, bar: int) {
    && (forall k :: 0 <= k < |calls| && calls[k].Execute? ==>
              FedClosedBars(c, t, calls[k]) && calls[k].obs.index + 1 < bar)
    && (forall j, k :: 0 <= j < k < |calls| && calls[j].Execute? && calls[k].Execute? ==>
          calls[j].obs.index < calls[k].obs.index)
  }

  /** Purchases among some fills. */
  function Purchases(fills: seq<Fill>): nat {
    if fills == [] then 0
    else if fills[|fills| - 1].side.Buy? then Purchases(fills[..|fills| - 1]) + 1
    else Purchases(fills[..|fills| - 1])
  }

  /** What an open position gets for a purchase: a fresh entry context at the fill's open, or, for a
      later fill of a cycle, a new time only. */
  function EntryCall(p: Option<Position>, tick: Tick, bar: int, strategy: string, cycle: bool): seq<Call> {
    if p.None? || !p.value.active then []
    else if cycle && p.value.laterFill then [Touch(tick.ts)]
    else [Attach(tick.ts, Excursion(tick.ts, bar, tick.open, tick.open, tick.open), strategy)]
  }

  /** The log after n purchases. */
  function EntryLog(w: World, d: Desk, n: nat): Log {
    if n == 0 then d.asked
    else
      var front := EntryLog(w, d, n - 1);
      front + EntryCall(w.position(front), d.tick, d.bar, d.strategy, !d.native)
  }

  /** The log once the answer to its last call, a runtime call, has been entered. */
  function EntriesOf(w: World, t: Table, asked: Log): Log
    requires asked != [] && asked[|asked| - 1].Execute?
  {
    var d := DeskOf(t, asked);
    EntryLog(w, d, Purchases(FillsOf(w, d, w.execution(asked).orders)))
  }

  /** The purchases of the k-th call's answer were each followed up, one after the other. */
  ghost predicate EntryWritten(w: World, t: Table, calls: Log, k: nat)
    requires k < |calls| && calls[k].Execute?
  {
    Answered(w, calls[..k + 1]) ==> EntriesOf(w, t, calls[..k + 1]) <= calls
  }

  ghost predicate EntriesWritten(w: World, t: Table, calls: Log, n: nat)
    requires n <= |calls|
  {
    forall k :: 0 <= k < n && calls[k].Execute? ==> EntryWritten(w, t, calls, k)
  }

  ghost predicate Kept(w: World, c: Config, t: Table, st: State, bar: int) {
    && Books(w, Fills(w, t, st.calls), st)
    && st.signalLog == Signals(w, c, t, st.calls)
    && CallsInOrder(c, t, st.calls, bar)
    && EntriesWritten(w, t, st.calls, |st.calls|)
  }

  // --------------------------------------------------------- phases that book nothing

  /** Only calls other than the runtime's, and no book touched. */
  ghost predicate Quiet(a: State, b: State) {
    && |a.calls| <= |b.calls| && b.calls[..|a.calls|] == a.calls
    && (forall k :: |a.calls| <= k < |b.calls| ==> !b.calls[k].Execute?)
    && b.tradeLog == a.tradeLog && b.signalLog == a.signalLog && b.entry == a.entry
  }

  lemma {:induction false} QuietTrans(a: State, b: State, c: State)
    requires Quiet(a, b) && Quiet(b, c)
    ensures Quiet(a, c)
  {
    assert c.calls[..|a.calls|] == c.calls[..|b.calls|][..|a.calls|];
    forall k | |a.calls| <= k < |c.calls| ensures !c.calls[k].Execute? {
      if k < |b.calls| {
        assert c.calls[k] == c.calls[..|b.calls|][k];
      }
    }
  }

  lemma {:induction false} QuietFills(w: World, c: Config, t: Table, a: Log, b: Log)
    requires |a| <= |b| && b[..|a|] == a && forall k :: |a| <= k < |b| ==> !b[k].Execute?
    ensures Fills(w, t, b) == Fills(w, t, a) && Signals(w, c, t, b) == Signals(w, c, t, a)
    decreases |b|
  {
    if |a| < |b| {
      var front := b[..|b| - 1];
      assert front[..|a|] == a;
      QuietFills(w, c, t, a, front);
    } else {
      assert a == b;
    }
  }

  lemma {:induction false} QuietKeeps(w: World, c: Config, t: Table, a: State, b: State, bar: int)
    requires Kept(w, c, t, a, bar) && Quiet(a, b)
    ensures Kept(w, c, t, b, bar)
  {
    hide EntriesWritten, Books;
    QuietFills(w, c, t, a.calls, b.calls);
    QuietEntries(w, t, a, b);
    SameBooks(w, Fills(w, t, a.calls), a, b);
    forall k | 0 <= k < |b.calls| && b.calls[k].Execute? ensures k < |a.calls| && b.calls[k] == a.calls[k] {
      assert k < |a.calls| ==> b.calls[..|a.calls|][k] == b.calls[k];
    }
  }

  lemma {:induction false} EntriesStayWritten(w: World, t: Table, a: Log, b: Log, n: nat)
    requires a <= b && n <= |a| && EntriesWritten(w, t, a, n)
    ensures EntriesWritten(w, t, b, n)
  {
    hide EntriesOf, Answered;
    forall k | 0 <= k < n && b[k].Execute? ensures EntryWritten(w, t, b, k) {
      assert a[k] == b[k] && a[..k + 1] == b[..k + 1];
      assert EntryWritten(w, t, a, k);
    }
  }

  lemma {:induction false} QuietEntries(w: World, t: Table, a: State, b: State)
    requires Quiet(a, b) && EntriesWritten(w, t, a.calls, |a.calls|)
    ensures EntriesWritten(w, t, b.calls, |b.calls|)
  {
    EntriesStayWritten(w, t, a.calls, b.calls, |a.calls|);
  }

  lemma {:induction false} QuietStamp(st: State, trades: seq<Trade>, at: int, bar: int, price: real, kind: RefType,
                                      reason: Option<string>)
    ensures Quiet(st, StampAll(st, trades, at, bar, price, kind, reason))
  {
    if trades != [] {
      QuietStamp(st, trades[..|trades| - 1], at, bar, price, kind, reason);
    }
  }

  lemma {:induction false} QuietMark(w: World, st: State, at: int, bar: int, price: real, kind: RefType)
    ensures Quiet(st, MarkPrice(w, st, at, bar, price, kind))
  {
    var st1 := Called(UpdateExcursion(w, st, price), UpdatePrices(price));
    QuietStamp(st1, w.history(st1.calls), at, bar, price, kind, None);
    QuietTrans(st, st1, MarkPrice(w, st, at, bar, price, kind));
  }

  lemma {:induction false} QuietOpening(w: World, st: State, bar: int, at: int, price: real)
    ensures Quiet(st, Opening(w, st, bar, at, price).0)
  {
    hide MarkPrice;
    QuietMark(w, Called(st, SetClock(at)), at, bar, price, BarOpen);
    QuietTrans(st, Called(st, SetClock(at)), Opening(w, st, bar, at, price).0);
  }

  lemma {:induction false} QuietRisk(w: World, st: State, bar: int, ts: int, price: real)
    ensures Quiet(st, RiskCheck(w, st, bar, ts, price).st)
  {
    var st1 := Called(st, CheckAll);
    QuietStamp(st1, w.history(st1.calls), ts, bar, price, BarOpen, Some("circuit_breaker"));
    QuietTrans(st, st1, RiskCheck(w, st, bar, ts, price).st);
  }

  lemma {:induction false} QuietIntend(w: World, c: Config, t: Table, start: int, st: State, bar: int, on: bool)
    requires ValidTable(t) && 0 <= start <= bar <= |t.rows| && c.freq > 0
    ensures Quiet(st, Intend(w, c, t, start, st, bar, on).st)
  {
  }

  lemma {:induction false} QuietClose(w: World, c: Config, st: State, row: FunnelRow, bar: int, raw: Raw)
    ensures Quiet(st, CloseBar(w, c, st, row, bar, raw))
  {
    hide MarkPrice;
    var at := raw.ts + c.delta;
    var st1 := Called(st, SetClock(at));
    var st2 := if raw.low < raw.open then MarkPrice(w, st1, at, bar, raw.low, BarLow) else st1;
    QuietMark(w, st1, at, bar, raw.low, BarLow);
    QuietMark(w, st2, at, bar, raw.close, BarClose);
    QuietTrans(st, st1, st2);
    QuietTrans(st, st2, MarkPrice(w, st2, at, bar, raw.close, BarClose));
  }

  // ------------------------------------------------------------------ booking orders

  lemma {:induction false} BookOne(w: World, fills: seq<Fill>, f: Fill, a: State, b: State, e: TradeEntry)
    requires Books(w, fills, a) && b.tradeLog == a.tradeLog + [e] && Books1(w, fills, f, e)
    requires if !f.native then b.entry == a.entry
             else if f.side.Sell? then b.entry.None?
             else b.entry == Some(Entry(f.tick.open, f.amount, f.strategy))
    ensures Books(w, fills + [f], b)
  {
    var more := fills + [f];
    assert more[..|fills|] == fills;
    forall k | 0 <= k < |more| ensures Books1(w, more[..k], more[k], b.tradeLog[k]) {
      assert k < |fills| ==> more[..k] == fills[..k];
    }
  }

  /** Calls other than the runtime's, whatever happens to the books. */
  ghost predicate Extends(a: State, b: State) {
    && |a.calls| <= |b.calls| && b.calls[..|a.calls|] == a.calls
    && (forall k :: |a.calls| <= k < |b.calls| ==> !b.calls[k].Execute?)
  }

  lemma {:induction false} ExtendsTrans(a: State, b: State, c: State)
    requires Extends(a, b) && Extends(b, c)
    ensures Extends(a, c)
  {
    assert c.calls[..|a.calls|] == c.calls[..|b.calls|][..|a.calls|];
    forall k | |a.calls| <= k < |c.calls| ensures !c.calls[k].Execute? {
      if k < |b.calls| {
        assert c.calls[k] == c.calls[..|b.calls|][k];
      }
    }
  }

  lemma {:induction false} QuietAttach(w: World, st: State, at: int, bar: int, ref: real, strategy: string,
                                       preserve: bool)
    ensures Quiet(st, AttachEntry(w, st, at, bar, ref, strategy, preserve))
  {
  }

  lemma {:induction false} LastNativeOrder(w: World, st: State, orders: seq<Order>, rt: Runtime, bar: int, at: int,
                                           price: real)
    requires orders != []
    ensures var n := |orders| - 1;
            var o := orders[n];
            var amount := if o.filled != 0.0 then o.filled else o.amount;
            var a, b := NativeOrders(w, st, orders[..n], rt, bar, at, price),
                        NativeOrders(w, st, orders, rt, bar, at, price);
            && Extends(a, b) && b.signalLog == a.signalLog
            && b.entry == (if o.side.Buy? then Some(Entry(price, amount, rt.name)) else None)
            && b.tradeLog == a.tradeLog + [TradeEntry(at, o.side, amount, price,
                                                      if o.side.Buy? then 0.0 else SalePnl(a.entry, price),
                                                      w.equity(b.calls))]
  {
    hide AttachEntry;
    var n := |orders| - 1;
    var a := NativeOrders(w, st, orders[..n], rt, bar, at, price);
    QuietAttach(w, a, at, bar, price, rt.name, false);
  }

  lemma {:induction false} NativeOrdersAreBooked(w: World, st: State, orders: seq<Order>, rt: Runtime, bar: int,
                                                 at: int, price: real, fills: seq<Fill>)
    requires Books(w, fills, st)
    ensures var r := NativeOrders(w, st, orders, rt, bar, at, price);
            var d := Desk(st.calls, Tick(at, price), bar, rt.name, true);
            Books(w, fills + FillsOf(w, d, orders), r) && Extends(st, r) && r.signalLog == st.signalLog
  {
    hide Books, FillsOf, EntryLog, Purchases;
    var d := Desk(st.calls, Tick(at, price), bar, rt.name, true);
    if orders == [] {
      NoFills(w, d);
      assert fills + [] == fills;
    } else {
      var n := |orders| - 1;
      NativeOrdersAreBooked(w, st, orders[..n], rt, bar, at, price, fills);
      LastNativeOrder(w, st, orders, rt, bar, at, price);
      NativeEntries(w, st, orders, rt, bar, at, price);
      BookNative(w, fills, orders, d,
                 NativeOrders(w, st, orders[..n], rt, bar, at, price), NativeOrders(w, st, orders, rt, bar, at, price));
      ExtendsTrans(st, NativeOrders(w, st, orders[..n], rt, bar, at, price),
                   NativeOrders(w, st, orders, rt, bar, at, price));
    }
  }

  lemma {:induction false} NoFills(w: World, d: Desk)
    ensures FillsOf(w, d, []) == []
  {
  }

  lemma {:induction false} BookNative(w: World, fills: seq<Fill>, orders: seq<Order>, d: Desk, a: State, b: State)
    requires orders != [] && Books(w, fills + FillsOf(w, d, orders[..|orders| - 1]), a) && d.native
    requires b.calls == EntryLog(w, d, Purchases(FillsOf(w, d, orders)))
    requires var o := orders[|orders| - 1];
             var amount := if o.filled != 0.0 then o.filled else o.amount;
             && b.entry == (if o.side.Buy? then Some(Entry(d.tick.open, amount, d.strategy)) else None)
             && b.tradeLog == a.tradeLog + [TradeEntry(d.tick.ts, o.side, amount, d.tick.open,
                                                       if o.side.Buy? then 0.0 else SalePnl(a.entry, d.tick.open),
                                                       w.equity(b.calls))]
    ensures Books(w, fills + FillsOf(w, d, orders), b)
  {
    hide EntryLog, Purchases;
    var o, front := orders[|orders| - 1], FillsOf(w, d, orders[..|orders| - 1]);
    var before := fills + front;
    var n := if o.side.Buy? then Purchases(front) + 1 else Purchases(front);
    var f := Fill(o.side, if o.filled != 0.0 then o.filled else o.amount, d.tick, true, d.strategy, EntryLog(w, d, n));
    assert FillsOf(w, d, orders) == front + [f];
    PurchasesSnoc(front, f);
    assert fills + FillsOf(w, d, orders) == before + [f];
    BookOne(w, before, f, a, b, b.tradeLog[|a.tradeLog|]);
  }

  lemma {:induction false} LastCycleOrder(w: World, st: State, orders: seq<Order>, trace: Execution, rt: Runtime,
                                          bar: int, decisionTs: int, at: int, price: real)
    requires orders != [] && orders[|orders| - 1].filled > 0.0
    ensures var n := |orders| - 1;
            var o := orders[n];
            var a := CycleOrders(w, st, orders[..n], trace, rt, bar, decisionTs, at, price);
            var b := CycleOrders(w, st, orders, trace, rt, bar, decisionTs, at, price);
            && Extends(a, b) && b.entry == a.entry
            && b.signalLog ==
                 a.signalLog + [SignalEntry(decisionTs, at, price, if o.side.Buy? then BUY else SELL, true, trace)]
            && b.tradeLog == a.tradeLog + [TradeEntry(at, o.side, o.filled, price, 0.0, w.equity(b.calls))]
  {
    hide AttachEntry;
    var n := |orders| - 1;
    var a := CycleOrders(w, st, orders[..n], trace, rt, bar, decisionTs, at, price);
    var s := SignalEntry(decisionTs, at, price, if orders[n].side.Buy? then BUY else SELL, true, trace);
    QuietAttach(w, a.(signalLog := a.signalLog + [s]), at, bar, price, rt.name, true);
  }

  lemma {:induction false} BookCycle(w: World, fills: seq<Fill>, orders: seq<Order>, d: Desk, a: State, b: State)
    requires orders != [] && Books(w, fills + FillsOf(w, d, orders[..|orders| - 1]), a) && !d.native
    requires b.calls == EntryLog(w, d, Purchases(FillsOf(w, d, orders)))
    requires var o := orders[|orders| - 1];
             && o.filled > 0.0 && b.entry == a.entry
             && b.tradeLog == a.tradeLog +
                  [TradeEntry(d.tick.ts, o.side, o.filled, d.tick.open, 0.0, w.equity(b.calls))]
    ensures Books(w, fills + FillsOf(w, d, orders), b)
  {
    hide EntryLog, Purchases;
    var o, front := orders[|orders| - 1], FillsOf(w, d, orders[..|orders| - 1]);
    var before := fills + front;
    var n := if o.side.Buy? then Purchases(front) + 1 else Purchases(front);
    var f := Fill(o.side, o.filled, d.tick, false, d.strategy, EntryLog(w, d, n));
    assert FillsOf(w, d, orders) == front + [f];
    PurchasesSnoc(front, f);
    assert fills + FillsOf(w, d, orders) == before + [f];
    BookOne(w, before, f, a, b, b.tradeLog[|a.tradeLog|]);
  }

  /** The cycle order loop, answering the last runtime call. */
  lemma {:induction false} CycleOrdersAreBooked(w: World, t: Table, st: State, orders: seq<Order>, trace: Execution,
                                                e: Call, fills: seq<Fill>)
    requires Books(w, fills, st) && e.Execute? && e.runtime.cycle && st.calls != [] && st.calls[|st.calls| - 1] == e
    ensures var d := DeskOf(t, st.calls);
            var r := CycleOrders(w, st, orders, trace, e.runtime, d.bar, TickAt(t, e.obs.index).ts, d.tick.ts,
                                 d.tick.open);
            && Books(w, fills + FillsOf(w, d, orders), r) && Extends(st, r)
            && r.signalLog == st.signalLog + CycleSignals(t, e, orders, trace)
  {
    hide Books, FillsOf, EntryLog, Purchases;
    var d := DeskOf(t, st.calls);
    if orders == [] {
      NoFills(w, d);
      assert fills + [] == fills;
    } else {
      var n := |orders| - 1;
      CycleOrdersAreBooked(w, t, st, orders[..n], trace, e, fills);
      var ts, rt := TickAt(t, e.obs.index).ts, e.runtime;
      if orders[n].filled > 0.0 {
        var a := CycleOrders(w, st, orders[..n], trace, rt, d.bar, ts, d.tick.ts, d.tick.open);
        var b := CycleOrders(w, st, orders, trace, rt, d.bar, ts, d.tick.ts, d.tick.open);
        LastCycleOrder(w, st, orders, trace, rt, d.bar, ts, d.tick.ts, d.tick.open);
        CycleEntries(w, st, orders, trace, rt, d.bar, ts, d.tick.ts, d.tick.open);
        BookCycle(w, fills, orders, d, a, b);
        ExtendsTrans(st, a, b);
      } else {
        UnfilledFill(w, d, orders);
      }
    }
  }

  lemma {:induction false} UnfilledFill(w: World, d: Desk, orders: seq<Order>)
    requires orders != [] && !d.native && orders[|orders| - 1].filled <= 0.0
    ensures FillsOf(w, d, orders) == FillsOf(w, d, orders[..|orders| - 1])
  {
  }

  // ------------------------------------------------------------------ the runtime call

  lemma {:induction false} ExtendsFills(w: World, c: Config, t: Table, a: State, b: State, bar: int)
    requires Extends(a, b) && CallsInOrder(c, t, a.calls, bar)
    ensures Fills(w, t, b.calls) == Fills(w, t, a.calls) && CallsInOrder(c, t, b.calls, bar)
    ensures Signals(w, c, t, b.calls) == Signals(w, c, t, a.calls)
  {
    QuietFills(w, c, t, a.calls, b.calls);
    forall k | 0 <= k < |b.calls| && b.calls[k].Execute? ensures k < |a.calls| && b.calls[k] == a.calls[k] {
      assert k < |a.calls| ==> b.calls[..|a.calls|][k] == b.calls[k];
    }
  }

  lemma {:induction false} NextCall(w: World, c: Config, t: Table, calls: Log, e: Call, bar: int)
    requires CallsInOrder(c, t, calls, bar) && e.Execute? && FedClosedBars(c, t, e) && e.obs.index + 1 == bar
    ensures CallsInOrder(c, t, calls + [e], bar + 1)
    ensures Fills(w, t, calls + [e]) ==
            if Answered(w, calls + [e]) then
              Fills(w, t, calls) + FillsOf(w, DeskOf(t, calls + [e]), w.execution(calls + [e]).orders)
            else Fills(w, t, calls)
    ensures Signals(w, c, t, calls + [e]) ==
            if Answered(w, calls + [e]) then
              Signals(w, c, t, calls) + SignalsOf(c, t, e, w.execution(calls + [e]))
            else Signals(w, c, t, calls)
  {
    assert (calls + [e])[..|calls|] == calls;
  }

  lemma {:induction false} LaterBar(w: World, c: Config, t: Table, st: State, bar: int)
    requires Kept(w, c, t, st, bar)
    ensures Kept(w, c, t, st, bar + 1)
  {
  }

  lemma {:induction false} QuietStampNew(w: World, st: State, at: int, bar: int, price: real, kind: RefType,
                                         reason: Option<string>)
    ensures Quiet(st, StampNew(w, st, at, bar, price, kind, reason))
  {
    QuietStamp(st, w.history(st.calls), at, bar, price, kind, reason);
  }

  /** A runtime call has just been made; its answer is not in the books yet. */
  ghost predicate JustCalled(w: World, c: Config, t: Table, st: State, bar: int, fills: seq<Fill>) {
    && st.calls != [] && st.calls[|st.calls| - 1].Execute? && st.calls[|st.calls| - 1].obs.index + 1 == bar
    && Books(w, fills, st)
    && CallsInOrder(c, t, st.calls, bar + 1)
    && EntriesWritten(w, t, st.calls, |st.calls| - 1)
    && Fills(w, t, st.calls) ==
       (if Answered(w, st.calls) then
          fills + FillsOf(w, DeskOf(t, st.calls), w.execution(st.calls).orders)
        else fills)
    && Signals(w, c, t, st.calls) ==
       (if Answered(w, st.calls) then
          st.signalLog + SignalsOf(c, t, st.calls[|st.calls| - 1], w.execution(st.calls))
        else st.signalLog)
  }

  lemma {:induction false} AfterCall(w: World, c: Config, t: Table, st: State, e: Call, bar: int)
    requires Kept(w, c, t, st, bar) && e.Execute? && FedClosedBars(c, t, e) && e.obs.index + 1 == bar
    ensures JustCalled(w, c, t, Called(st, e), bar, Fills(w, t, st.calls))
  {
    hide Books, FillsOf, SignalsOf, EntriesWritten, FedClosedBars, DeskOf, Answered, EntryWritten, EntriesOf;
    NextCall(w, c, t, st.calls, e, bar);
    EntriesStayWritten(w, t, st.calls, st.calls + [e], |st.calls|);
    SameBooks(w, Fills(w, t, st.calls), st, Called(st, e));
  }

  /** Entering the last call's answer, or having none to enter. */
  lemma {:induction false} LastEntryWritten(w: World, t: Table, a: Log, b: Log)
    requires a != [] && a <= b && a[|a| - 1].Execute? && EntriesWritten(w, t, a, |a| - 1)
    requires forall k :: |a| <= k < |b| ==> !b[k].Execute?
    requires Answered(w, a) ==> b == EntriesOf(w, t, a)
    ensures EntriesWritten(w, t, b, |b|)
  {
    hide EntriesOf, Answered;
    EntriesStayWritten(w, t, a, b, |a| - 1);
    forall k | 0 <= k < |b| && b[k].Execute? ensures EntryWritten(w, t, b, k) {
      if k == |a| - 1 {
        assert b[..k + 1] == a && b[k] == a[k];
      }
    }
  }

  lemma {:induction false} PurchasesSnoc(fills: seq<Fill>, f: Fill)
    ensures Purchases(fills + [f]) == if f.side.Buy? then Purchases(fills) + 1 else Purchases(fills)
  {
    assert (fills + [f])[..|fills|] == fills;
  }

  lemma {:induction false} EntryStep(w: World, st: State, at: int, bar: int, price: real, strategy: string, cycle: bool)
    ensures AttachEntry(w, st, at, bar, price, strategy, cycle).calls ==
            st.calls + EntryCall(w.position(st.calls), Tick(at, price), bar, strategy, cycle)
  {
  }

  lemma {:induction false} NativeEntries(w: World, st: State, orders: seq<Order>, rt: Runtime, bar: int, at: int,
                                         price: real)
    ensures var d := Desk(st.calls, Tick(at, price), bar, rt.name, true);
            NativeOrders(w, st, orders, rt, bar, at, price).calls == EntryLog(w, d, Purchases(FillsOf(w, d, orders)))
  {
    hide AttachEntry, EntryCall, Purchases;
    var d := Desk(st.calls, Tick(at, price), bar, rt.name, true);
    if orders == [] {
      PurchasesNone();
    } else {
      var n := |orders| - 1;
      NativeEntries(w, st, orders[..n], rt, bar, at, price);
      var fills := FillsOf(w, d, orders);
      PurchasesSnoc(fills[..|fills| - 1], fills[|fills| - 1]);
      assert fills == fills[..|fills| - 1] + [fills[|fills| - 1]];
      EntryStep(w, NativeOrders(w, st, orders[..n], rt, bar, at, price), at, bar, price, rt.name, false);
    }
  }

  lemma {:induction false} PurchasesNone()
    ensures Purchases([]) == 0
  {
  }

  lemma {:induction false} CycleEntries(w: World, st: State, orders: seq<Order>, trace: Execution, rt: Runtime,
                                        bar: int, decisionTs: int, at: int, price: real)
    ensures var d := Desk(st.calls, Tick(at, price), bar, rt.name, false);
            CycleOrders(w, st, orders, trace, rt, bar, decisionTs, at, price).calls ==
            EntryLog(w, d, Purchases(FillsOf(w, d, orders)))
  {
    hide AttachEntry, EntryCall, Purchases;
    var d := Desk(st.calls, Tick(at, price), bar, rt.name, false);
    if orders == [] {
      PurchasesNone();
    } else {
      var n := |orders| - 1;
      CycleEntries(w, st, orders[..n], trace, rt, bar, decisionTs, at, price);
      if orders[n].filled > 0.0 {
        var a := CycleOrders(w, st, orders[..n], trace, rt, bar, decisionTs, at, price);
        var s := SignalEntry(decisionTs, at, price, if orders[n].side.Buy? then BUY else SELL, true, trace);
        var fills := FillsOf(w, d, orders);
        PurchasesSnoc(fills[..|fills| - 1], fills[|fills| - 1]);
        assert fills == fills[..|fills| - 1] + [fills[|fills| - 1]];
        EntryStep(w, a.(signalLog := a.signalLog + [s]), at, bar, price, rt.name, true);
      }
    }
  }

  lemma {:induction false} SameBooks(w: World, fills: seq<Fill>, a: State, b: State)
    requires Books(w, fills, a) && b.tradeLog == a.tradeLog && b.entry == a.entry
    ensures Books(w, fills, b)
  {
  }

  /** An answer without orders is in the books as it is. */
  lemma {:induction false} NothingBooked(w: World, c: Config, t: Table, st: State)
    requires st.calls != [] && st.calls[|st.calls| - 1].Execute?
    requires Answered(w, st.calls) ==> st.calls[|st.calls| - 1].runtime.cycle && w.execution(st.calls).orders == []
    requires EntriesWritten(w, t, st.calls, |st.calls| - 1)
    ensures EntriesWritten(w, t, st.calls, |st.calls|)
    ensures Answered(w, st.calls) ==> FillsOf(w, DeskOf(t, st.calls), w.execution(st.calls).orders) == []
    ensures Answered(w, st.calls) ==> SignalsOf(c, t, st.calls[|st.calls| - 1], w.execution(st.calls)) == []
  {
    hide EntriesWritten, Answered;
    PurchasesNone();
    LastEntryWritten(w, t, st.calls, st.calls);
  }

  lemma {:induction false} Unbooked(w: World, c: Config, t: Table, st: State, bar: int, fills: seq<Fill>)
    requires JustCalled(w, c, t, st, bar, fills)
    requires Answered(w, st.calls) ==> st.calls[|st.calls| - 1].runtime.cycle && w.execution(st.calls).orders == []
    ensures Kept(w, c, t, st, bar + 1)
  {
    hide Books, CallsInOrder, EntriesOf, EntryWritten, Fills, Signals, Answered;
    assert st.signalLog + [] == st.signalLog;
    assert fills + [] == fills;
    NothingBooked(w, c, t, st);
  }

  lemma {:induction false} CycleAnswerIsBooked(w: World, c: Config, t: Table, st: State, rt: Runtime, bar: int,
                                               fills: seq<Fill>)
    requires 0 < bar < |t.rows| && JustCalled(w, c, t, st, bar, fills)
    requires Answered(w, st.calls) && st.calls[|st.calls| - 1].runtime == rt && rt.cycle
    ensures var x, tick := w.execution(st.calls), TickAt(t, bar);
            var booked := CycleOrders(w, st, x.orders, x, rt, bar, TickAt(t, bar - 1).ts, tick.ts, tick.open);
            Kept(w, c, t, StampNew(w, booked, tick.ts, bar, tick.open, BarOpen, None), bar + 1)
  {
    hide Books, StampNew, CycleOrders, EntriesWritten, FillsOf, CycleSignals, Purchases, EntryLog;
    var x, tick := w.execution(st.calls), TickAt(t, bar);
    var booked := CycleOrders(w, st, x.orders, x, rt, bar, TickAt(t, bar - 1).ts, tick.ts, tick.open);
    CycleOrdersAreBooked(w, t, st, x.orders, x, st.calls[|st.calls| - 1], fills);
    ExtendsFills(w, c, t, st, booked, bar + 1);
    CycleEntries(w, st, x.orders, x, rt, bar, TickAt(t, bar - 1).ts, tick.ts, tick.open);
    LastEntryWritten(w, t, st.calls, booked.calls);
    QuietStampNew(w, booked, tick.ts, bar, tick.open, BarOpen, None);
    QuietKeeps(w, c, t, booked, StampNew(w, booked, tick.ts, bar, tick.open, BarOpen, None), bar + 1);
  }

  lemma {:induction false} NativeAnswerIsBooked(w: World, c: Config, t: Table, st: State, s: SignalEntry, rt: Runtime,
                                                bar: int, fills: seq<Fill>)
    requires 0 < bar < |t.rows| && JustCalled(w, c, t, st, bar, fills)
    requires st.calls[|st.calls| - 1].runtime == rt && !rt.cycle
    requires s == Entered(t, st.calls[|st.calls| - 1], SideAt(c, t, bar - 1), w.execution(st.calls))
    ensures var x, tick := w.execution(st.calls), TickAt(t, bar);
            var booked := NativeOrders(w, st.(signalLog := st.signalLog + [s]), x.orders, rt, bar, tick.ts, tick.open);
            Kept(w, c, t, StampNew(w, booked, tick.ts, bar, tick.open, BarOpen, None), bar + 1)
  {
    hide Books, StampNew, NativeOrders, EntriesWritten, FillsOf, Purchases, EntryLog, Signals, Entered, SideAt;
    var x, tick := w.execution(st.calls), TickAt(t, bar);
    var logged := st.(signalLog := st.signalLog + [s]);
    SameBooks(w, fills, st, logged);
    NativeOrdersAreBooked(w, logged, x.orders, rt, bar, tick.ts, tick.open, fills);
    var booked := NativeOrders(w, logged, x.orders, rt, bar, tick.ts, tick.open);
    ExtendsFills(w, c, t, logged, booked, bar + 1);
    NativeEntries(w, logged, x.orders, rt, bar, tick.ts, tick.open);
    LastEntryWritten(w, t, st.calls, booked.calls);
    QuietStampNew(w, booked, tick.ts, bar, tick.open, BarOpen, None);
    QuietKeeps(w, c, t, booked, StampNew(w, booked, tick.ts, bar, tick.open, BarOpen, None), bar + 1);
  }

  lemma {:induction false} CycleBarIsBooked(w: World, c: Config, t: Table, st: State, row: FunnelRow, rt: Runtime,
                                            bar: int, halted: bool)
    requires 0 < bar < |t.rows| && rt.cycle && Kept(w, c, t, st, bar)
    ensures var tick := TickAt(t, bar);
            Kept(w, c, t, CycleBar(w, c, st, row, rt, t.rows, bar, tick.ts, tick.open, halted).st, bar + 1)
  {
    hide CycleOrders, StampNew, Kept, JustCalled, CycleSnapshot;
    var decision, quantity := t.rows[bar - 1], CycleQuantity(w.position(st.calls));
    LaterBar(w, c, t, st, bar);
    if quantity.Some? && !(halted && quantity.value == 0.0) {
      var obs := Observation(bar - 1, decision.raw.ts + c.delta, decision.raw, []);
      var e := Execute(rt, RawPrefix(t.rows, bar), obs, Some(CycleSnapshot(w, st.calls, quantity.value)));
      AfterCall(w, c, t, st, e, bar);
      var st1, fills := Called(st, e), Fills(w, t, st.calls);
      if Answered(w, st1.calls) && w.execution(st1.calls).orders != [] {
        CycleAnswerIsBooked(w, c, t, st1, rt, bar, fills);
      } else {
        Unbooked(w, c, t, st1, bar, fills);
      }
    }
  }

  lemma {:induction false} NativeBarIsBooked(w: World, c: Config, t: Table, st: State, row: FunnelRow, intent: Intent,
                                             bar: int)
    requires 0 < bar < |t.rows| && !intent.runtime.cycle && Kept(w, c, t, st, bar)
    requires intent.signal != 0 ==> (intent.signal == 1 <==> SideAt(c, t, bar - 1) == BUY)
    ensures var tick := TickAt(t, bar);
            Kept(w, c, t, NativeBar(w, c, st, row, intent, t.rows, bar, tick.ts, tick.open).st, bar + 1)
  {
    hide NativeOrders, StampNew, Kept, JustCalled;
    var tick, decision := TickAt(t, bar), t.rows[bar - 1];
    var holds := Holds(w.position(st.calls));
    LaterBar(w, c, t, st, bar);
    if !(intent.signal == 0 || (intent.signal == 1 && holds && !intent.manage) || (intent.signal == -1 && !holds)) {
      var obs := Observation(bar - 1, decision.raw.ts + c.delta, decision.raw, decision.features);
      var e := Execute(intent.runtime, RawPrefix(t.rows, bar), obs, None);
      AfterCall(w, c, t, st, e, bar);
      var st1, fills := Called(st, e), Fills(w, t, st.calls);
      var s := SignalEntry(decision.raw.ts, tick.ts, tick.open, if intent.signal == 1 then BUY else SELL, false,
                           w.execution(st1.calls));
      NativeAnswerIsBooked(w, c, t, st1, s, intent.runtime, bar, fills);
    }
  }

  // ------------------------------------------------------------------------ whole runs

  /** A native intent carries the side of its decision bar. */
  lemma {:induction false} IntentSide(w: World, c: Config, t: Table, start: int, st: State, bar: int, on: bool)
    requires ValidTable(t) && 0 <= start <= bar <= |t.rows| && c.freq > 0
    requires Due(start, c.freq, bar) && !on
    ensures var routed := Intend(w, c, t, start, st, bar, on);
            routed.err.None? && routed.intent.signal != 0 ==>
              (routed.intent.signal == 1 <==> SideAt(c, t, bar - 1) == BUY)
  {
  }

  lemma {:induction false} DecideBarIsBooked(w: World, c: Config, t: Table, start: int, st: State, bar: int)
    requires ValidTable(t) && 0 <= start <= bar < |t.rows| && c.freq > 0 && Kept(w, c, t, st, bar)
    ensures Kept(w, c, t, DecideBar(w, c, t, start, st, bar, TickAt(t, bar)).st, bar + 1)
  {
    hide Opening, RiskCheck, Intend, CycleBar, NativeBar, Preset;
    var tick := TickAt(t, bar);
    var (st1, row) := Opening(w, st, bar, tick.ts, tick.open);
    QuietOpening(w, st, bar, tick.ts, tick.open);
    QuietRisk(w, st1, bar, tick.ts, tick.open);
    var risk := RiskCheck(w, st1, bar, tick.ts, tick.open);
    QuietTrans(st, st1, risk.st);
    QuietKeeps(w, c, t, st, risk.st, bar);
    LaterBar(w, c, t, risk.st, bar);
    if risk.err.None? {
      var status, cooldown := w.status(st1.calls + [CheckAll]), CooldownAlert(w.alerts(st1.calls + [CheckAll]));
      var routed := Intend(w, c, t, start, risk.st, bar, status.breaker);
      QuietIntend(w, c, t, start, risk.st, bar, status.breaker);
      QuietKeeps(w, c, t, risk.st, routed.st, bar);
      LaterBar(w, c, t, routed.st, bar);
      if routed.err.None? {
        if Due(start, c.freq, bar) && !status.breaker {
          IntentSide(w, c, t, start, risk.st, bar, status.breaker);
        }
        ActIsBooked(w, c, t, start, routed.st, row, routed.intent, bar, status, cooldown);
      }
    }
  }

  lemma {:induction false} ActIsBooked(w: World, c: Config, t: Table, start: int, st: State, row: FunnelRow,
                                       intent: Intent, bar: int, status: Status, cooldown: bool)
    requires ValidTable(t) && 0 <= start <= bar < |t.rows| && c.freq > 0 && Kept(w, c, t, st, bar)
    requires Due(start, c.freq, bar) && !status.breaker && intent.signal != 0 ==>
               (intent.signal == 1 <==> SideAt(c, t, bar - 1) == BUY)
    ensures Kept(w, c, t, ActOn(w, c, t, start, st, row, intent, bar, TickAt(t, bar), status, cooldown).st, bar + 1)
  {
    hide CycleBar, NativeBar, Preset;
    var due := Due(start, c.freq, bar);
    var row1 := Preset(row, bar == start, intent.runtime.cycle && due, due, intent.signal, status.breaker, cooldown);
    LaterBar(w, c, t, st, bar);
    if intent.runtime.cycle && due {
      CycleBarIsBooked(w, c, t, st, row1, intent.runtime, bar, status.breaker || status.cooldown);
    } else if due && !status.breaker && !cooldown {
      NativeBarIsBooked(w, c, t, st, row1, intent, bar);
    }
  }

  lemma {:induction false} BarIsBooked(w: World, c: Config, t: Table, start: int, st: State, bar: int)
    requires ValidTable(t) && 0 <= start <= bar < |t.rows| && c.freq > 0 && Kept(w, c, t, st, bar)
    ensures Kept(w, c, t, Bar(w, c, t, start, st, bar).st, bar + 1)
  {
    hide DecideBar, CloseBar;
    var raw := t.rows[bar].raw;
    DecideBarIsBooked(w, c, t, start, st, bar);
    var o := DecideBar(w, c, t, start, st, bar, Tick(raw.ts, raw.open));
    if o.err.None? {
      QuietClose(w, c, o.st, o.row, bar, raw);
      QuietKeeps(w, c, t, o.st, CloseBar(w, c, o.st, o.row, bar, raw), bar + 1);
    }
  }

  /** Every run, completed or aborted: the trade log is exactly the fills the runtime reported, in
      order, each at the open after its decision, each native sale with the profit against the
      purchase it answers; the signal log is exactly one entry for each call of a crossover policy and
      one for each fill of a cycle, in order; the runtime is called at most once a bar, on exactly the
      closed bars; and every purchase gave the open position its entry context. */
  lemma {:induction false} RunIsBooked(w: World, c: Config, t: Table, start: int, bar: int, funnel: bool)
    requires ValidTable(t) && 0 <= start <= bar <= |t.rows| && c.freq > 0
    ensures var st := RunBars(w, c, t, start, Initial(funnel), bar).st;
            && Books(w, Fills(w, t, st.calls), st)
            && st.signalLog == Signals(w, c, t, st.calls)
            && CallsInOrder(c, t, st.calls, bar)
            && EntriesWritten(w, t, st.calls, |st.calls|)
    decreases bar
  {
    hide Bar;
    if bar > start {
      RunIsBooked(w, c, t, start, bar - 1, funnel);
      var before := RunBars(w, c, t, start, Initial(funnel), bar - 1);
      if before.err.None? {
        BarIsBooked(w, c, t, start, before.st, bar - 1);
      }
    }
  }
}
