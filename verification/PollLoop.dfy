/** The live polling loop of `BinanceDataFeed`. */
module PollLoop {
  // One callback per new closed bar and symbol, and none at all after a bar that cannot be trusted.

  import opened Wrappers
  import opened CandleIntake

  /** What the exchange does when asked: it raises some other error, or answers at `now`. */
  datatype Fetch = Unreachable | Answer(bars: seq<RawBar>, now: int)

  datatype Fetched = Distrusted(error: TrustError) | Failed | Window(candles: seq<Candle>)

  /** The live branch of `fetch_recent_closed`, and reading the last timestamp of its frame. */
  function FetchClosed(f: Fetch, windowBars: nat): Fetched {
    match f
    case Unreachable => Failed
    case Answer(bars, now) =>
      match Validate(bars, now)
      case Err(e) => Distrusted(e)
      case Ok(cs) =>
        if |cs| < windowBars then Distrusted(Insufficient)
        else if cs == [] then Failed
        else Window(cs)
  }

  function Tail(cs: seq<Candle>, n: nat): seq<Candle> {
    if n <= |cs| then cs[|cs| - n..] else cs
  }

  /** What the callback does with a bar. */
  datatype Reaction = Returns | RaisesTrust | RaisesOther

  datatype Poll = Poll(symbol: Symbol, fetch: Fetch, reaction: Reaction)

  datatype Callback = Callback(symbol: Symbol, window: seq<Candle>, time: int)

  datatype Feed = Feed(lastSeen: map<Symbol, int>, warm: map<Symbol, seq<Candle>>, calls: seq<Callback>, stopped: bool)

  /** One symbol of the initial load: every error is only logged. */
  function Load(f: Feed, p: Poll, windowBars: nat): Feed {
    match FetchClosed(p.fetch, windowBars)
    case Window(cs) =>
      f.(warm := f.warm[p.symbol := Tail(cs, windowBars)], lastSeen := f.lastSeen[p.symbol := cs[|cs| - 1].ts])
    case _ => f
  }

  predicate IsNew(f: Feed, symbol: Symbol, ts: int) {
    symbol in f.lastSeen ==> ts > f.lastSeen[symbol]
  }

  /** One symbol inside the loop. A trust violation stops everything; so does one raised by the
      callback itself. Any other error is retried on the next round. */
  function PollOne(f: Feed, p: Poll, windowBars: nat): Feed {
    if f.stopped then f
    else
      match FetchClosed(p.fetch, windowBars)
      case Distrusted(_) => f.(stopped := true)
      case Failed => f
      case Window(cs) =>
        var ts := cs[|cs| - 1].ts;
        if !IsNew(f, p.symbol, ts) then f
        else
          var window := Tail(cs, windowBars);
          Feed(f.lastSeen[p.symbol := ts], f.warm[p.symbol := window], f.calls + [Callback(p.symbol, window, ts)],
               p.reaction.RaisesTrust?)
  }

  function LoadAll(f: Feed, polls: seq<Poll>, windowBars: nat): Feed {
    if polls == [] then f else Load(LoadAll(f, polls[..|polls| - 1], windowBars), polls[|polls| - 1], windowBars)
  }

  function PollAll(f: Feed, polls: seq<Poll>, windowBars: nat): Feed {
    if polls == [] then f else PollOne(PollAll(f, polls[..|polls| - 1], windowBars), polls[|polls| - 1], windowBars)
  }

  const EMPTY := Feed(map[], map[], [], false)

  // ------------------------------------------------------------------ the feed object

  /** One pass over the symbols; `stop` is the stop event as found before the pass. */
  datatype Round = Round(stop: bool, polls: seq<Poll>)

  /** The rounds up to the first one that finds the stop event set, flattened. */
  function Polled(rounds: seq<Round>): seq<Poll> {
    if rounds == [] || rounds[0].stop then [] else rounds[0].polls + Polled(rounds[1..])
  }

  class BinanceDataFeed {
    const windowBars: nat
    var lastSeen: map<Symbol, int>
    var warm: map<Symbol, seq<Candle>>
    var calls: seq<Callback>
    var stopped: bool

    ghost function View(): Feed
      reads this
    {
      Feed(lastSeen, warm, calls, stopped)
    }

    constructor (windowBars: nat)
      ensures View() == EMPTY && this.windowBars == windowBars
    {
      this.windowBars := windowBars;
      lastSeen, warm, calls, stopped := map[], map[], [], false;
    }

    method LoadSymbol(p: Poll)
      modifies this
      ensures View() == Load(old(View()), p, windowBars)
      ensures stopped == old(stopped)
    {
      match FetchClosed(p.fetch, windowBars) {
        case Window(cs) =>
          warm := warm[p.symbol := Tail(cs, windowBars)];
          lastSeen := lastSeen[p.symbol := cs[|cs| - 1].ts];
        case _ =>
      }
    }

    method PollSymbol(p: Poll)
      requires !stopped
      modifies this
      ensures View() == PollOne(old(View()), p, windowBars)
    {
      match FetchClosed(p.fetch, windowBars) {
        case Distrusted(_) =>
          stopped := true;
        case Failed =>
        case Window(cs) =>
          var ts := cs[|cs| - 1].ts;
          if p.symbol !in lastSeen || ts > lastSeen[p.symbol] {
            lastSeen := lastSeen[p.symbol := ts];
            warm := warm[p.symbol := Tail(cs, windowBars)];
            calls := calls + [Callback(p.symbol, warm[p.symbol], ts)];
            stopped := p.reaction.RaisesTrust?;
          }
      }
    }

    method LoadSymbols(initial: seq<Poll>)
      modifies this
      ensures View() == LoadAll(old(View()), initial, windowBars)
      ensures stopped == old(stopped)
    {
      hide Load;
      for i := 0 to |initial|
        invariant View() == LoadAll(old(View()), initial[..i], windowBars) && stopped == old(stopped)
      {
        assert initial[..i + 1][..i] == initial[..i];
        LoadSymbol(initial[i]);
      }
      assert initial[..|initial|] == initial;
    }

    /** One pass over the symbols; it ends at the first trust violation. */
    method PollRound(polls: seq<Poll>)
      requires !stopped
      modifies this
      ensures View() == PollAll(old(View()), polls, windowBars)
    {
      hide PollOne;
      for k := 0 to |polls|
        invariant View() == PollAll(old(View()), polls[..k], windowBars) && !stopped
      {
        assert polls[..k + 1][..k] == polls[..k];
        PollSymbol(polls[k]);
        if stopped {
          StoppedStays(old(View()), polls[..k + 1], polls[k + 1..], windowBars);
          assert polls[..k + 1] + polls[k + 1..] == polls;
          return;
        }
      }
      assert polls[..|polls|] == polls;
    }

    /** `poll_loop` over a finite schedule of what the exchange and the callback will do. */
    method PollLoop(initial: seq<Poll>, rounds: seq<Round>)
      requires !stopped
      modifies this
      ensures View() == PollAll(LoadAll(old(View()), initial, windowBars), Polled(rounds), windowBars)
    {
      hide LoadAll, PollAll;
      LoadSymbols(initial);
      ghost var loaded := View();
      ghost var past: seq<Poll> := [];
      PollNothing(loaded, windowBars);
      for r := 0 to |rounds|
        invariant View() == PollAll(loaded, past, windowBars) && !stopped
        invariant Polled(rounds) == past + Polled(rounds[r..])
      {
        var round := rounds[r];
        PolledUnfolds(rounds, r, past);
        if round.stop {
          return;
        }
        PollRound(round.polls);
        PollAllAppend(loaded, past, round.polls, windowBars);
        past := past + round.polls;
        if stopped {
          StoppedStays(loaded, past, Polled(rounds[r + 1..]), windowBars);
          return;
        }
      }
      assert past + [] == past;
    }
  }

  lemma {:induction false} PollNothing(f: Feed, windowBars: nat)
    ensures PollAll(f, [], windowBars) == f
  {
  }

  lemma {:induction false} PolledUnfolds(rounds: seq<Round>, r: nat, past: seq<Poll>)
    requires r < |rounds|
    ensures past + Polled(rounds[r..]) ==
            if rounds[r].stop then past else past + rounds[r].polls + Polled(rounds[r + 1..])
  {
  }

  /** A stop event found before a round ends the loop there. */
  lemma {:induction false} StopIsHeeded(before: seq<Round>, polls: seq<Poll>, later: seq<Round>)
    requires forall r :: r in before ==> !r.stop
    ensures Polled(before + [Round(true, polls)] + later) == Polled(before)
    ensures before != [] ==> Polled(before) == before[0].polls + Polled(before[1..])
  {
    var all := before + [Round(true, polls)] + later;
    if before != [] {
      assert before[0] in before;
      StopIsHeeded(before[1..], polls, later);
      assert all[1..] == before[1..] + [Round(true, polls)] + later;
      assert all[0] == before[0];
    }
  }

  lemma {:induction false} PollAllAppend(f: Feed, a: seq<Poll>, b: seq<Poll>, windowBars: nat)
    ensures PollAll(PollAll(f, a, windowBars), b, windowBars) == PollAll(f, a + b, windowBars)
  {
    hide PollOne;
    if b == [] {
      assert a + b == a;
    } else {
      PollAllAppend(f, a, b[..|b| - 1], windowBars);
      assert a + b == a + b[..|b| - 1] + [b[|b| - 1]];
      PollAllSnoc(f, a + b[..|b| - 1], b[|b| - 1], windowBars);
    }
  }

  lemma {:induction false} PollAllSnoc(f: Feed, polls: seq<Poll>, p: Poll, windowBars: nat)
    ensures PollAll(f, polls + [p], windowBars) == PollOne(PollAll(f, polls, windowBars), p, windowBars)
  {
  }

  /** Once stopped, nothing happens any more. */
  lemma {:induction false} StoppedStays(f: Feed, polls: seq<Poll>, later: seq<Poll>, windowBars: nat)
    requires PollAll(f, polls, windowBars).stopped
    ensures PollAll(f, polls + later, windowBars) == PollAll(f, polls, windowBars)
  {
    hide PollOne;
    if later == [] {
      assert polls + later == polls;
    } else {
      var n := |later| - 1;
      StoppedStays(f, polls, later[..n], windowBars);
      assert polls + later == polls + later[..n] + [later[n]];
      PollAllSnoc(f, polls + later[..n], later[n], windowBars);
      StoppedIsFixed(PollAll(f, polls, windowBars), later[n], windowBars);
    }
  }

  lemma {:induction false} StoppedIsFixed(f: Feed, p: Poll, windowBars: nat)
    requires f.stopped
    ensures PollOne(f, p, windowBars) == f
  {
  }

  // -------------------------------------------------------------------- main theorems

  /** A callback gets exactly `windowBars` consecutive, sane hourly candles that end at its bar. */
  ghost predicate Delivers(c: Callback, windowBars: nat) {
    && |c.window| == windowBars
    && Hourly(c.window) && (forall i :: 0 <= i < |c.window| ==> Sane(c.window[i]))
    && (windowBars > 0 ==> c.window[|c.window| - 1].ts == c.time)
  }

  ghost predicate Sound(f: Feed, windowBars: nat) {
    && (forall k :: 0 <= k < |f.calls| ==> Delivers(f.calls[k], windowBars))
    && (forall k :: 0 <= k < |f.calls| ==>
          f.calls[k].symbol in f.lastSeen && f.calls[k].time <= f.lastSeen[f.calls[k].symbol])
    && (forall j, k :: 0 <= j < k < |f.calls| && f.calls[j].symbol == f.calls[k].symbol ==>
              f.calls[j].time < f.calls[k].time)
  }

  lemma {:induction false} WindowDelivers(f: Fetch, symbol: Symbol, windowBars: nat)
    requires FetchClosed(f, windowBars).Window?
    ensures var cs := FetchClosed(f, windowBars).candles;
            cs != [] && Delivers(Callback(symbol, Tail(cs, windowBars), cs[|cs| - 1].ts), windowBars)
  {
    var cs := FetchClosed(f, windowBars).candles;
    ValidationIsExact(f.bars, f.now, cs);
    var window, k := Tail(cs, windowBars), |cs| - windowBars;
    forall i | 0 <= i < |window| ensures Sane(window[i]) && (i > 0 ==> window[i].ts - window[i - 1].ts == HOUR_MS) {
      assert window[i] == cs[k + i];
      if i > 0 {
        assert window[i - 1] == cs[k + i - 1];
      }
    }
  }

  lemma {:induction false} LoadKeepsSound(polls: seq<Poll>, windowBars: nat)
    ensures LoadAll(EMPTY, polls, windowBars).calls == [] && !LoadAll(EMPTY, polls, windowBars).stopped
  {
    if polls != [] {
      LoadKeepsSound(polls[..|polls| - 1], windowBars);
    }
  }

  lemma {:induction false} NewCallIsSound(f: Feed, g: Feed, c: Callback, windowBars: nat)
    requires Sound(f, windowBars) && Delivers(c, windowBars) && IsNew(f, c.symbol, c.time)
    requires g.lastSeen == f.lastSeen[c.symbol := c.time] && g.calls == f.calls + [c]
    ensures Sound(g, windowBars)
  {
  }

  lemma {:induction false} PollKeepsSound(f: Feed, p: Poll, windowBars: nat)
    requires Sound(f, windowBars)
    ensures Sound(PollOne(f, p, windowBars), windowBars)
  {
    hide Delivers, FetchClosed, Sound;
    var g := PollOne(f, p, windowBars);
    if g.calls != f.calls {
      var cs := FetchClosed(p.fetch, windowBars).candles;
      WindowDelivers(p.fetch, p.symbol, windowBars);
      NewCallIsSound(f, g, Callback(p.symbol, Tail(cs, windowBars), cs[|cs| - 1].ts), windowBars);
    } else {
      QuietPoll(f, p, windowBars);
      SameSound(f, g, windowBars);
    }
  }

  lemma {:induction false} QuietPoll(f: Feed, p: Poll, windowBars: nat)
    requires PollOne(f, p, windowBars).calls == f.calls
    ensures PollOne(f, p, windowBars).lastSeen == f.lastSeen
  {
  }

  lemma {:induction false} SameSound(f: Feed, g: Feed, windowBars: nat)
    requires Sound(f, windowBars) && g.calls == f.calls && g.lastSeen == f.lastSeen
    ensures Sound(g, windowBars)
  {
  }

  /** Over every schedule: the callbacks get trustworthy windows, and per symbol their bar times
      strictly increase. */
  lemma {:induction false} EveryCallbackIsSound(initial: seq<Poll>, polls: seq<Poll>, windowBars: nat)
    ensures Sound(PollAll(LoadAll(EMPTY, initial, windowBars), polls, windowBars), windowBars)
  {
    hide PollOne;
    if polls == [] {
      LoadKeepsSound(initial, windowBars);
    } else {
      EveryCallbackIsSound(initial, polls[..|polls| - 1], windowBars);
      PollKeepsSound(PollAll(LoadAll(EMPTY, initial, windowBars), polls[..|polls| - 1], windowBars),
                     polls[|polls| - 1], windowBars);
    }
  }

  /** After the first trust violation inside the loop no callback for any symbol follows: none at all
      when the fetch finds it, none after the one that raises it otherwise. */
  lemma {:induction false} NoCallbackAfterDistrust(initial: seq<Poll>, polls: seq<Poll>, k: nat, windowBars: nat)
    requires k < |polls|
    ensures var before := PollAll(LoadAll(EMPTY, initial, windowBars), polls[..k], windowBars).calls;
            var reached := PollAll(LoadAll(EMPTY, initial, windowBars), polls[..k + 1], windowBars).calls;
            var calls := PollAll(LoadAll(EMPTY, initial, windowBars), polls, windowBars).calls;
            && (FetchClosed(polls[k].fetch, windowBars).Distrusted? ==> calls == before)
            && (reached != before && polls[k].reaction.RaisesTrust? ==> |reached| == |before| + 1 && calls == reached)
  {
    var f := LoadAll(EMPTY, initial, windowBars);
    assert polls[..k + 1] == polls[..k] + [polls[k]];
    PollAllSnoc(f, polls[..k], polls[k], windowBars);
    if PollAll(f, polls[..k + 1], windowBars).stopped {
      StoppedStays(f, polls[..k + 1], polls[k + 1..], windowBars);
      assert polls[..k + 1] + polls[k + 1..] == polls;
    }
  }

  /** The candles the feed knows for a symbol: those it loaded last, then each newer window. */
  function Known(initial: seq<Poll>, polls: seq<Poll>, symbol: Symbol, windowBars: nat): (r: Option<seq<Candle>>)
    ensures r.Some? ==> r.value != []
  {
    if polls == [] then Loaded(initial, symbol, windowBars)
    else
      var front, p := Known(initial, polls[..|polls| - 1], symbol, windowBars), polls[|polls| - 1];
      if p.symbol != symbol then front
      else
        match FetchClosed(p.fetch, windowBars)
        case Window(cs) => if Newer(cs, front) then Some(cs) else front
        case _ => front
  }

  function Loaded(initial: seq<Poll>, symbol: Symbol, windowBars: nat): (r: Option<seq<Candle>>)
    ensures r.Some? ==> r.value != []
  {
    if initial == [] then None
    else
      var front, p := Loaded(initial[..|initial| - 1], symbol, windowBars), initial[|initial| - 1];
      if p.symbol != symbol then front
      else
        match FetchClosed(p.fetch, windowBars)
        case Window(cs) => Some(cs)
        case _ => front
  }

  predicate Newer(cs: seq<Candle>, known: Option<seq<Candle>>)
    requires cs != [] && (known.Some? ==> known.value != [])
  {
    known.Some? ==> cs[|cs| - 1].ts > known.value[|known.value| - 1].ts
  }

  /** Poll k, if it is reached, brings a bar that is new. */
  predicate IsFresh(initial: seq<Poll>, polls: seq<Poll>, k: nat, windowBars: nat)
    requires k < |polls|
  {
    match FetchClosed(polls[k].fetch, windowBars)
    case Window(cs) => Newer(cs, Known(initial, polls[..k], polls[k].symbol, windowBars))
    case _ => false
  }

  /** Poll k, if it is reached, ends the loop: its bars cannot be trusted, or its new bar makes the
      callback raise a trust error. */
  ghost predicate Ends(initial: seq<Poll>, polls: seq<Poll>, k: nat, windowBars: nat)
    requires k < |polls|
  {
    || FetchClosed(polls[k].fetch, windowBars).Distrusted?
    || (IsFresh(initial, polls, k, windowBars) && polls[k].reaction.RaisesTrust?)
  }

  /** The feed's last hour and window of a symbol are those of the candles it knows. */
  ghost predicate KnowsOf(f: Feed, s: Symbol, known: Option<seq<Candle>>, windowBars: nat)
    requires known.Some? ==> known.value != []
  {
    match known
    case None => s !in f.lastSeen && s !in f.warm
    case Some(cs) =>
      && s in f.lastSeen && f.lastSeen[s] == cs[|cs| - 1].ts
      && s in f.warm && f.warm[s] == Tail(cs, windowBars)
  }

  /** While the loop runs the feed holds what the schedule says. */
  ghost predicate Knows(f: Feed, initial: seq<Poll>, polls: seq<Poll>, windowBars: nat) {
    forall s :: KnowsOf(f, s, Known(initial, polls, s, windowBars), windowBars)
  }

  lemma {:induction false} LoadKnows(initial: seq<Poll>, windowBars: nat)
    ensures Knows(LoadAll(EMPTY, initial, windowBars), initial, [], windowBars)
  {
    hide FetchClosed;
    if initial != [] {
      hide KnowsOf, Load, Loaded;
      var n := |initial| - 1;
      LoadKnows(initial[..n], windowBars);
      var f := LoadAll(EMPTY, initial[..n], windowBars);
      forall s ensures KnowsOf(LoadAll(EMPTY, initial, windowBars), s, Known(initial, [], s, windowBars), windowBars) {
        assert KnowsOf(f, s, Known(initial[..n], [], s, windowBars), windowBars);
        OneLoadKnows(f, initial, s, windowBars);
      }
    }
  }

  lemma {:induction false} OneLoadKnows(f: Feed, initial: seq<Poll>, s: Symbol, windowBars: nat)
    requires initial != []
    requires KnowsOf(f, s, Loaded(initial[..|initial| - 1], s, windowBars), windowBars)
    ensures KnowsOf(Load(f, initial[|initial| - 1], windowBars), s, Loaded(initial, s, windowBars), windowBars)
  {
    hide FetchClosed;
  }

  /** One poll of a running loop. */
  lemma {:induction false} PollIs(f: Feed, initial: seq<Poll>, front: seq<Poll>, p: Poll, windowBars: nat)
    requires !f.stopped && Knows(f, initial, front, windowBars)
    ensures var polls, g := front + [p], PollOne(f, p, windowBars);
            && (g.stopped <==> Ends(initial, polls, |front|, windowBars))
            && Knows(g, initial, polls, windowBars)
            && g.calls == if IsFresh(initial, polls, |front|, windowBars) then
                 var cs := FetchClosed(p.fetch, windowBars).candles;
                 f.calls + [Callback(p.symbol, Tail(cs, windowBars), cs[|cs| - 1].ts)]
               else f.calls
  {
    var polls, g := front + [p], PollOne(f, p, windowBars);
    assert polls[..|front|] == front && polls[|front|] == p;
    forall s ensures KnowsOf(g, s, Known(initial, polls, s, windowBars), windowBars) {
      assert KnowsOf(f, s, Known(initial, front, s, windowBars), windowBars);
    }
    assert KnowsOf(f, p.symbol, Known(initial, front, p.symbol, windowBars), windowBars);
  }

  lemma {:induction false} EndsEarlier(initial: seq<Poll>, front: seq<Poll>, p: Poll, k: nat, windowBars: nat)
    requires k < |front|
    ensures Ends(initial, front + [p], k, windowBars) <==> Ends(initial, front, k, windowBars)
  {
    assert (front + [p])[..k] == front[..k];
  }

  /** Over every schedule the loop has stopped if and only if some poll ended it; until then it knows
      what the schedule says. */
  lemma {:induction false} StopsOnlyOnDistrust(initial: seq<Poll>, polls: seq<Poll>, windowBars: nat)
    ensures var f := PollAll(LoadAll(EMPTY, initial, windowBars), polls, windowBars);
            && (f.stopped <==> exists k :: 0 <= k < |polls| && Ends(initial, polls, k, windowBars))
            && (f.stopped || Knows(f, initial, polls, windowBars))
  {
    hide PollOne, Knows, Ends;
    if polls == [] {
      LoadKeepsSound(initial, windowBars);
      LoadKnows(initial, windowBars);
    } else {
      var n := |polls| - 1;
      var front, p := polls[..n], polls[n];
      assert polls == front + [p];
      StopsOnlyOnDistrust(initial, front, windowBars);
      forall k | 0 <= k < n ensures Ends(initial, polls, k, windowBars) <==> Ends(initial, front, k, windowBars) {
        EndsEarlier(initial, front, p, k, windowBars);
      }
      var f := PollAll(LoadAll(EMPTY, initial, windowBars), front, windowBars);
      if f.stopped {
        StoppedIsFixed(f, p, windowBars);
        var k :| 0 <= k < n && Ends(initial, front, k, windowBars);
        assert Ends(initial, polls, k, windowBars);
      } else {
        PollIs(f, initial, front, p, windowBars);
      }
    }
  }

  /** As long as nothing in the schedule ended the loop, the next poll is delivered exactly if it
      brings an accepted window that is newer than all known for its symbol. */
  lemma {:induction false} NewBarsAreDelivered(initial: seq<Poll>, polls: seq<Poll>, p: Poll, windowBars: nat)
    requires forall k :: 0 <= k < |polls| ==> !Ends(initial, polls, k, windowBars)
    ensures var f := PollAll(LoadAll(EMPTY, initial, windowBars), polls, windowBars);
            var known := Known(initial, polls, p.symbol, windowBars);
            PollAll(LoadAll(EMPTY, initial, windowBars), polls + [p], windowBars).calls ==
            match FetchClosed(p.fetch, windowBars)
            case Window(cs) =>
              if Newer(cs, known) then
                f.calls + [Callback(p.symbol, Tail(cs, windowBars), cs[|cs| - 1].ts)]
              else f.calls
            case _ => f.calls
  {
    hide PollOne, Knows, Ends;
    var f := PollAll(LoadAll(EMPTY, initial, windowBars), polls, windowBars);
    StopsOnlyOnDistrust(initial, polls, windowBars);
    PollAllSnoc(LoadAll(EMPTY, initial, windowBars), polls, p, windowBars);
    PollIs(f, initial, polls, p, windowBars);
    assert (polls + [p])[..|polls|] == polls;
  }

  /** What a fetch comes to: a window exactly if the exchange answered with bars whose closed part can
      be trusted and is long enough; no answer is no distrust. */
  lemma {:induction false} FetchIsExact(f: Fetch, windowBars: nat)
    ensures forall cs :: FetchClosed(f, windowBars) == Window(cs) <==>
              f.Answer? && ClosedPart(f.bars, f.now, cs) && Trustworthy(cs, f.now) && |cs| >= windowBars && cs != []
    ensures FetchClosed(f, windowBars).Distrusted? <==>
            f.Answer? && forall cs :: ClosedPart(f.bars, f.now, cs) && Trustworthy(cs, f.now) ==> |cs| < windowBars
  {
    hide Validate, ClosedPart, Trustworthy;
    if f.Answer? {
      forall cs ensures Validate(f.bars, f.now) == Ok(cs) <==>
                        ClosedPart(f.bars, f.now, cs) && Trustworthy(cs, f.now)
      {
        ValidationIsExact(f.bars, f.now, cs);
      }
      if Validate(f.bars, f.now).Ok? {
        var cs := Validate(f.bars, f.now).value;
        assert ClosedPart(f.bars, f.now, cs) && Trustworthy(cs, f.now);
      }
    }
  }
}
