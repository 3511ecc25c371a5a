/** When can dry runs change the verdict of the health check? The verdict looks at nothing but the
    last execution run, so a fallback that ends some other run does no harm by itself: this module
    finds the exact conditions. */
module DryRunVerdicts {
  import opened Wrappers
  import opened LiveAudit
  import opened DryRuns
  import opened OrphanTerminals

  // ------------------------------------------------------------- one run, step by step

  /** The run at i can still be ended. */
  predicate Reach(l: Ledger, i: nat) {
    i < |l.runs| && l.runs[i].pid in l.open && LastIndex(l.runs, l.runs[i].pid) == i
  }

  /** This event ends the run at i. */
  predicate Hits(l: Ledger, e: Event, i: nat) {
    Reach(l, i) && e.name != RunStarted && IsTerminal(e) && Target(l.open, e.pid) == Some(l.runs[i].pid)
  }

  lemma {:induction false} StepReach(l: Ledger, e: Event, i: nat)
    requires Coherent(l) && i < |l.runs|
    ensures var r := Step(l, e);
            && i < |r.runs|
            && r.runs[i] == (if Hits(l, e, i) then l.runs[i].(terminal := Some(e)) else l.runs[i])
            && (Reach(r, i) <==> Reach(l, i) && !Hits(l, e, i) && !(e.name == RunStarted && e.pid == l.runs[i].pid))
  {
    var r, p := Step(l, e), l.runs[i].pid;
    StepAt(l, e, i);
    if e.name == RunStarted {
      LastIndexSnoc(l.runs, Run(e.pid, e.ts, Executes(e), None), p);
      LastIndexAtLeast(l.runs, p, i);
    } else if IsTerminal(e) && Target(l.open, e.pid).Some? {
      var q := Target(l.open, e.pid).value;
      CloseLastAt(l.runs, q, e);
      RemoveMembers(l.open, q);
      LastIndexSame(l.runs, r.runs, p);
    }
  }

  lemma {:induction false} StepNone(l: Ledger, e: Event)
    ensures None in Step(l, e).open <==>
            (e.name == RunStarted && e.pid.None?) ||
                (None in l.open && !(e.name != RunStarted && IsTerminal(e) && e.pid.None?))
  {
    if e.name != RunStarted && IsTerminal(e) && Target(l.open, e.pid).Some? {
      RemoveMembers(l.open, Target(l.open, e.pid).value);
    }
  }

  // ------------------------------------------ the same run, with and without dry runs

  /** The key None is open in both. */
  ghost predicate SameNone(l: Ledger, m: Ledger) {
    None in l.open <==> None in m.open
  }

  /** The run at i of l and the run at j of m are the same and can be ended alike. */
  ghost predicate SameRun(l: Ledger, i: nat, m: Ledger, j: nat) {
    && Coherent(l) && Coherent(m) && i < |l.runs| && j < |m.runs|
    && l.runs[i] == m.runs[j]
    && (Reach(l, i) <==> Reach(m, j))
  }

  /** A fallback that does not end the run at i. */
  predicate Harmless(l: Ledger, e: Event, i: nat) {
    Orphan(l, e) ==> !Hits(l, e, i)
  }

  lemma {:induction false} BothStep(l: Ledger, i: nat, m: Ledger, j: nat, e: Event)
    requires SameRun(l, i, m, j) && SameNone(l, m)
    requires Harmless(l, e, i) && Harmless(m, e, j)
    ensures SameRun(Step(l, e), i, Step(m, e), j)
  {
    StepReach(l, e, i);
    StepReach(m, e, j);
    StepIsCoherent(l, e);
    StepIsCoherent(m, e);
  }

  lemma {:induction false} DryStep(l: Ledger, i: nat, m: Ledger, j: nat, e: Event)
    requires SameRun(l, i, m, j) && e.pid.Some? && e.pid != l.runs[i].pid
    ensures SameRun(l, i, Step(m, e), j)
  {
    StepReach(m, e, j);
    StepIsCoherent(m, e);
  }

  lemma {:induction false} NoneProjects(full: seq<Event>, dry: set<Pid>)
    requires None !in dry
    ensures SameNone(Pair(KeepEvents(full, dry)), Pair(full))
  {
    if full != [] {
      var front, e := full[..|full| - 1], full[|full| - 1];
      NoneProjects(front, dry);
      assert full == front + [e];
      KeepEventsSnoc(front, e, dry);
      StepNone(Pair(front), e);
      StepNone(Pair(KeepEvents(front, dry)), e);
      PairLast(front, e);
      PairLast(KeepEvents(front, dry), e);
    }
  }

  lemma {:induction false} PairLast(log: seq<Event>, e: Event)
    ensures Pair(log + [e]) == Step(Pair(log), e)
  {
    assert (log + [e])[..|log|] == log;
  }

  /** A start opens a run that can be ended, in both logs. */
  lemma {:induction false} BothStart(l: Ledger, m: Ledger, s: Event)
    requires Coherent(l) && Coherent(m) && s.name == RunStarted
    ensures SameRun(Step(l, s), |l.runs|, Step(m, s), |m.runs|)
  {
    StepIsCoherent(l, s);
    StepIsCoherent(m, s);
    LastIndexSnoc(l.runs, Run(s.pid, s.ts, Executes(s), None), s.pid);
    LastIndexSnoc(m.runs, Run(s.pid, s.ts, Executes(s), None), s.pid);
  }

  /** No fallback, with these dry runs or without, ends the run that s starts before b is over. */
  ghost predicate Unharmed(a: seq<Event>, s: Event, b: seq<Event>) {
    forall k :: 0 <= k < |b| ==> Harmless(Pair(a + [s] + b[..k]), b[k], |Pair(a).runs|)
  }

  lemma {:induction false} UnharmedFront(a: seq<Event>, s: Event, b: seq<Event>)
    requires b != [] && Unharmed(a, s, b)
    ensures Unharmed(a, s, b[..|b| - 1]) && Harmless(Pair(a + [s] + b[..|b| - 1]), b[|b| - 1], |Pair(a).runs|)
  {
    var front := b[..|b| - 1];
    forall k | 0 <= k < |front| ensures Harmless(Pair(a + [s] + front[..k]), front[k], |Pair(a).runs|) {
      assert front[..k] == b[..k] && front[k] == b[k];
    }
  }

  /** The run that s starts fares the same in the log with the dry runs and in the log without. */
  ghost predicate Shared(a: seq<Event>, s: Event, b: seq<Event>, dry: set<Pid>) {
    var l, m := Pair(KeepEvents(a, dry) + [s] + KeepEvents(b, dry)), Pair(a + [s] + b);
    var i, j := |Pair(KeepEvents(a, dry)).runs|, |Pair(a).runs|;
    SameRun(l, i, m, j) && l.runs[i].pid == s.pid
  }

  lemma {:induction false} SharedAtStart(a: seq<Event>, s: Event, dry: set<Pid>)
    requires s.name == RunStarted
    ensures Shared(a, s, [], dry)
  {
    var kept := KeepEvents(a, dry);
    PairIsCoherent(a);
    PairIsCoherent(kept);
    BothStart(Pair(kept), Pair(a), s);
    PairLast(a, s);
    PairLast(kept, s);
    assert a + [s] + [] == a + [s] && kept + [s] + [] == kept + [s];
    assert KeepEvents([], dry) == [];
  }

  lemma {:induction false} StartKeepsPid(log: seq<Event>, s: Event)
    requires s.name == RunStarted
    ensures Pair(log + [s]).runs == Pair(log).runs + [Run(s.pid, s.ts, Executes(s), None)]
  {
    PairLast(log, s);
  }

  lemma {:induction false} SharedByDry(a: seq<Event>, s: Event, front: seq<Event>, e: Event, dry: set<Pid>)
    requires None !in dry && s.pid !in dry && e.pid in dry && Shared(a, s, front, dry)
    ensures Shared(a, s, front + [e], dry)
  {
    hide Pair, KeepEvents, SameRun;
    KeepEventsSnoc(front, e, dry);
    assert a + [s] + (front + [e]) == a + [s] + front + [e];
    PairLast(a + [s] + front, e);
    DryStep(Pair(KeepEvents(a, dry) + [s] + KeepEvents(front, dry)), |Pair(KeepEvents(a, dry)).runs|,
            Pair(a + [s] + front), |Pair(a).runs|, e);
  }

  lemma {:induction false} SharedByBoth(a: seq<Event>, s: Event, front: seq<Event>, e: Event, dry: set<Pid>)
    requires None !in dry && s.pid !in dry && e.pid !in dry && Shared(a, s, front, dry)
    requires Harmless(Pair(a + [s] + front), e, |Pair(a).runs|)
    requires Harmless(Pair(KeepEvents(a, dry) + [s] + KeepEvents(front, dry)), e, |Pair(KeepEvents(a, dry)).runs|)
    ensures Shared(a, s, front + [e], dry)
  {
    var base, kept := KeepEvents(a, dry), KeepEvents(front, dry);
    var l, i, m, j := Pair(base + [s] + kept), |Pair(base).runs|, Pair(a + [s] + front), |Pair(a).runs|;
    KeepEventsSnoc(front, e, dry);
    KeepEventsAppend(a + [s], front, dry);
    KeepEventsSnoc(a, s, dry);
    hide Pair, KeepEvents, Harmless;
    NoneProjects(a + [s] + front, dry);
    assert a + [s] + (front + [e]) == a + [s] + front + [e];
    assert base + [s] + (kept + [e]) == base + [s] + kept + [e];
    PairLast(a + [s] + front, e);
    PairLast(base + [s] + kept, e);
    BothStep(l, i, m, j, e);
    StepReach(l, e, i);
  }

  lemma {:induction false} RunIsShared(a: seq<Event>, s: Event, b: seq<Event>, dry: set<Pid>)
    requires None !in dry && s.name == RunStarted && s.pid !in dry
    requires Unharmed(a, s, b) && Unharmed(KeepEvents(a, dry), s, KeepEvents(b, dry))
    ensures Shared(a, s, b, dry)
  {
    hide Shared, Unharmed, Harmless;
    if b == [] {
      SharedAtStart(a, s, dry);
    } else {
      var front, e := b[..|b| - 1], b[|b| - 1];
      assert b == front + [e];
      KeepEventsSnoc(front, e, dry);
      UnharmedFront(a, s, b);
      if e.pid in dry {
        RunIsShared(a, s, front, dry);
        SharedByDry(a, s, front, e, dry);
      } else {
        var kept := KeepEvents(front, dry);
        assert (kept + [e])[..|kept|] == kept;
        UnharmedFront(KeepEvents(a, dry), s, kept + [e]);
        RunIsShared(a, s, front, dry);
        SharedByBoth(a, s, front, e, dry);
      }
    }
  }

  // -------------------------------------------------------------- what the verdict sees

  predicate DryStart(s: Event) {
    s.name == RunStarted && !Executes(s)
  }

  predicate ExecutionStart(s: Event) {
    s.name == RunStarted && Executes(s)
  }

  lemma {:induction false} DryPidsAreLogged(log: seq<Event>, p: Pid)
    ensures p in DryPids(Pair(log).runs) <==> exists s :: s in log && DryStart(s) && s.pid == p
  {
    DryPidsOf(Pair(log).runs, p);
    if p in DryPids(Pair(log).runs) {
      RunsAreWitnessed(log);
      var r :| r in Pair(log).runs && !r.execute && r.pid == p;
      var s :| StartOf(log, r, s);
      assert DryStart(s);
    }
    if s :| s in log && DryStart(s) && s.pid == p {
      StartsAreRecorded(log);
      assert Recorded(Pair(log).runs, s);
    }
  }

  /** The critical names never depend on dry runs. */
  lemma {:induction false} CriticalsAgree(full: seq<Event>, dry: set<Pid>, since: real, until: real)
    requires DryTraffic(full, dry)
    ensures CriticalEvents(full, since, until) == CriticalEvents(KeepEvents(full, dry), since, until)
  {
    hide Pair;
    var kept := KeepEvents(full, dry);
    KeepEventsMembers(full, dry);
    forall e | e in full && e.pid in dry && IsCritical(e) ensures e.pid in DryPids(Pair(full).runs) {
      DryCriticalsAreExcused(full, dry, e);
    }
    forall e | e in full && e.pid !in dry
      ensures e.pid in DryPids(Pair(full).runs) <==> e.pid in DryPids(Pair(kept).runs)
    {
      DryPidsAreLogged(full, e.pid);
      DryPidsAreLogged(kept, e.pid);
    }
    SelectionProjects(full, dry, DryPids(Pair(full).runs), DryPids(Pair(kept).runs), since, until);
  }

  /** Later starts open later runs, and no step changes what a run is. */
  lemma {:induction false} LaterRunsAreDry(a: seq<Event>, b: seq<Event>)
    requires forall e :: e in b ==> !ExecutionStart(e)
    ensures var l, m := Pair(a), Pair(a + b);
            && |l.runs| <= |m.runs|
            && (forall i :: 0 <= i < |l.runs| ==> m.runs[i].(terminal := None) == l.runs[i].(terminal := None))
            && (forall i :: |l.runs| <= i < |m.runs| ==> !m.runs[i].execute)
  {
    if b == [] {
      assert a + b == a;
    } else {
      var front, e := b[..|b| - 1], b[|b| - 1];
      LaterRunsAreDry(a, front);
      PairAppend(a, b);
      StepKeepsIdentity(Pair(a + front), e);
      assert e in b;
    }
  }

  lemma {:induction false} StepKeepsIdentity(l: Ledger, e: Event)
    ensures var r := Step(l, e);
            && |l.runs| <= |r.runs| <= |l.runs| + 1
            && (forall i :: 0 <= i < |l.runs| ==> r.runs[i].(terminal := None) == l.runs[i].(terminal := None))
            && (|l.runs| < |r.runs| ==> e.name == RunStarted && r.runs[|l.runs|] == Run(e.pid, e.ts, Executes(e), None))
  {
    if e.name != RunStarted && IsTerminal(e) && Target(l.open, e.pid).Some? {
      CloseLastKeepsIdentity(l.runs, Target(l.open, e.pid).value, e);
    }
  }

  lemma {:induction false} LastExecutionIs(runs: seq<Run>, i: nat)
    requires i < |runs| && runs[i].execute && forall j :: i < j < |runs| ==> !runs[j].execute
    ensures var x := Executions(runs); x != [] && x[|x| - 1] == runs[i]
  {
    if i < |runs| - 1 {
      LastExecutionIs(runs[..|runs| - 1], i);
    }
  }

  lemma {:induction false} RunsGrow(a: seq<Event>, b: seq<Event>)
    ensures |Pair(a).runs| <= |Pair(a + b).runs|
  {
    if b == [] {
      assert a + b == a;
    } else {
      RunsGrow(a, b[..|b| - 1]);
      PairAppend(a, b);
      StepKeepsIdentity(Pair(a + b[..|b| - 1]), b[|b| - 1]);
    }
  }

  /** The run that s starts, once b is over. */
  ghost function RunOf(a: seq<Event>, s: Event, b: seq<Event>): Run
    requires s.name == RunStarted
  {
    StartKeepsPid(a, s);
    RunsGrow(a + [s], b);
    Pair(a + [s] + b).runs[|Pair(a).runs|]
  }

  /** The run of the last execution start is what the check judges. */
  lemma {:induction false} JudgedRun(a: seq<Event>, s: Event, b: seq<Event>)
    requires ExecutionStart(s) && forall e :: e in b ==> !ExecutionStart(e)
    ensures var x := Executions(Pair(a + [s] + b).runs);
            && x != [] && x[|x| - 1] == RunOf(a, s, b)
            && RunOf(a, s, b).(terminal := None) == Run(s.pid, s.ts, true, None)
  {
    StartKeepsPid(a, s);
    LaterRunsAreDry(a + [s], b);
    hide Pair, Executions;
    var runs, i := Pair(a + [s] + b).runs, |Pair(a).runs|;
    assert runs[i].(terminal := None) == Run(s.pid, s.ts, true, None);
    LastExecutionIs(runs, i);
  }

  /** What the check reads off a run. */
  ghost predicate LooksAlike(x: Run, y: Run) {
    && x.pid == y.pid && x.started == y.started
    && (x.terminal.Some? <==> y.terminal.Some?)
    && LastActivity(x) == LastActivity(y)
  }

  lemma {:induction false} JudgementsAgree(x: Evidence, y: Evidence, c: Check)
    requires x.critical == y.critical
    requires x.latest.ts > c.now + FUTURE_TOLERANCE <==> y.latest.ts > c.now + FUTURE_TOLERANCE
    requires x.executions == [] <==> y.executions == []
    requires x.executions != [] ==> LooksAlike(x.executions[|x.executions| - 1], y.executions[|y.executions| - 1])
    ensures SameJudgement(Judge(x, c), Judge(y, c))
  {
  }

  lemma {:induction false} SplitLast(kept: seq<Event>, e: Event, a: seq<Event>, s: Event, b: seq<Event>)
    requires kept + [e] == a + [s] + b
    ensures if b == [] then e == s && kept == a else e == b[|b| - 1] && kept == a + [s] + b[..|b| - 1]
  {
    var whole := kept + [e];
    assert whole[|whole| - 1] == e && whole[..|whole| - 1] == kept;
    if b == [] {
      assert whole == a + [s];
      assert (a + [s])[..|a|] == a;
    } else {
      assert (a + [s] + b)[..|whole| - 1] == a + [s] + b[..|b| - 1];
    }
  }

  lemma {:induction false} SplitGrows(full: seq<Event>, x: seq<Event>, s: Event, y: seq<Event>, e: Event)
    requires full != [] && full[|full| - 1] == e && full[..|full| - 1] == x + [s] + y
    ensures full == x + [s] + (y + [e])
  {
    assert full == full[..|full| - 1] + [e];
  }

  /** Split the longer log at the start that splits the shorter one. */
  lemma {:induction false} SplitFull(full: seq<Event>, dry: set<Pid>, a: seq<Event>, s: Event, b: seq<Event>)
      returns (x: seq<Event>, y: seq<Event>)
    requires KeepEvents(full, dry) == a + [s] + b
    ensures full == x + [s] + y && KeepEvents(x, dry) == a && KeepEvents(y, dry) == b
  {
    assert full != [] by {
      assert (a + [s] + b)[|a|] == s;
    }
    var front, e := full[..|full| - 1], full[|full| - 1];
    assert full == front + [e];
    KeepEventsSnoc(front, e, dry);
    if e.pid !in dry {
      SplitLast(KeepEvents(front, dry), e, a, s, b);
    }
    if e.pid !in dry && b == [] {
      x, y := front, [];
      assert full == front + [s] + [];
    } else {
      var rest := if e.pid in dry then b else b[..|b| - 1];
      hide KeepEvents;
      x, y := SplitFull(front, dry, a, s, rest);
      KeepEventsSnoc(y, e, dry);
      SplitGrows(full, x, s, y, e);
      y := y + [e];
    }
  }

  // ---------------------------------------------------------------------- guard (a)

  /** Where the last execution run of a log starts. */
  ghost predicate SplitsAt(log: seq<Event>, n: nat) {
    n < |log| && ExecutionStart(log[n]) && forall j :: n < j < |log| ==> !ExecutionStart(log[j])
  }

  /** While the last execution run can still be ended, no terminal without pid falls back. */
  ghost predicate QuietWhileOpen(log: seq<Event>) {
    forall n: nat, k: nat :: SplitsAt(log, n) && n < k < |log| ==> QuietAt(log, n, k)
  }

  ghost predicate QuietAt(log: seq<Event>, n: nat, k: nat)
    requires n < k < |log|
  {
    Reach(Pair(log[..k]), |Pair(log[..n]).runs|) ==> !Orphan(Pair(log[..k]), log[k])
  }

  lemma {:induction false} Positions(log: seq<Event>, n: nat, k: nat)
    requires n < |log| && k <= |log| - n - 1
    ensures var b := log[n + 1..];
            log[..n] + [log[n]] + b[..k] == log[..n + 1 + k] && (k < |b| ==> b[k] == log[n + 1 + k])
  {
  }

  lemma {:induction false} NoExecutionAfter(full: seq<Event>, dry: set<Pid>, y: seq<Event>)
    requires DryTraffic(full, dry) && forall e :: e in y ==> e in full
    requires forall e :: e in KeepEvents(y, dry) ==> !ExecutionStart(e)
    ensures forall e :: e in y ==> !ExecutionStart(e)
  {
    KeepEventsMembers(y, dry);
  }

  lemma {:induction false} GatherOf(log: seq<Event>, c: Check)
    requires log != []
    ensures Gather(log, c).latest == log[|log| - 1]
    ensures Gather(log, c).critical == CriticalEvents(log, c.now - c.lookback, c.now)
    ensures Gather(log, c).executions == Executions(Pair(log).runs)
  {
  }

  lemma {:induction false} JudgedAlike(x: seq<Event>, s: Event, y: seq<Event>, a: seq<Event>, b: seq<Event>)
    requires ExecutionStart(s)
    requires (forall e :: e in y ==> !ExecutionStart(e)) && forall e :: e in b ==> !ExecutionStart(e)
    requires LooksAlike(RunOf(x, s, y), RunOf(a, s, b))
    ensures var p, q := Executions(Pair(x + [s] + y).runs), Executions(Pair(a + [s] + b).runs);
            p != [] && q != [] && LooksAlike(p[|p| - 1], q[|q| - 1])
  {
    hide Pair, Executions, RunOf, LooksAlike;
    JudgedRun(x, s, y);
    JudgedRun(a, s, b);
  }

  /** Everything but the judged run is the same. */
  lemma {:induction false} SurroundingsAgree(full: seq<Event>, kept: seq<Event>, dry: set<Pid>, c: Check)
    requires IsSorted(full) && DryTraffic(full, dry) && KeepEvents(full, dry) == kept && kept != []
    requires forall e :: e in full && e.pid in dry ==> e.ts <= c.now + FUTURE_TOLERANCE
    ensures full != []
    ensures Gather(full, c).critical == Gather(kept, c).critical
    ensures Gather(full, c).latest.ts > c.now + FUTURE_TOLERANCE <==>
            Gather(kept, c).latest.ts > c.now + FUTURE_TOLERANCE
  {
    hide Pair, KeepEvents, Executions, CriticalEvents, DryTraffic, Gather;
    LatestProjects(full, dry, c.now + FUTURE_TOLERANCE);
    CriticalsAgree(full, dry, c.now - c.lookback, c.now);
    GatherOf(full, c);
    GatherOf(kept, c);
  }

  /** An execution run that looks alike in both logs gets the same verdict. */
  lemma {:induction false} VerdictsAgree(full: seq<Event>, kept: seq<Event>, dry: set<Pid>, c: Check, x: seq<Event>,
                                         s: Event, y: seq<Event>, a: seq<Event>, b: seq<Event>)
    requires IsSorted(full) && DryTraffic(full, dry) && KeepEvents(full, dry) == kept
    requires full == x + [s] + y && kept == a + [s] + b && KeepEvents(y, dry) == b
    requires ExecutionStart(s) && forall e :: e in b ==> !ExecutionStart(e)
    requires forall e :: e in full && e.pid in dry ==> e.ts <= c.now + FUTURE_TOLERANCE
    requires LooksAlike(RunOf(x, s, y), RunOf(a, s, b))
    ensures SameJudgement(Judge(Gather(full, c), c), Judge(Gather(kept, c), c))
  {
    assert kept[|a|] == s && full[|x|] == s;
    NoExecutionAfter(full, dry, y);
    hide Pair, KeepEvents, Executions, DryTraffic, RunOf, LooksAlike, Judge, SameJudgement, Gather, IsSorted;
    SurroundingsAgree(full, kept, dry, c);
    JudgedAlike(x, s, y, a, b);
    GatherOf(full, c);
    GatherOf(kept, c);
    JudgementsAgree(Gather(full, c), Gather(kept, c), c);
  }

  /** The same about the run that s starts, while b goes on. */
  ghost predicate QuietRun(a: seq<Event>, s: Event, b: seq<Event>) {
    forall k :: 0 <= k < |b| ==> QuietStep(Pair(a + [s] + b[..k]), b[k], |Pair(a).runs|)
  }

  predicate QuietStep(l: Ledger, e: Event, i: nat) {
    Reach(l, i) ==> !Orphan(l, e)
  }

  lemma {:induction false} QuietFront(a: seq<Event>, s: Event, b: seq<Event>)
    requires b != [] && QuietRun(a, s, b)
    ensures QuietRun(a, s, b[..|b| - 1]) && QuietStep(Pair(a + [s] + b[..|b| - 1]), b[|b| - 1], |Pair(a).runs|)
  {
    var front := b[..|b| - 1];
    forall k | 0 <= k < |front| ensures QuietStep(Pair(a + [s] + front[..k]), front[k], |Pair(a).runs|) {
      assert front[..k] == b[..k] && front[k] == b[k];
    }
  }

  lemma {:induction false} QuietInBoth(l: Ledger, i: nat, m: Ledger, j: nat, e: Event)
    requires SameRun(l, i, m, j) && SameNone(l, m) && QuietStep(l, e, i)
    ensures Harmless(l, e, i) && Harmless(m, e, j)
  {
  }

  lemma {:induction false} QuietIsHarmless(a: seq<Event>, s: Event, front: seq<Event>, e: Event, dry: set<Pid>)
    requires None !in dry && s.pid !in dry && e.pid !in dry && Shared(a, s, front, dry)
    requires QuietStep(Pair(KeepEvents(a, dry) + [s] + KeepEvents(front, dry)), e, |Pair(KeepEvents(a, dry)).runs|)
    ensures Harmless(Pair(a + [s] + front), e, |Pair(a).runs|)
    ensures Harmless(Pair(KeepEvents(a, dry) + [s] + KeepEvents(front, dry)), e, |Pair(KeepEvents(a, dry)).runs|)
  {
    KeepEventsAppend(a + [s], front, dry);
    KeepEventsSnoc(a, s, dry);
    hide Pair, KeepEvents;
    NoneProjects(a + [s] + front, dry);
    QuietInBoth(Pair(KeepEvents(a, dry) + [s] + KeepEvents(front, dry)), |Pair(KeepEvents(a, dry)).runs|,
                Pair(a + [s] + front), |Pair(a).runs|, e);
  }

  /** A run during which no terminal falls back is shared. */
  lemma {:induction false} QuietIsShared(a: seq<Event>, s: Event, b: seq<Event>, dry: set<Pid>)
    requires None !in dry && s.name == RunStarted && s.pid !in dry
    requires QuietRun(KeepEvents(a, dry), s, KeepEvents(b, dry))
    ensures Shared(a, s, b, dry)
  {
    hide Shared, QuietRun, QuietStep, Harmless;
    if b == [] {
      SharedAtStart(a, s, dry);
    } else {
      var front, e := b[..|b| - 1], b[|b| - 1];
      assert b == front + [e];
      KeepEventsSnoc(front, e, dry);
      if e.pid in dry {
        QuietIsShared(a, s, front, dry);
        SharedByDry(a, s, front, e, dry);
      } else {
        var kept := KeepEvents(front, dry);
        assert (kept + [e])[..|kept|] == kept;
        QuietFront(KeepEvents(a, dry), s, kept + [e]);
        QuietIsShared(a, s, front, dry);
        QuietIsHarmless(a, s, front, e, dry);
        SharedByBoth(a, s, front, e, dry);
      }
    }
  }

  lemma {:induction false} QuietFrom(log: seq<Event>, n: nat)
    requires QuietWhileOpen(log) && SplitsAt(log, n)
    ensures QuietRun(log[..n], log[n], log[n + 1..])
  {
    hide Pair;
    var b := log[n + 1..];
    forall k | 0 <= k < |b| ensures QuietStep(Pair(log[..n] + [log[n]] + b[..k]), b[k], |Pair(log[..n]).runs|) {
      Positions(log, n, k);
      assert QuietAt(log, n, n + 1 + k);
    }
  }

  lemma {:induction false} SharedLooksAlike(x: seq<Event>, s: Event, y: seq<Event>, dry: set<Pid>)
    requires s.name == RunStarted && Shared(x, s, y, dry)
    ensures LooksAlike(RunOf(x, s, y), RunOf(KeepEvents(x, dry), s, KeepEvents(y, dry)))
  {
    hide Pair, KeepEvents;
  }

  lemma {:induction false} LastStart(log: seq<Event>) returns (n: Option<nat>)
    ensures n.None? ==> forall e :: e in log ==> !ExecutionStart(e)
    ensures n.Some? ==> SplitsAt(log, n.value)
  {
    n := None;
    if log != [] {
      var front, e := log[..|log| - 1], log[|log| - 1];
      n := LastStart(front);
      assert log == front + [e];
      if ExecutionStart(e) {
        n := Some(|front|);
      }
    }
  }

  /** Without an execution run the check fails, and dry runs are none. */
  lemma {:induction false} NoExecutionFails(full: seq<Event>, dry: set<Pid>, c: Check)
    requires full != [] && DryTraffic(full, dry) && forall e :: e in KeepEvents(full, dry) ==> !ExecutionStart(e)
    ensures Executions(Pair(full).runs) == [] && Judge(Gather(full, c), c).Err?
  {
    var runs := Pair(full).runs;
    KeepEventsMembers(full, dry);
    RunsAreWitnessed(full);
    forall r | r in runs ensures !r.execute {
      var s :| StartOf(full, r, s);
      assert s in full && !ExecutionStart(s);
    }
    ExecutionsMembers(runs);
    assert Executions(runs) == [] || Executions(runs)[0] in Executions(runs);
  }

  /** What both theorems need: in sorted logs the last execution run looks alike with these dry runs
      and without. */
  ghost predicate AlikeIn(full: seq<Event>, dry: set<Pid>) {
    forall x, s, y ::
      full == x + [s] + y && ExecutionStart(s) && s.pid !in dry &&
          (forall e :: e in KeepEvents(y, dry) ==> !ExecutionStart(e)) ==>
        AlikeAt(x, s, y, dry)
  }

  ghost predicate AlikeAt(x: seq<Event>, s: Event, y: seq<Event>, dry: set<Pid>)
    requires s.name == RunStarted
  {
    LooksAlike(RunOf(x, s, y), RunOf(KeepEvents(x, dry), s, KeepEvents(y, dry)))
  }

  lemma {:induction false} SortedVerdictsAgree(full: seq<Event>, dry: set<Pid>, c: Check)
    requires IsSorted(full) && DryTraffic(full, dry) && full != [] && AlikeIn(full, dry)
    requires forall e :: e in full && e.pid in dry ==> e.ts <= c.now + FUTURE_TOLERANCE
    ensures var kept := KeepEvents(full, dry);
            if kept == [] then Judge(Gather(full, c), c).Err?
            else SameJudgement(Judge(Gather(full, c), c), Judge(Gather(kept, c), c))
  {
    hide Pair, Gather, Judge, LooksAlike, RunOf, IsSorted, Executions;
    var kept := KeepEvents(full, dry);
    var at := LastStart(kept);
    if at.None? {
      NoExecutionFails(full, dry, c);
      if kept != [] {
        NothingToJudge(full, dry, c);
      }
    } else {
      var a, s, b := kept[..at.value], kept[at.value], kept[at.value + 1..];
      assert kept == a + [s] + b;
      KeepEventsMembers(full, dry);
      assert s in kept;
      var x, y := SplitFull(full, dry, a, s, b);
      assert AlikeAt(x, s, y, dry);
      VerdictsAgree(full, kept, dry, c, x, s, y, a, b);
    }
  }

  lemma {:induction false} NothingToJudge(full: seq<Event>, dry: set<Pid>, c: Check)
    requires IsSorted(full) && DryTraffic(full, dry) && KeepEvents(full, dry) != []
    requires forall e :: e in full && e.pid in dry ==> e.ts <= c.now + FUTURE_TOLERANCE
    requires forall e :: e in KeepEvents(full, dry) ==> !ExecutionStart(e)
    ensures full != [] && SameJudgement(Judge(Gather(full, c), c), Judge(Gather(KeepEvents(full, dry), c), c))
  {
    var kept := KeepEvents(full, dry);
    NoExecutionFails(full, dry, c);
    DryTrafficEmpty(kept);
    KeepEventsAll(kept, {});
    NoExecutionFails(kept, {}, c);
    hide Pair, KeepEvents, Executions, DryTraffic, Judge, SameJudgement, Gather, IsSorted;
    SurroundingsAgree(full, kept, dry, c);
    GatherOf(full, c);
    GatherOf(kept, c);
    JudgementsAgree(Gather(full, c), Gather(kept, c), c);
  }

  lemma {:induction false} DryTrafficEmpty(log: seq<Event>)
    ensures DryTraffic(log, {})
  {
  }

  lemma {:induction false} QuietIsAlike(full: seq<Event>, dry: set<Pid>)
    requires DryTraffic(full, dry) && QuietWhileOpen(KeepEvents(full, dry))
    ensures AlikeIn(full, dry)
  {
    hide Pair, QuietRun, Shared, RunOf, LooksAlike;
    forall x, s, y | full == x + [s] + y && ExecutionStart(s) && s.pid !in dry &&
                     (forall e :: e in KeepEvents(y, dry) ==> !ExecutionStart(e))
      ensures AlikeAt(x, s, y, dry)
    {
      var a, b := KeepEvents(x, dry), KeepEvents(y, dry);
      var kept := a + [s] + b;
      KeepEventsAppend(x + [s], y, dry);
      KeepEventsSnoc(x, s, dry);
      assert kept[..|a|] == a && kept[|a|] == s && kept[|a| + 1..] == b;
      assert forall j :: |a| < j < |kept| ==> kept[j] in b;
      QuietFrom(kept, |a|);
      QuietIsShared(x, s, y, dry);
      SharedLooksAlike(x, s, y, dry);
    }
  }

  /** Dry runs change neither the verdict, nor the reason, age or pid, if no terminal without pid
      falls back while the last execution run can still be ended. */
  lemma {:induction false} QuietLogsAreSafe(log: seq<Event>, dry: set<Pid>, c: Check)
    requires DryTraffic(log, dry) && QuietWhileOpen(StableSort(KeepEvents(log, dry)))
    requires forall e :: e in log && e.pid in dry ==> e.ts <= c.now + FUTURE_TOLERANCE
    ensures Validate(log, c).Ok? <==> Validate(KeepEvents(log, dry), c).Ok?
    ensures KeepEvents(log, dry) != [] ==> SameJudgement(Validate(log, c), Validate(KeepEvents(log, dry), c))
  {
    hide QuietWhileOpen, AlikeIn, Gather, Judge;
    if log != [] {
      var full := StableSort(log);
      SortProjects(log, dry);
      SortKeepsMembers(log);
      StableSortIsStable(log, 0.0);
      DryTrafficSorts(log, dry);
      QuietIsAlike(full, dry);
      SortedVerdictsAgree(full, dry, c);
    }
  }

  /** The guard of `DryRunsDoNotInterfere` implies this one. */
  lemma {:induction false} OrphanFreeIsQuiet(log: seq<Event>)
    requires OrphanFree(log)
    ensures QuietWhileOpen(log)
  {
    hide Pair;
  }

  // ------------------------------------------------------- (b) a stolen end flips a verdict

  /** What the events of its own pid make of an open run. */
  datatype Fate = Running | Restarted | Ended(end: Event)

  function FateOf(log: seq<Event>, p: Pid): Fate {
    if log == [] then Running
    else
      var front, e := FateOf(log[..|log| - 1], p), log[|log| - 1];
      if front != Running || e.pid != p then front
      else if e.name == RunStarted then Restarted
      else if IsTerminal(e) then Ended(e)
      else Running
  }

  function FateEnd(f: Fate): Option<Event> {
    if f.Ended? then Some(f.end) else None
  }

  /** Behind its shield only its own pid reaches the run. */
  lemma {:induction false} ShieldedHit(l: Ledger, e: Event, i: nat, m: nat, dry: set<Pid>)
    requires Shielded(l, i, m, dry) && m > 0 && Hits(l, e, i)
    ensures e.pid == l.runs[i].pid
  {
    var p := l.runs[i].pid;
    var j :| 0 <= j && j + m < |l.open| && l.open[j] == p;
    assert l.open[|l.open| - 1] != p;
  }

  /** The run at i of log q: its pid and start never change, and its end is its fate. */
  ghost predicate Fated(q: seq<Event>, b: seq<Event>, i: nat) {
    && i < |Pair(q).runs| && i < |Pair(q + b).runs|
    && Pair(q + b).runs[i] == Pair(q).runs[i].(terminal := FateEnd(FateOf(b, Pair(q).runs[i].pid)))
    && (Reach(Pair(q + b), i) <==> FateOf(b, Pair(q).runs[i].pid) == Running)
  }

  lemma {:induction false} FatedStep(q: seq<Event>, front: seq<Event>, e: Event, i: nat, m: nat, dry: set<Pid>)
    requires Fated(q, front, i) && Shielded(Pair(q + front), i, m, dry) && m > 0
    ensures Fated(q, front + [e], i)
  {
    var l, p := Pair(q + front), Pair(q).runs[i].pid;
    assert q + (front + [e]) == q + front + [e];
    assert (front + [e])[..|front|] == front;
    PairLast(q + front, e);
    PairIsCoherent(q + front);
    if Hits(l, e, i) {
      ShieldedHit(l, e, i, m, dry);
    }
    hide Pair, Shielded, Coherent;
    StepReach(l, e, i);
    assert l.runs[i].pid == p;
  }

  lemma {:induction false} ShieldedIsFated(q: seq<Event>, b: seq<Event>, i: nat, m: nat, dry: set<Pid>)
    requires Shielded(Pair(q), i, m, dry) && |b| <= m && Reach(Pair(q), i) && Pair(q).runs[i].terminal.None?
    ensures Fated(q, b, i)
  {
    assert i < |Pair(q).runs|;
    hide Shielded, Reach, Pair;
    if b == [] {
      assert q + b == q;
      assert Pair(q).runs[i] == Pair(q).runs[i].(terminal := None);
    } else {
      var front := b[..|b| - 1];
      assert b == front + [b[|b| - 1]];
      ShieldedIsFated(q, front, i, m, dry);
      ShieldedRun(q, front, i, m, dry);
      FatedStep(q, front, b[|b| - 1], i, m - |front|, dry);
    }
  }

  // The two logs: base is pre, t, rest, and the dry starts go right before t.

  /** The position of the run that t ends, and that nothing but its own pid ends once shielded. */
  lemma {:induction false} StolenFate(pre: seq<Event>, t: Event, rest: seq<Event>, first: int, i: nat)
    requires Orphan(Pair(pre), t) && Hits(Pair(pre), t, i)
    requires forall e :: e in pre && e.pid.Some? ==> e.pid.value < first
    ensures var r := Pair(pre).runs[i];
            var base, full := Pair(pre + [t] + rest).runs, Pair(WithDryStarts(pre, t, rest, first)).runs;
            && i < |base| && i < |full| && r.pid.Some?
            && base[i].terminal == Some(t)
            && full[i] == r.(terminal := FateEnd(FateOf(rest, r.pid)))
  {
    var n := |rest| + 1;
    var starts := DryStarts(first, n, t.ts);
    var dry, p, q := PidsFrom(first, n), Pair(pre).runs[i].pid, pre + starts;
    assert Victim(Pair(pre)) == i && p in Pair(pre).open;
    VictimSettles(pre, t, rest);
    PidsAreBelow(pre, first);
    PairIsCoherent(pre);
    ShieldBegins(pre, t, first, n, t.ts);
    ShieldedReach(pre, first, n, t.ts, i);
    FateSkips(t, rest, p);
    ShieldedIsFated(q, [t] + rest, i, n, dry);
  }

  /** Dry starts leave an open run open. */
  lemma {:induction false} ShieldedReach(pre: seq<Event>, first: int, n: nat, ts: real, i: nat)
    requires Reach(Pair(pre), i) && PidsBelow(Pair(pre), first)
    ensures var m := Pair(pre + DryStarts(first, n, ts)); Reach(m, i) && m.runs[i] == Pair(pre).runs[i]
    ensures Pair(pre).runs[i].terminal.None?
  {
    PairIsCoherent(pre);
    DryStartsOpen(pre, first, n, ts);
    var l, m := Pair(pre), Pair(pre + DryStarts(first, n, ts));
    var p := l.runs[i].pid;
    hide Pair, DryStarts;
    assert l.runs[i] in l.runs;
    LastIndexIs(l.runs, p);
    LastIndexUnique(m.runs, p, i);
  }

  lemma {:induction false} FateSkips(t: Event, rest: seq<Event>, p: Pid)
    requires t.pid != p
    ensures FateOf([t] + rest, p) == FateOf(rest, p)
  {
    if rest == [] {
      assert [t] + rest == [t];
    } else {
      var front := rest[..|rest| - 1];
      FateSkips(t, front, p);
      assert ([t] + rest)[..|rest|] == [t] + front;
    }
  }

  lemma {:induction false} NothingCritical(log: seq<Event>, c: Check)
    requires forall e :: e in log ==> e.ts < c.now - c.lookback
    ensures CriticalEvents(log, c.now - c.lookback, c.now) == []
  {
    SelectCriticalEmpty(log, DryPids(Pair(log).runs), c.now - c.lookback, c.now);
  }

  lemma {:induction false} CalmJudgement(g: Evidence, c: Check)
    requires g.latest.ts < c.now && g.critical == [] && g.executions != []
    ensures Judge(g, c) == JudgeRun(g.latest, g.executions[|g.executions| - 1], c)
  {
  }

  lemma {:induction false} ValidateSorted(log: seq<Event>, c: Check)
    requires IsSorted(log) && log != [] && c.max_age > 0.0 && c.lookback > 0.0 && c.max_run > 0.0
    ensures Validate(log, c) == Judge(Gather(log, c), c)
  {
    hide Gather, Judge;
    SortedIsFixed(log);
  }

  /** A check whose critical window is behind every event looks at the last execution run alone. */
  lemma {:induction false} JudgesRun(log: seq<Event>, x: seq<Event>, s: Event, y: seq<Event>, c: Check)
    requires log == x + [s] + y && IsSorted(log) && ExecutionStart(s) && forall e :: e in y ==> !ExecutionStart(e)
    requires forall e :: e in log ==> e.ts < c.now - c.lookback
    requires c.max_age > 0.0 && c.lookback > 0.0 && c.max_run > 0.0
    ensures log != [] && Validate(log, c) == JudgeRun(log[|log| - 1], RunOf(x, s, y), c)
  {
    assert log[|x|] == s;
    assert log[|log| - 1] in log;
    hide Pair, Executions, RunOf, JudgeRun, Judge, Gather, CriticalEvents, Validate, IsSorted;
    ValidateSorted(log, c);
    JudgedRun(x, s, y);
    NothingCritical(log, c);
    GatherOf(log, c);
    CalmJudgement(Gather(log, c), c);
  }

  lemma {:induction false} FateIsLogged(log: seq<Event>, p: Pid)
    ensures var f := FateOf(log, p); f.Ended? ==> f.end in log && IsTerminal(f.end) && f.end.pid == p
  {
    if log != [] {
      FateIsLogged(log[..|log| - 1], p);
      assert log == log[..|log| - 1] + [log[|log| - 1]];
    }
  }

  /** Two verdicts on the same run, started before t, that t ends in one log and `end` in the other:
      some check accepts the one and rejects the other. */
  function TellApart(now: real, s: Event, t: Event, end: Option<Event>): Check {
    if end.None? then Check(now, now - s.ts, 0.5, 1.0, {s.pid}) else Check(now, now - end.value.ts, 0.5, 1.0, {})
  }

  lemma {:induction false} ToldApart(now: real, s: Event, t: Event, end: Option<Event>, x: Event, y: Event)
    requires s.ts <= t.ts < now - 0.5 && (end.Some? ==> t.ts < end.value.ts < now - 0.5)
    ensures var c := TellApart(now, s, t, end);
            var full, base := JudgeRun(x, Run(s.pid, s.ts, true, end), c),
                              JudgeRun(y, Run(s.pid, s.ts, true, Some(t)), c);
            && c.max_age > 0.0 && c.lookback > 0.0 && c.max_run > 0.0 && c.now == now && c.lookback == 0.5
            && (full.Ok? <==> base.Err?)
  {
  }

  /** Some dry runs, none in the future, make the check accept what it would reject, or the reverse. */
  ghost predicate Interfere(full: seq<Event>, dry: set<Pid>, base: seq<Event>, c: Check) {
    && AddsDryRuns(full, dry, base)
    && (forall e :: e in full && e.pid in dry ==> e.ts <= c.now + FUTURE_TOLERANCE)
    && (Validate(full, c).Ok? <==> Validate(base, c).Err?)
  }

  /** The terminal at k, without pid, falls back to the run that starts at n. */
  ghost predicate Stolen(log: seq<Event>, n: nat, k: nat)
    requires n < k < |log|
  {
    var l := Pair(log[..k]);
    Orphan(l, log[k]) && Hits(l, log[k], |Pair(log[..n]).runs|)
  }

  /** Without that terminal the run would have ended at the same instant by one of its own. */
  ghost predicate SameInstant(log: seq<Event>, n: nat, k: nat)
    requires n < k < |log|
  {
    var f := FateOf(log[k + 1..], log[n].pid);
    f.Ended? && f.end.ts == log[k].ts
  }

  /** What follows the run's start when the dry starts are slipped in before t. */
  function AfterWith(base: seq<Event>, n: nat, k: nat): seq<Event>
    requires n < k < |base|
  {
    base[n + 1..k] + DryStarts(AbovePids(base), |base| - k, base[k].ts) + ([base[k]] + base[k + 1..])
  }

  function FullOf(base: seq<Event>, k: nat): seq<Event>
    requires k < |base|
  {
    WithDryStarts(base[..k], base[k], base[k + 1..], AbovePids(base))
  }

  lemma {:induction false} Layout(base: seq<Event>, n: nat, k: nat)
    requires n < k < |base|
    ensures base == base[..n] + [base[n]] + base[n + 1..]
    ensures base == base[..k] + [base[k]] + base[k + 1..]
    ensures FullOf(base, k) == base[..n] + [base[n]] + AfterWith(base, n, k)
  {
    hide DryStarts, AbovePids;
    assert base[..k] == base[..n] + [base[n]] + base[n + 1..k];
  }

  lemma {:induction false} NoLaterExecution(base: seq<Event>, n: nat, k: nat)
    requires SplitsAt(base, n) && n < k < |base|
    ensures forall e :: e in base[n + 1..] ==> !ExecutionStart(e)
    ensures forall e :: e in AfterWith(base, n, k) ==> !ExecutionStart(e)
  {
    forall e | e in AfterWith(base, n, k) ensures !ExecutionStart(e) {
      if e !in DryStarts(AbovePids(base), |base| - k, base[k].ts) {
        assert e in base[n + 1..];
      }
    }
  }

  /** The run started at n, as the terminal at k ends it, and as it fares when that one is stolen. */
  lemma {:induction false} BothFates(base: seq<Event>, n: nat, k: nat)
    requires SplitsAt(base, n) && n < k < |base| && Stolen(base, n, k)
    ensures var a, s := base[..n], base[n];
            && RunOf(a, s, base[n + 1..]) == Run(s.pid, s.ts, true, Some(base[k]))
            && RunOf(a, s, AfterWith(base, n, k)) == Run(s.pid, s.ts, true, FateEnd(FateOf(base[k + 1..], s.pid)))
  {
    var a, s, first, i := base[..n], base[n], AbovePids(base), |Pair(base[..n]).runs|;
    Layout(base, n, k);
    NoLaterExecution(base, n, k);
    assert forall e :: e in base[..k] ==> e in base;
    hide Pair, Hits, RunOf, FateOf, DryStarts, AbovePids, Executions, AfterWith, WithDryStarts, Orphan;
    StolenFate(base[..k], base[k], base[k + 1..], first, i);
    JudgedRun(a, s, base[n + 1..]);
    JudgedRun(a, s, AfterWith(base, n, k));
    RunOfIs(a, s, base[n + 1..]);
    RunOfIs(a, s, AfterWith(base, n, k));
    assert Pair(base).runs[i].pid == s.pid;
  }

  lemma {:induction false} RunOfIs(a: seq<Event>, s: Event, b: seq<Event>)
    requires s.name == RunStarted
    ensures |Pair(a).runs| < |Pair(a + [s] + b).runs| && RunOf(a, s, b) == Pair(a + [s] + b).runs[|Pair(a).runs|]
  {
    StartKeepsPid(a, s);
    RunsGrow(a + [s], b);
  }

  /** A fallback that ends the last execution run can be turned away, and the verdict with it. */
  lemma {:induction false} StolenEndFlips(base: seq<Event>, n: nat, k: nat)
    requires IsSorted(base) && SplitsAt(base, n) && n < k < |base| && Stolen(base, n, k) && !SameInstant(base, n, k)
    ensures exists full, dry, c :: Interfere(full, dry, base, c)
  {
    var s, t, full, dry := base[n], base[k], FullOf(base, k), PidsFrom(AbovePids(base), |base| - k);
    var end, now := FateEnd(FateOf(base[k + 1..], s.pid)), base[|base| - 1].ts + 1.0;
    var c := TellApart(now, s, t, end);
    Layout(base, n, k);
    DryStartsAreAdded(base[..k], t, base[k + 1..], base);
    DryEventsAt(base, k);
    EndIsLater(base, n, k);
    BothFates(base, n, k);
    NoLaterExecution(base, n, k);
    hide Pair, RunOf, FateOf, JudgeRun, Validate, FullOf, AfterWith, PidsFrom, AbovePids, Stolen, TellApart, IsSorted;
    hide SplitsAt, AddsDryRuns;
    FullIsPast(base, full, dry, t, now);
    ToldApart(now, s, t, end, full[|full| - 1], base[|base| - 1]);
    AddedIsSorted(full, dry, base);
    JudgesRun(base, base[..n], s, base[n + 1..], c);
    JudgesRun(full, base[..n], s, AfterWith(base, n, k), c);
    assert Interfere(full, dry, base, c);
  }

  lemma {:induction false} AddedIsSorted(full: seq<Event>, dry: set<Pid>, base: seq<Event>)
    requires AddsDryRuns(full, dry, base)
    ensures IsSorted(full)
  {
  }

  lemma {:induction false} EndIsLater(base: seq<Event>, n: nat, k: nat)
    requires IsSorted(base) && n < k < |base| && !SameInstant(base, n, k)
    ensures var end := FateEnd(FateOf(base[k + 1..], base[n].pid));
            && base[n].ts <= base[k].ts <= base[|base| - 1].ts
            && (end.Some? ==> base[k].ts < end.value.ts <= base[|base| - 1].ts)
            && forall e :: e in base ==> e.ts <= base[|base| - 1].ts
  {
    FateIsLogged(base[k + 1..], base[n].pid);
  }

  lemma {:induction false} DryEventsAt(base: seq<Event>, k: nat)
    requires k < |base|
    ensures forall e :: e in FullOf(base, k) && e.pid in PidsFrom(AbovePids(base), |base| - k) ==> e.ts == base[k].ts
  {
    var first, n := AbovePids(base), |base| - k;
    forall e | e in FullOf(base, k) && e.pid in PidsFrom(first, n) ensures e.ts == base[k].ts {
      assert e in DryStarts(first, n, base[k].ts) || e in base;
    }
  }

  lemma {:induction false} FullIsPast(base: seq<Event>, full: seq<Event>, dry: set<Pid>, t: Event, now: real)
    requires AddsDryRuns(full, dry, base) && t.ts < now - 0.5
    requires forall e :: e in base ==> e.ts < now - 0.5
    requires forall e :: e in full && e.pid in dry ==> e.ts == t.ts
    ensures full == [] ==> base == []
    ensures forall e :: e in full ==> e.ts < now - 0.5
  {
    KeepEventsMembers(full, dry);
  }

  // ------------------------------------- (c) exactly when no dry runs can change a verdict

  /** No process id starts twice. */
  ghost predicate DistinctStarts(log: seq<Event>) {
    forall i, j :: 0 <= i < j < |log| && log[i].name == RunStarted && log[j].name == RunStarted ==>
            log[i].pid != log[j].pid
  }

  /** The keys that fallbacks have popped. */
  function Victims(log: seq<Event>): set<Pid> {
    if log == [] then {}
    else
      var front, e := log[..|log| - 1], log[|log| - 1];
      if Orphan(Pair(front), e) then Victims(front) + {Pair(front).open[|Pair(front).open| - 1]} else Victims(front)
  }

  ghost predicate Started(log: seq<Event>, p: Pid) {
    exists i :: 0 <= i < |log| && log[i].name == RunStarted && log[i].pid == p
  }

  lemma {:induction false} StartedGrows(log: seq<Event>, e: Event, p: Pid)
    ensures Started(log + [e], p) <==> Started(log, p) || (e.name == RunStarted && e.pid == p)
  {
    var more := log + [e];
    if i :| 0 <= i < |log| && log[i].name == RunStarted && log[i].pid == p {
      assert more[i] == log[i];
    }
    if e.name == RunStarted && e.pid == p {
      assert more[|log|] == e;
    }
  }

  lemma {:induction false} OpenIsStarted(log: seq<Event>, p: Pid)
    requires p in Pair(log).open
    ensures Started(log, p)
  {
    var front, e := log[..|log| - 1], log[|log| - 1];
    assert log == front + [e];
    StartedGrows(front, e, p);
    StepOpen(Pair(front), e, p);
    if p in Pair(front).open {
      OpenIsStarted(front, p);
    }
  }

  lemma {:induction false} VictimIsStarted(log: seq<Event>, p: Pid)
    requires p in Victims(log)
    ensures Started(log, p) && p.Some?
  {
    var front, e := log[..|log| - 1], log[|log| - 1];
    assert log == front + [e];
    StartedGrows(front, e, p);
    if p in Victims(front) {
      VictimIsStarted(front, p);
    } else {
      OpenIsStarted(front, p);
    }
  }

  lemma {:induction false} VictimsSnoc(log: seq<Event>, e: Event)
    ensures Victims(log + [e]) ==
            if Orphan(Pair(log), e) then Victims(log) + {Pair(log).open[|Pair(log).open| - 1]} else Victims(log)
  {
    assert (log + [e])[..|log|] == log;
  }

  lemma {:induction false} DistinctFront(log: seq<Event>, e: Event)
    requires DistinctStarts(log + [e])
    ensures DistinctStarts(log) && (e.name == RunStarted ==> !Started(log, e.pid))
  {
    var more := log + [e];
    forall i, j | 0 <= i < j < |log| && log[i].name == RunStarted && log[j].name == RunStarted
      ensures log[i].pid != log[j].pid
    {
      assert more[i] == log[i] && more[j] == log[j];
    }
    if e.name == RunStarted {
      forall i | 0 <= i < |log| && log[i].name == RunStarted ensures log[i].pid != e.pid {
        assert more[i] == log[i] && more[|log|] == e;
      }
    }
  }

  lemma {:induction false} KeepFewer(open: seq<Pid>, gone: set<Pid>, x: Pid)
    ensures KeepPids(open, gone + {x}) == Remove(KeepPids(open, gone), x)
  {
    if open != [] {
      var front, q := open[..|open| - 1], open[|open| - 1];
      KeepFewer(front, gone, x);
      RemoveSnoc(KeepPids(front, gone), q, x);
    }
  }

  /** The open keys of the shorter log are those of the longer one without some that are gone. */
  ghost predicate Embedded(l: Ledger, m: Ledger, gone: set<Pid>) {
    None !in gone && KeepPids(m.open, gone) == l.open
  }

  /** A step of a dry run. */
  lemma {:induction false} EmbeddedByDry(l: Ledger, m: Ledger, gone: set<Pid>, e: Event)
    requires Embedded(l, m, gone) && e.pid in gone
    ensures Embedded(l, Step(m, e), gone)
  {
    KeepPidsSnoc(m.open, e.pid, gone);
    RemoveProjects(m.open, e.pid, gone);
  }

  lemma {:induction false} EmbeddedByStart(l: Ledger, m: Ledger, gone: set<Pid>, e: Event)
    requires Embedded(l, m, gone) && e.name == RunStarted && e.pid !in gone && e.pid !in l.open
    ensures Embedded(Step(l, e), Step(m, e), gone)
  {
    KeepPidsMembers(m.open, gone);
    KeepPidsSnoc(m.open, e.pid, gone);
  }

  lemma {:induction false} EmbeddedByOwn(l: Ledger, m: Ledger, gone: set<Pid>, e: Event)
    requires Embedded(l, m, gone) && e.name != RunStarted && (e.pid.Some? || None in l.open)
    ensures Embedded(Step(l, e), Step(m, e), gone)
  {
    KeepPidsMembers(m.open, gone);
    RemoveProjects(m.open, e.pid, gone);
    RemoveIfAbsent(l.open, e.pid);
  }

  lemma {:induction false} RemoveIfAbsent(open: seq<Pid>, p: Pid)
    ensures p !in open ==> Remove(open, p) == open
  {
    if p !in open {
      RemoveAbsent(open, p);
    }
  }

  lemma {:induction false} LastKept(open: seq<Pid>, gone: set<Pid>)
    requires open != [] && open[|open| - 1] !in gone
    ensures var k := KeepPids(open, gone); k != [] && k[|k| - 1] == open[|open| - 1]
  {
  }

  /** A terminal without pid: what it pops in the shorter log is gone from then on. */
  lemma {:induction false} EmbeddedByFallback(l: Ledger, m: Ledger, gone: set<Pid>, e: Event)
    requires Embedded(l, m, gone) && e.name != RunStarted && IsTerminal(e) && e.pid.None? && None !in l.open
    ensures var more := if l.open == [] then gone else gone + {l.open[|l.open| - 1]};
            Embedded(Step(l, e), Step(m, e), more)
  {
    KeepPidsMembers(m.open, gone);
    if m.open != [] {
      var y := m.open[|m.open| - 1];
      if y !in gone {
        LastKept(m.open, gone);
      }
      var more := if l.open == [] then gone else gone + {l.open[|l.open| - 1]};
      assert y in more;
      RemoveProjects(m.open, y, more);
      if l.open != [] {
        KeepFewer(m.open, gone, l.open[|l.open| - 1]);
      }
    }
  }

  lemma {:induction false} LogsAreEmbedded(full: seq<Event>, dry: set<Pid>)
    requires None !in dry && DistinctStarts(KeepEvents(full, dry))
    ensures var kept := KeepEvents(full, dry); Embedded(Pair(kept), Pair(full), dry + Victims(kept))
  {
    if full != [] {
      var front, e := full[..|full| - 1], full[|full| - 1];
      var kept := KeepEvents(front, dry);
      assert full == front + [e];
      KeepEventsSnoc(front, e, dry);
      if e.pid !in dry {
        DistinctFront(kept, e);
      }
      LogsAreEmbedded(front, dry);
      PairLast(front, e);
      PairLast(kept, e);
      NextIsEmbedded(Pair(kept), Pair(front), kept, dry, e);
    }
  }

  lemma {:induction false} NextIsEmbedded(l: Ledger, m: Ledger, kept: seq<Event>, dry: set<Pid>, e: Event)
    requires l == Pair(kept) && None !in dry && Embedded(l, m, dry + Victims(kept))
    requires e.pid !in dry && e.name == RunStarted ==> !Started(kept, e.pid)
    ensures if e.pid in dry then Embedded(l, Step(m, e), dry + Victims(kept))
            else Embedded(Step(l, e), Step(m, e), dry + Victims(kept + [e]))
  {
    var gone := dry + Victims(kept);
    VictimsSnoc(kept, e);
    if e.pid in dry {
      EmbeddedByDry(l, m, gone, e);
    } else if e.name == RunStarted {
      if e.pid in Victims(kept) {
        VictimIsStarted(kept, e.pid);
      }
      if e.pid in l.open {
        OpenIsStarted(kept, e.pid);
      }
      EmbeddedByStart(l, m, gone, e);
    } else if e.pid.Some? || None in l.open {
      EmbeddedByOwn(l, m, gone, e);
    } else if IsTerminal(e) {
      EmbeddedByFallback(l, m, gone, e);
      if l.open != [] {
        var x := l.open[|l.open| - 1];
        assert dry + (Victims(kept) + {x}) == gone + {x};
      }
    }
  }

  lemma {:induction false} VictimsGrow(a: seq<Event>, b: seq<Event>)
    ensures Victims(a) <= Victims(a + b)
  {
    if b == [] {
      assert a + b == a;
    } else {
      var front, e := b[..|b| - 1], b[|b| - 1];
      VictimsGrow(a, front);
      assert a + b == a + front + [e];
      hide Victims, Pair;
      VictimsSnoc(a + front, e);
    }
  }

  lemma {:induction false} DistinctPrefix(a: seq<Event>, b: seq<Event>)
    requires DistinctStarts(a + b)
    ensures DistinctStarts(a)
  {
    forall i, j | 0 <= i < j < |a| && a[i].name == RunStarted && a[j].name == RunStarted ensures a[i].pid != a[j].pid {
      assert (a + b)[i] == a[i] && (a + b)[j] == a[j];
    }
  }

  /** A fallback in the longer log pops a key that no fallback of the shorter one pops only if the
      shorter one pops it too. */
  lemma {:induction false} FallbackIsVictim(full: seq<Event>, dry: set<Pid>, e: Event, p: Pid)
    requires None !in dry && e.pid !in dry && p !in dry && DistinctStarts(KeepEvents(full, dry))
    requires Orphan(Pair(full), e) && Pair(full).open[|Pair(full).open| - 1] == p
    ensures p in Victims(KeepEvents(full, dry) + [e])
  {
    var kept := KeepEvents(full, dry);
    var gone := dry + Victims(kept);
    LogsAreEmbedded(full, dry);
    VictimsSnoc(kept, e);
    KeepPidsMembers(Pair(full).open, gone);
    if p !in Victims(kept) {
      LastKept(Pair(full).open, gone);
    }
  }

  lemma {:induction false} SparedInFull(x: seq<Event>, s: Event, y: seq<Event>, dry: set<Pid>)
    requires None !in dry && s.name == RunStarted && s.pid !in dry
    requires var base := KeepEvents(x, dry) + [s] + KeepEvents(y, dry); DistinctStarts(base) && s.pid !in Victims(base)
    ensures Unharmed(x, s, y)
  {
    hide Pair, KeepEvents, Victims, DistinctStarts, Hits, Orphan;
    forall k | 0 <= k < |y| ensures Harmless(Pair(x + [s] + y[..k]), y[k], |Pair(x).runs|) {
      if Orphan(Pair(x + [s] + y[..k]), y[k]) && Hits(Pair(x + [s] + y[..k]), y[k], |Pair(x).runs|) {
        assert y == y[..k] + [y[k]] + y[k + 1..];
        HitIsVictim(x, s, y[..k], y[k], y[k + 1..], dry);
      }
    }
  }

  lemma {:induction false} KeepAround(a: seq<Event>, e: Event, b: seq<Event>, dry: set<Pid>)
    requires e.pid !in dry
    ensures KeepEvents(a + [e] + b, dry) == KeepEvents(a, dry) + [e] + KeepEvents(b, dry)
  {
    hide KeepEvents;
    KeepEventsAppend(a + [e], b, dry);
    KeepEventsSnoc(a, e, dry);
  }

  lemma {:induction false} Flatten(a: seq<Event>, s: Event, b: seq<Event>, e: Event, c: seq<Event>)
    ensures a + [s] + (b + [e] + c) == a + [s] + b + [e] + c
  {
  }

  lemma {:induction false} KeptAround(x: seq<Event>, s: Event, front: seq<Event>, e: Event, later: seq<Event>,
                                      dry: set<Pid>)
    requires s.pid !in dry && e.pid !in dry
    ensures KeepEvents(x, dry) + [s] + KeepEvents(front + [e] + later, dry) ==
            KeepEvents(x + [s] + front, dry) + [e] + KeepEvents(later, dry)
  {
    hide KeepEvents;
    KeepAround(front, e, later, dry);
    KeepAround(x, s, front, dry);
    Flatten(KeepEvents(x, dry), s, KeepEvents(front, dry), e, KeepEvents(later, dry));
  }

  lemma {:induction false} HitIsVictim(x: seq<Event>, s: Event, front: seq<Event>, e: Event, later: seq<Event>,
                                       dry: set<Pid>)
    requires None !in dry && s.name == RunStarted && s.pid !in dry
    requires DistinctStarts(KeepEvents(x, dry) + [s] + KeepEvents(front + [e] + later, dry))
    requires Orphan(Pair(x + [s] + front), e) && Hits(Pair(x + [s] + front), e, |Pair(x).runs|)
    ensures s.pid in Victims(KeepEvents(x, dry) + [s] + KeepEvents(front + [e] + later, dry))
  {
    var q, kept, rest := x + [s] + front, KeepEvents(x + [s] + front, dry), KeepEvents(later, dry);
    RunPid(x, s, front);
    KeptAround(x, s, front, e, later, dry);
    hide Pair, KeepEvents, Victims, DistinctStarts;
    assert kept + [e] + rest == kept + ([e] + rest);
    DistinctPrefix(kept, [e] + rest);
    FallbackIsVictim(q, dry, e, s.pid);
    VictimsGrow(kept + [e], rest);
  }

  lemma {:induction false} RunPid(a: seq<Event>, s: Event, b: seq<Event>)
    requires s.name == RunStarted
    ensures var runs := Pair(a + [s] + b).runs; |Pair(a).runs| < |runs| && runs[|Pair(a).runs|].pid == s.pid
  {
    StartKeepsPid(a, s);
    if b == [] {
      assert a + [s] + b == a + [s];
    } else {
      var front, e := b[..|b| - 1], b[|b| - 1];
      RunPid(a, s, front);
      assert a + [s] + b == a + [s] + front + [e];
      PairLast(a + [s] + front, e);
      StepKeepsIdentity(Pair(a + [s] + front), e);
    }
  }

  lemma {:induction false} BaseHitIsVictim(a: seq<Event>, s: Event, front: seq<Event>, e: Event, later: seq<Event>)
    requires s.name == RunStarted
    requires Orphan(Pair(a + [s] + front), e) && Hits(Pair(a + [s] + front), e, |Pair(a).runs|)
    ensures s.pid in Victims(a + [s] + (front + [e] + later))
  {
    var q := a + [s] + front;
    RunPid(a, s, front);
    hide Pair, Victims;
    VictimsSnoc(q, e);
    Flatten(a, s, front, e, later);
    VictimsGrow(q + [e], later);
  }

  lemma {:induction false} SparedInBase(a: seq<Event>, s: Event, b: seq<Event>)
    requires s.name == RunStarted && s.pid !in Victims(a + [s] + b)
    ensures Unharmed(a, s, b)
  {
    hide Pair, Victims, Hits, Orphan;
    forall k | 0 <= k < |b| ensures Harmless(Pair(a + [s] + b[..k]), b[k], |Pair(a).runs|) {
      if Orphan(Pair(a + [s] + b[..k]), b[k]) && Hits(Pair(a + [s] + b[..k]), b[k], |Pair(a).runs|) {
        assert b == b[..k] + [b[k]] + b[k + 1..];
        BaseHitIsVictim(a, s, b[..k], b[k], b[k + 1..]);
      }
    }
  }

  /** A run that no fallback ends is shared with every log that adds dry runs. */
  lemma {:induction false} SparedIsShared(x: seq<Event>, s: Event, y: seq<Event>, dry: set<Pid>)
    requires None !in dry && s.name == RunStarted && s.pid !in dry
    requires var base := KeepEvents(x, dry) + [s] + KeepEvents(y, dry); DistinctStarts(base) && s.pid !in Victims(base)
    ensures Shared(x, s, y, dry)
  {
    SparedInFull(x, s, y, dry);
    SparedInBase(KeepEvents(x, dry), s, KeepEvents(y, dry));
    RunIsShared(x, s, y, dry);
  }

  // The other way to be safe: a stolen end that would have come at the same instant anyway.

  lemma {:induction false} LaterPids(a: seq<Event>, b: seq<Event>, p: Pid)
    requires !Started(b, p)
    ensures var l, m := Pair(a), Pair(a + b);
            |l.runs| <= |m.runs| && forall i :: |l.runs| <= i < |m.runs| ==> m.runs[i].pid != p
  {
    if b == [] {
      assert a + b == a;
    } else {
      var front, e := b[..|b| - 1], b[|b| - 1];
      assert b == front + [e];
      StartedGrows(front, e, p);
      LaterPids(a, front, p);
      PairAppend(a, b);
      StepKeepsIdentity(Pair(a + front), e);
    }
  }

  lemma {:induction false} OnlyRunOfPid(a: seq<Event>, s: Event, b: seq<Event>)
    requires s.name == RunStarted && !Started(b, s.pid)
    ensures LastIndex(Pair(a + [s] + b).runs, s.pid) == |Pair(a).runs|
  {
    RunPid(a, s, b);
    StartKeepsPid(a, s);
    LaterPids(a + [s], b, s.pid);
    LastIndexUnique(Pair(a + [s] + b).runs, s.pid, |Pair(a).runs|);
  }

  lemma {:induction false} StartedAt(log: seq<Event>, n: nat, p: Pid)
    requires DistinctStarts(log) && n < |log| && log[n].name == RunStarted && log[n].pid == p
    ensures !Started(log[n + 1..], p)
    ensures forall k :: 0 <= k <= n ==> !Started(log[..k], p)
  {
    var b := log[n + 1..];
    forall i | 0 <= i < |b| && b[i].name == RunStarted ensures b[i].pid != p {
      assert b[i] == log[n + 1 + i];
    }
  }

  lemma {:induction false} StolenStays(front: seq<Event>, e: Event, n: nat, k: nat)
    requires n < k < |front| && Stolen(front, n, k)
    ensures Stolen(front + [e], n, k)
  {
    var log := front + [e];
    assert front[..k] == log[..k] && front[..n] == log[..n] && front[k] == log[k];
  }

  lemma {:induction false} PoppedIsHit(a: seq<Event>, s: Event, b: seq<Event>, e: Event)
    requires s.name == RunStarted && !Started(b, s.pid)
    requires var l := Pair(a + [s] + b); Orphan(l, e) && l.open[|l.open| - 1] == s.pid
    ensures Hits(Pair(a + [s] + b), e, |Pair(a).runs|)
  {
    RunPid(a, s, b);
    OnlyRunOfPid(a, s, b);
  }

  lemma {:induction false} PoppedIsStolen(front: seq<Event>, e: Event, n: nat)
    requires DistinctStarts(front) && n < |front| && front[n].name == RunStarted
    requires Orphan(Pair(front), e) && Pair(front).open[|Pair(front).open| - 1] == front[n].pid
    ensures Stolen(front + [e], n, |front|)
  {
    var log, a, s, b := front + [e], front[..n], front[n], front[n + 1..];
    StartedAt(front, n, s.pid);
    hide Pair, Hits, DistinctStarts;
    assert front == a + [s] + b;
    assert log[..|front|] == front && log[..n] == a;
    PoppedIsHit(a, s, b, e);
  }

  lemma {:induction false} StartIsBefore(log: seq<Event>, n: nat)
    requires DistinctStarts(log) && n < |log| && log[n].name == RunStarted && Started(log[..|log| - 1], log[n].pid)
    ensures n < |log| - 1 && log[..|log| - 1][n] == log[n]
  {
    StartedAt(log, n, log[n].pid);
  }

  /** A popped key belongs to the run its only start began. */
  lemma {:induction false} VictimIsStolen(log: seq<Event>, n: nat)
    requires DistinctStarts(log) && n < |log| && log[n].name == RunStarted && log[n].pid in Victims(log)
    ensures exists k :: n < k < |log| && Stolen(log, n, k)
  {
    var front, e, p := log[..|log| - 1], log[|log| - 1], log[n].pid;
    assert log == front + [e];
    DistinctPrefix(front, [e]);
    VictimsSnoc(front, e);
    hide Pair, Victims, DistinctStarts, Stolen;
    if p in Victims(front) {
      VictimIsStarted(front, p);
      StartIsBefore(log, n);
      VictimIsStolen(front, n);
      var k :| n < k < |front| && Stolen(front, n, k);
      StolenStays(front, e, n, k);
    } else {
      OpenIsStarted(front, p);
      StartIsBefore(log, n);
      PoppedIsStolen(front, e, n);
    }
  }

  lemma {:induction false} StolenIsOver(log: seq<Event>, n: nat, j: nat)
    requires n < j < |log| && Stolen(log, n, j)
    ensures !Reach(Pair(log), |Pair(log[..n]).runs|)
  {
    assert log == log[..j] + [log[j]] + log[j + 1..];
    VictimSettles(log[..j], log[j], log[j + 1..]);
    PairIsCoherent(log);
  }

  lemma {:induction false} StolenBefore(log: seq<Event>, n: nat, k: nat, j: nat)
    requires n < j < k < |log| && Stolen(log[..k], n, j)
    ensures !Reach(Pair(log[..k]), |Pair(log[..n]).runs|)
  {
    assert log[..k][..n] == log[..n];
    hide Pair, Reach;
    StolenIsOver(log[..k], n, j);
  }

  /** A run is stolen once. */
  lemma {:induction false} NotStolenBefore(log: seq<Event>, n: nat, k: nat)
    requires DistinctStarts(log) && n < k < |log| && log[n].name == RunStarted && Stolen(log, n, k)
    ensures log[n].pid !in Victims(log[..k])
  {
    var pre := log[..k];
    assert log == pre + log[k..];
    DistinctPrefix(pre, log[k..]);
    assert Reach(Pair(pre), |Pair(log[..n]).runs|);
    hide Pair, Victims, DistinctStarts, Stolen, Reach;
    if log[n].pid in Victims(pre) {
      VictimIsStolen(pre, n);
      var j :| n < j < |pre| && Stolen(pre, n, j);
      StolenBefore(log, n, k, j);
    }
  }

  /** How an open run can have ended after z: by one of its own events, or earlier in z. */
  ghost predicate EndedWithin(q: seq<Event>, z: seq<Event>, j: nat) {
    && j < |Pair(q).runs| && j < |Pair(q + z).runs|
    && Pair(q + z).runs[j].(terminal := None) == Pair(q).runs[j].(terminal := None)
    && EndFits(Pair(q + z).runs[j].terminal, Reach(Pair(q + z), j), z, FateOf(z, Pair(q).runs[j].pid))
  }

  ghost predicate EndFits(end: Option<Event>, reach: bool, z: seq<Event>, f: Fate) {
    match f
    case Running => if reach then end.None? else end.Some? && end.value in z
    case Restarted => true
    case Ended(u) => !reach && end.Some? && end.value in z && end.value.ts <= u.ts
  }

  lemma {:induction false} EndFitsNext(l: Ledger, e: Event, j: nat, z: seq<Event>, f: Fate)
    requires Coherent(l) && j < |l.runs| && EndFits(l.runs[j].terminal, Reach(l, j), z, f)
    requires forall x :: x in z ==> x.ts <= e.ts
    ensures var p, r := l.runs[j].pid, Step(l, e);
            var next := if f != Running || e.pid != p then f
                        else if e.name == RunStarted then Restarted
                        else if IsTerminal(e) then Ended(e)
                        else Running;
            && j < |r.runs| && r.runs[j].(terminal := None) == l.runs[j].(terminal := None)
            && EndFits(r.runs[j].terminal, Reach(r, j), z + [e], next)
  {
    StepReach(l, e, j);
  }

  lemma {:induction false} EndsWithin(q: seq<Event>, z: seq<Event>, j: nat)
    requires Reach(Pair(q), j) && IsSorted(z)
    ensures EndedWithin(q, z, j)
  {
    PairIsCoherent(q);
    if z == [] {
      assert q + z == q;
    } else {
      var front, e := z[..|z| - 1], z[|z| - 1];
      assert z == front + [e];
      EndsWithin(q, front, j);
      PairAppend(q, z);
      PairIsCoherent(q + front);
      EndFitsNext(Pair(q + front), e, j, front, FateOf(front, Pair(q).runs[j].pid));
    }
  }

  lemma {:induction false} FateSnoc(log: seq<Event>, e: Event, p: Pid)
    ensures FateOf(log + [e], p) ==
            if FateOf(log, p) != Running || e.pid != p then FateOf(log, p)
            else if e.name == RunStarted then Restarted
            else if IsTerminal(e) then Ended(e)
            else Running
  {
    assert (log + [e])[..|log|] == log;
  }

  lemma {:induction false} FateIgnores(log: seq<Event>, dry: set<Pid>, p: Pid)
    requires p !in dry
    ensures FateOf(log, p) == FateOf(KeepEvents(log, dry), p)
  {
    if log != [] {
      var front, e := log[..|log| - 1], log[|log| - 1];
      assert log == front + [e];
      FateIgnores(front, dry, p);
      hide FateOf, KeepEvents;
      KeepEventsSnoc(front, e, dry);
      FateSnoc(front, e, p);
      FateSnoc(KeepEvents(front, dry), e, p);
    }
  }

  lemma {:induction false} SameInstantIsAlike(x: seq<Event>, s: Event, y: seq<Event>, t: Event, z: seq<Event>,
                                              dry: set<Pid>)
    requires None !in dry && ExecutionStart(s) && s.pid !in dry && Shared(x, s, y, dry) && IsSorted([t] + z)
    requires var base := KeepEvents(x, dry) + [s] + KeepEvents(y, dry);
             Orphan(Pair(base), t) && Hits(Pair(base), t, |Pair(KeepEvents(x, dry)).runs|)
    requires var f := FateOf([t] + z, s.pid); f.Ended? && f.end.ts == t.ts
    ensures var r, q := Pair(x + [s] + y + ([t] + z)).runs, |Pair(x).runs|;
            && q < |r| && r[q].terminal.Some? && r[q].terminal.value.ts == t.ts
            && r[q].(terminal := None) == Run(s.pid, s.ts, true, None)
  {
    var q, j := x + [s] + y, |Pair(x).runs|;
    RunOfIs(x, s, y);
    StartedRun(x, s, y);
    assert Reach(Pair(q), j) && Pair(q).runs[j].pid == s.pid;
    hide Pair, KeepEvents, Shared, Orphan, Hits, FateOf;
    EndsWithin(q, [t] + z, j);
    var end := Pair(q + ([t] + z)).runs[j].terminal;
    assert end.Some? && end.value in [t] + z;
    assert ([t] + z)[0] == t;
  }

  lemma {:induction false} StartedRun(a: seq<Event>, s: Event, b: seq<Event>)
    requires ExecutionStart(s)
    ensures var r := Pair(a + [s] + b).runs;
            |Pair(a).runs| < |r| && r[|Pair(a).runs|].(terminal := None) == Run(s.pid, s.ts, true, None)
  {
    StartKeepsPid(a, s);
    if b == [] {
      assert a + [s] + b == a + [s];
    } else {
      var front, e := b[..|b| - 1], b[|b| - 1];
      StartedRun(a, s, front);
      assert a + [s] + b == a + [s] + front + [e];
      PairLast(a + [s] + front, e);
      StepKeepsIdentity(Pair(a + [s] + front), e);
    }
  }

  lemma {:induction false} SortedSuffix(log: seq<Event>, a: seq<Event>, b: seq<Event>)
    requires log == a + b && IsSorted(log)
    ensures IsSorted(b)
  {
    forall i, j | 0 <= i < j < |b| ensures b[i].ts <= b[j].ts {
      assert log[|a| + i] == b[i] && log[|a| + j] == b[j];
    }
  }

  /** The events between the run's start and the stolen terminal, and those after it, in both logs. */
  lemma {:induction false} SplitStolen(full: seq<Event>, x: seq<Event>, s: Event, y: seq<Event>, dry: set<Pid>,
                                       base: seq<Event>, n: nat, k: nat) returns (y1: seq<Event>, z: seq<Event>)
    requires n < k < |base| && base[n] == s && s.pid !in dry
    requires full == x + [s] + y && KeepEvents(x, dry) == base[..n] && KeepEvents(y, dry) == base[n + 1..]
    ensures y == y1 + [base[k]] + z
    ensures KeepEvents(y1, dry) == base[n + 1..k] && KeepEvents(z, dry) == base[k + 1..]
    ensures full == x + [s] + y1 + ([base[k]] + z)
    ensures base[..k] == KeepEvents(x, dry) + [s] + KeepEvents(y1, dry)
  {
    assert base[n + 1..] == base[n + 1..k] + [base[k]] + base[k + 1..];
    y1, z := SplitFull(y, dry, base[n + 1..k], base[k], base[k + 1..]);
    assert base[..k] == base[..n] + [s] + base[n + 1..k];
  }

  lemma {:induction false} StolenFateInFull(t: Event, z: seq<Event>, rest: seq<Event>, dry: set<Pid>, p: Pid)
    requires t.pid.None? && p.Some? && p !in dry && KeepEvents(z, dry) == rest
    ensures FateOf([t] + z, p) == FateOf(rest, p)
  {
    FateSkips(t, z, p);
    FateIgnores(z, dry, p);
  }

  lemma {:induction false} StolenIsAlike(full: seq<Event>, x: seq<Event>, s: Event, y: seq<Event>, dry: set<Pid>,
                                         base: seq<Event>, n: nat, k: nat)
    requires full == x + [s] + y && IsSorted(full) && None !in dry && s.pid !in dry
    requires DistinctStarts(base) && SplitsAt(base, n) && base[n] == s && n < k < |base|
    requires KeepEvents(x, dry) == base[..n] && KeepEvents(y, dry) == base[n + 1..]
    requires Stolen(base, n, k) && SameInstant(base, n, k)
    ensures LooksAlike(RunOf(x, s, y), RunOf(base[..n], s, base[n + 1..]))
  {
    var t := base[k];
    var y1, z := SplitStolen(full, x, s, y, dry, base, n, k);
    var q := base[..k];
    assert base == q + base[k..];
    NotStolenBefore(base, n, k);
    DistinctPrefix(q, base[k..]);
    SparedIsShared(x, s, y1, dry);
    SortedSuffix(full, x + [s] + y1, [t] + z);
    assert Orphan(Pair(q), t) && Hits(Pair(q), t, |Pair(base[..n]).runs|);
    StolenPid(base, n, k);
    StolenFateInFull(t, z, base[k + 1..], dry, s.pid);
    hide Pair, KeepEvents, Shared, Orphan, Hits, FateOf, RunOf, DistinctStarts, IsSorted, Stolen;
    SameInstantIsAlike(x, s, y1, t, z, dry);
    BothFates(base, n, k);
    RunOfIs(x, s, y);
  }

  lemma {:induction false} StolenPid(log: seq<Event>, n: nat, k: nat)
    requires n < k < |log| && log[n].name == RunStarted && Stolen(log, n, k)
    ensures log[n].pid.Some? && log[k].pid.None?
  {
    assert log[..k] == log[..n] + [log[n]] + log[n + 1..k];
    RunPid(log[..n], log[n], log[n + 1..k]);
  }

  /** Every fallback that ends the last execution run, if any, takes the place of a terminal of its
      own at the same instant. */
  ghost predicate HarmlessSteals(log: seq<Event>) {
    forall n: nat, k: nat :: SplitsAt(log, n) && n < k < |log| && Stolen(log, n, k) ==> SameInstant(log, n, k)
  }

  lemma {:induction false} AlikeByCases(full: seq<Event>, x: seq<Event>, s: Event, y: seq<Event>, dry: set<Pid>,
                                        base: seq<Event>)
    requires AddsDryRuns(full, dry, base) && DistinctStarts(base) && HarmlessSteals(base)
    requires full == x + [s] + y && ExecutionStart(s) && s.pid !in dry
    requires forall e :: e in KeepEvents(y, dry) ==> !ExecutionStart(e)
    ensures AlikeAt(x, s, y, dry)
  {
    var a, b := KeepEvents(x, dry), KeepEvents(y, dry);
    var n := |a|;
    KeepAround(x, s, y, dry);
    assert base == a + [s] + b;
    assert base[..n] == a && base[n] == s && base[n + 1..] == b;
    assert forall j :: n < j < |base| ==> base[j] in b;
    assert SplitsAt(base, n);
    hide Pair, KeepEvents, Shared, RunOf, Victims, DistinctStarts, Stolen, SameInstant, LooksAlike;
    if s.pid in Victims(base) {
      VictimIsStolen(base, n);
      var k :| n < k < |base| && Stolen(base, n, k);
      StolenIsAlike(full, x, s, y, dry, base, n, k);
    } else {
      SparedIsShared(x, s, y, dry);
      SharedLooksAlike(x, s, y, dry);
    }
  }

  lemma {:induction false} HarmlessIsSafe(full: seq<Event>, dry: set<Pid>, base: seq<Event>, c: Check)
    requires AddsDryRuns(full, dry, base) && DistinctStarts(base) && HarmlessSteals(base)
    requires forall e :: e in full && e.pid in dry ==> e.ts <= c.now + FUTURE_TOLERANCE
    ensures Validate(full, c).Ok? <==> Validate(base, c).Ok?
  {
    forall x, s, y | full == x + [s] + y && ExecutionStart(s) && s.pid !in dry &&
                     (forall e :: e in KeepEvents(y, dry) ==> !ExecutionStart(e))
      ensures AlikeAt(x, s, y, dry)
    {
      AlikeByCases(full, x, s, y, dry, base);
    }
    BaseIsSorted(full, dry, base);
    if full != [] && c.max_age > 0.0 && c.lookback > 0.0 && c.max_run > 0.0 {
      ValidateSorted(full, c);
      if base != [] {
        ValidateSorted(base, c);
      }
      hide Judge, Gather, DistinctStarts, HarmlessSteals;
      SortedVerdictsAgree(full, dry, c);
    }
  }

  lemma {:induction false} BaseIsSorted(full: seq<Event>, dry: set<Pid>, base: seq<Event>)
    requires AddsDryRuns(full, dry, base)
    ensures IsSorted(base)
    ensures full == [] ==> base == []
  {
    SortProjects(full, dry);
    SortedIsFixed(full);
    StableSortIsStable(base, 0.0);
  }

  /** Where no pid starts twice, some dry runs change some verdict if and only if a fallback ends the
      last execution run, and no terminal of its own would have ended it at the same instant. */
  lemma {:induction false} VerdictGuardIsExact(base: seq<Event>)
    requires IsSorted(base) && DistinctStarts(base)
    ensures HarmlessSteals(base) <==> !exists full, dry, c :: Interfere(full, dry, base, c)
  {
    if HarmlessSteals(base) {
      forall full, dry, c ensures !Interfere(full, dry, base, c) {
        if Interfere(full, dry, base, c) {
          HarmlessIsSafe(full, dry, base, c);
        }
      }
    } else {
      var n: nat, k: nat :| SplitsAt(base, n) && n < k < |base| && Stolen(base, n, k) && !SameInstant(base, n, k);
      StolenEndFlips(base, n, k);
    }
  }
}
