/** Which pairings dry runs can make of a log, and exactly when none of them changes a verdict. */
module DryRunOutcomes {
  // Seen from the other runs, all a dry run can do is to take a terminal without pid that would
  // have fallen back to one of them. The pairings that come of this are a finite set, computed
  // from the log without the dry runs. Process ids may be used again here.

  import opened Wrappers
  import opened LiveAudit
  import opened DryRuns
  import opened OrphanTerminals
  import opened DryRunVerdicts

  /** Each terminal that falls back does so, or is taken. */
  function Outcomes(log: seq<Event>): set<Ledger> {
    if log == [] then {Ledger([], [])}
    else
      var front, e := Outcomes(log[..|log| - 1]), log[|log| - 1];
      (set l | l in front :: Step(l, e)) + (set l | l in front && Orphan(l, e))
  }

  lemma {:induction false} OutcomesSnoc(log: seq<Event>, e: Event, l: Ledger)
    ensures l in Outcomes(log + [e]) <==>
            (exists m :: m in Outcomes(log) && l == Step(m, e)) || (l in Outcomes(log) && Orphan(l, e))
  {
    assert (log + [e])[..|log|] == log;
  }

  // ---------------------------------------------------- every pairing is an outcome

  /** A fallback either ends the run it would have ended without the dry runs, or none of those. */
  lemma {:induction false} FallbackProjects(l: Ledger, e: Event, dry: set<Pid>)
    requires None !in dry && e.pid !in dry && Orphan(Project(l, dry), e)
    ensures Project(Step(l, e), dry) == Step(Project(l, dry), e) || Project(Step(l, e), dry) == Project(l, dry)
  {
    KeepPidsMembers(l.open, dry);
    assert e.name != RunStarted;
    assert l.open != [] && None !in l.open;
    var p := l.open[|l.open| - 1];
    CloseLastProjects(l.runs, p, e, dry);
    RemoveProjects(l.open, p, dry);
    if p !in dry {
      LastKept(l.open, dry);
    }
  }

  lemma {:induction false} PairingIsOutcome(full: seq<Event>, dry: set<Pid>)
    requires None !in dry
    ensures Project(Pair(full), dry) in Outcomes(KeepEvents(full, dry))
  {
    if full != [] {
      var front, e := full[..|full| - 1], full[|full| - 1];
      assert full == front + [e];
      var l := Pair(front);
      hide Pair, Outcomes, Step, Project, KeepEvents;
      PairingIsOutcome(front, dry);
      PairLast(front, e);
      KeepEventsSnoc(front, e, dry);
      if e.pid in dry {
        StepProjects(l, e, dry);
      } else {
        OutcomesSnoc(KeepEvents(front, dry), e, Project(Step(l, e), dry));
        if Orphan(Project(l, dry), e) {
          FallbackProjects(l, e, dry);
        } else {
          StepProjects(l, e, dry);
        }
      }
    }
  }

  // ---------------------------------------------------- every outcome is a pairing

  /** The dry runs are over, and nothing but their starts was logged under their pids. */
  ghost predicate Realizes(full: seq<Event>, dry: set<Pid>, base: seq<Event>, l: Ledger) {
    && KeepEvents(full, dry) == base && IsSorted(full)
    && Project(Pair(full), dry) == l && Pair(full).open == l.open
    && (forall p :: p in l.open ==> p !in dry)
    && (forall e :: e in full && e.pid in dry ==> DryStart(e) && exists b :: b in base && b.ts == e.ts)
  }

  lemma {:induction false} RealizedInOrder(full: seq<Event>, dry: set<Pid>, base: seq<Event>, l: Ledger, e: Event)
    requires Realizes(full, dry, base, l) && IsSorted(base + [e])
    ensures forall x :: x in full ==> x.ts <= e.ts
  {
    KeepEventsMembers(full, dry);
    forall x | x in base ensures x.ts <= e.ts {
      var i :| 0 <= i < |base| && base[i] == x;
      assert (base + [e])[i] == x && (base + [e])[|base|] == e;
    }
    forall x | x in full ensures x.ts <= e.ts {
      assert x in base || x.pid in dry;
    }
  }

  /** A pairing none of whose open runs is dry takes the same step as the outcome. */
  lemma {:induction false} OutcomeStep(m: Ledger, dry: set<Pid>, l: Ledger, e: Event)
    requires Project(m, dry) == l && m.open == l.open && (forall p :: p in l.open ==> p !in dry) && e.pid !in dry
    ensures Project(Step(m, e), dry) == Step(l, e) && Step(m, e).open == Step(l, e).open
    ensures forall p :: p in Step(l, e).open ==> p !in dry
  {
    if e.name == RunStarted {
      KeepPidsSnoc(m.open, e.pid, dry);
      KeepRunsSnoc(m.runs, Run(e.pid, e.ts, Executes(e), None), dry);
    } else if IsTerminal(e) && Target(m.open, e.pid).Some? {
      var p := Target(m.open, e.pid).value;
      CloseLastProjects(m.runs, p, e, dry);
      RemoveProjects(m.open, p, dry);
      RemoveMembers(m.open, p);
    }
  }

  lemma {:induction false} RemoveMembers(open: seq<Pid>, p: Pid)
    ensures forall q :: q in Remove(open, p) ==> q in open
  {
    if open != [] {
      RemoveMembers(open[..|open| - 1], p);
    }
  }

  lemma {:induction false} OneLater(full: seq<Event>, e: Event)
    requires IsSorted(full) && forall x :: x in full ==> x.ts <= e.ts
    ensures IsSorted(full + [e])
  {
  }

  lemma {:induction false} RealizesStep(full: seq<Event>, dry: set<Pid>, base: seq<Event>, l: Ledger, e: Event)
    requires Realizes(full, dry, base, l) && IsSorted(base + [e]) && e.pid !in dry
    ensures Realizes(full + [e], dry, base + [e], Step(l, e))
  {
    hide Pair, KeepEvents, IsSorted, Step, Project;
    RealizedInOrder(full, dry, base, l, e);
    OneLater(full, e);
    KeepEventsSnoc(full, e, dry);
    PairLast(full, e);
    OutcomeStep(Pair(full), dry, l, e);
    forall x | x in full + [e] && x.pid in dry ensures DryStart(x) && exists b :: b in base + [e] && b.ts == x.ts {
      var b :| b in base && b.ts == x.ts;
      assert b in base + [e];
    }
  }

  /** A dry start right before a fallback takes it. */
  lemma {:induction false} DryRunTakes(m: Ledger, dry: set<Pid>, l: Ledger, e: Event, s: Event)
    requires Project(m, dry) == l && m.open == l.open && (forall p :: p in l.open ==> p !in dry)
    requires Orphan(l, e) && DryStart(s) && s.pid in dry && s.pid.Some?
    ensures var r := Step(Step(m, s), e); Project(r, dry) == l && r.open == l.open
  {
    var p := s.pid;
    var q := Step(m, s);
    assert q == Ledger(m.runs + [Run(p, s.ts, Executes(s), None)], m.open + [p]);
    assert Step(q, e) == Ledger(CloseLast(q.runs, p, e), Remove(q.open, p));
    hide Step, Orphan, Target;
    KeepRunsSnoc(m.runs, Run(p, s.ts, Executes(s), None), dry);
    CloseLastProjects(q.runs, p, e, dry);
    RemoveSnoc(m.open, p, p);
    RemoveIfAbsent(m.open, p);
  }

  lemma {:induction false} RealizesTaking(full: seq<Event>, dry: set<Pid>, base: seq<Event>, l: Ledger, e: Event,
                                          s: Event)
    requires Realizes(full, dry, base, l) && IsSorted(base + [e]) && e.pid !in dry && Orphan(l, e)
    requires DryStart(s) && s.pid in dry && s.pid.Some? && s.ts == e.ts
    ensures Realizes(full + [s] + [e], dry, base + [e], l)
  {
    hide Pair, KeepEvents, IsSorted, Step, Project, Orphan;
    RealizedInOrder(full, dry, base, l, e);
    OneLater(full, s);
    OneLater(full + [s], e);
    KeepEventsSnoc(full, s, dry);
    KeepEventsSnoc(full + [s], e, dry);
    PairLast(full, s);
    PairLast(full + [s], e);
    DryRunTakes(Pair(full), dry, l, e, s);
    var more := base + [e];
    forall x | x in full + [s] + [e] && x.pid in dry ensures DryStart(x) && exists b :: b in more && b.ts == x.ts {
      if x in full {
        var b :| b in base && b.ts == x.ts;
        assert b in more;
      } else {
        assert e in more;
      }
    }
  }

  lemma {:induction false} NothingIsRealized(dry: set<Pid>, l: Ledger)
    requires l in Outcomes([])
    ensures Realizes([], dry, [], l)
  {
  }

  lemma {:induction false} SortedFront(front: seq<Event>, e: Event)
    requires IsSorted(front + [e])
    ensures IsSorted(front)
  {
    forall i, j | 0 <= i < j < |front| ensures front[i].ts <= front[j].ts {
      assert (front + [e])[i] == front[i] && (front + [e])[j] == front[j];
    }
  }

  lemma {:induction false} OutcomeIsPairing(base: seq<Event>, l: Ledger, first: int, most: nat)
      returns (full: seq<Event>)
    requires IsSorted(base) && l in Outcomes(base) && |base| <= most
    requires forall e :: e in base && e.pid.Some? ==> e.pid.value < first
    ensures Realizes(full, PidsFrom(first, most), base, l)
  {
    hide Realizes, Outcomes, Step, Orphan, IsSorted;
    if base == [] {
      full := [];
      NothingIsRealized(PidsFrom(first, most), l);
    } else {
      var n, dry := |base| - 1, PidsFrom(first, most);
      var front, e := base[..n], base[n];
      assert base == front + [e];
      SortedFront(front, e);
      OutcomesSnoc(front, e, l);
      if m :| m in Outcomes(front) && l == Step(m, e) {
        full := OutcomeIsPairing(front, m, first, most);
        RealizesStep(full, dry, front, m, e);
        full := full + [e];
      } else {
        full := OutcomeIsPairing(front, l, first, most);
        var s := Event(RunStarted, Some(first + n), Some(false), e.ts);
        RealizesTaking(full, dry, front, l, e, s);
        full := full + [s] + [e];
      }
    }
  }

  lemma {:induction false} RealizedAdds(full: seq<Event>, dry: set<Pid>, base: seq<Event>, l: Ledger)
    requires Realizes(full, dry, base, l) && None !in dry
    ensures AddsDryRuns(full, dry, base)
  {
    assert forall e :: e in full && e.pid in dry ==> e.name == RunStarted && !Executes(e) && !IsCritical(e);
  }

  /** The pairings that dry runs can make of a log, as seen by the other runs, are its outcomes. */
  lemma {:induction false} OutcomesAreExact(base: seq<Event>, l: Ledger)
    requires IsSorted(base)
    ensures l in Outcomes(base) <==>
            exists full, dry :: AddsDryRuns(full, dry, base) && Project(Pair(full), dry) == l
  {
    if l in Outcomes(base) {
      var first := AbovePids(base);
      var full := OutcomeIsPairing(base, l, first, |base|);
      RealizedAdds(full, PidsFrom(first, |base|), base, l);
    }
    if full, dry :| AddsDryRuns(full, dry, base) && Project(Pair(full), dry) == l {
      PairingIsOutcome(full, dry);
    }
  }

  // ------------------------------------------------------------------ the verdict

  /** What the check judges is the same in both. */
  ghost predicate SameLastRun(l: Ledger, m: Ledger) {
    var x, y := Executions(l.runs), Executions(m.runs);
    && (x == [] <==> y == [])
    && (x != [] ==> LooksAlike(x[|x| - 1], y[|y| - 1]))
  }

  /** However the terminals without pid fall back, the last execution run looks the same. */
  ghost predicate OneVerdict(base: seq<Event>) {
    forall l :: l in Outcomes(base) ==> SameLastRun(l, Pair(base))
  }

  lemma {:induction false} DryRunsNeverExecute(full: seq<Event>, dry: set<Pid>)
    requires DryTraffic(full, dry)
    ensures Executions(Pair(full).runs) == Executions(Project(Pair(full), dry).runs)
  {
    RunsAreWitnessed(full);
    forall r | r in Pair(full).runs && r.pid in dry ensures !r.execute {
      var s :| StartOf(full, r, s);
      assert s in full && s.name == RunStarted;
    }
    ExecutionsProject(Pair(full).runs, dry);
  }

  lemma {:induction false} LastRunsAgree(full: seq<Event>, dry: set<Pid>, base: seq<Event>)
    requires AddsDryRuns(full, dry, base) && OneVerdict(base)
    ensures SameLastRun(Pair(full), Pair(base))
  {
    hide Outcomes, Pair, Executions, LooksAlike;
    PairingIsOutcome(full, dry);
    DryRunsNeverExecute(full, dry);
  }

  lemma {:induction false} EvidenceAgrees(full: seq<Event>, base: seq<Event>, c: Check)
    requires full != [] && base != [] && SameLastRun(Pair(full), Pair(base))
    requires Gather(full, c).critical == Gather(base, c).critical
    requires Gather(full, c).latest.ts > c.now + FUTURE_TOLERANCE <==>
             Gather(base, c).latest.ts > c.now + FUTURE_TOLERANCE
    ensures SameJudgement(Judge(Gather(full, c), c), Judge(Gather(base, c), c))
  {
    hide Judge, Gather, Pair, Executions, CriticalEvents, LooksAlike, SameJudgement;
    GatherOf(full, c);
    GatherOf(base, c);
    JudgementsAgree(Gather(full, c), Gather(base, c), c);
  }

  lemma {:induction false} OneVerdictInOrder(full: seq<Event>, dry: set<Pid>, base: seq<Event>, c: Check)
    requires AddsDryRuns(full, dry, base) && OneVerdict(base) && full != []
    requires forall e :: e in full && e.pid in dry ==> e.ts <= c.now + FUTURE_TOLERANCE
    ensures if base == [] then Judge(Gather(full, c), c).Err?
            else SameJudgement(Judge(Gather(full, c), c), Judge(Gather(base, c), c))
  {
    hide Judge, Gather, Pair, Executions, CriticalEvents, LooksAlike, SameJudgement, OneVerdict, DryTraffic, IsSorted;
    hide KeepEvents;
    LastRunsAgree(full, dry, base);
    if base != [] {
      SurroundingsAgree(full, base, dry, c);
      EvidenceAgrees(full, base, c);
    } else {
      NoExecutionFails(full, dry, c);
    }
  }

  /** Then dry runs change neither the verdict, nor the reason, age or pid, of any log. */
  lemma {:induction false} OneVerdictIsSafe(log: seq<Event>, dry: set<Pid>, c: Check)
    requires DryTraffic(log, dry) && OneVerdict(StableSort(KeepEvents(log, dry)))
    requires forall e :: e in log && e.pid in dry ==> e.ts <= c.now + FUTURE_TOLERANCE
    ensures Validate(log, c).Ok? <==> Validate(KeepEvents(log, dry), c).Ok?
    ensures KeepEvents(log, dry) != [] ==> SameJudgement(Validate(log, c), Validate(KeepEvents(log, dry), c))
  {
    hide OneVerdict, Gather, Judge;
    if log != [] {
      var full := StableSort(log);
      SortProjects(log, dry);
      SortKeepsMembers(log);
      StableSortIsStable(log, 0.0);
      DryTrafficSorts(log, dry);
      OneVerdictInOrder(full, dry, StableSort(KeepEvents(log, dry)), c);
    }
  }

  // ------------------------------------------------------ an outcome that differs

  /** The same runs, whatever ended them. */
  ghost predicate SameStarts(a: seq<Run>, b: seq<Run>) {
    |a| == |b| && forall i :: 0 <= i < |a| ==> a[i].(terminal := None) == b[i].(terminal := None)
  }

  lemma {:induction false} StepKeepsStarts(l: Ledger, m: Ledger, e: Event)
    requires SameStarts(l.runs, m.runs)
    ensures SameStarts(Step(l, e).runs, Step(m, e).runs)
    ensures Orphan(l, e) ==> SameStarts(l.runs, Step(m, e).runs)
  {
    StepKeepsIdentity(l, e);
    StepKeepsIdentity(m, e);
    assert e.name == RunStarted <==> |Step(l, e).runs| == |l.runs| + 1;
    assert e.name == RunStarted <==> |Step(m, e).runs| == |m.runs| + 1;
    hide Step, Orphan;
    forall i | 0 <= i < |Step(l, e).runs|
      ensures Step(l, e).runs[i].(terminal := None) == Step(m, e).runs[i].(terminal := None)
    {
      if i < |l.runs| {
        assert l.runs[i].(terminal := None) == m.runs[i].(terminal := None);
      }
    }
  }

  lemma {:induction false} OutcomesShareStarts(base: seq<Event>, l: Ledger)
    requires l in Outcomes(base)
    ensures SameStarts(l.runs, Pair(base).runs)
  {
    if base != [] {
      var front, e := base[..|base| - 1], base[|base| - 1];
      assert base == front + [e];
      OutcomesSnoc(front, e, l);
      PairLast(front, e);
      hide Outcomes, Pair, Step, SameStarts, Orphan;
      if m :| m in Outcomes(front) && l == Step(m, e) {
        OutcomesShareStarts(front, m);
        StepKeepsStarts(m, Pair(front), e);
      } else {
        OutcomesShareStarts(front, l);
        StepKeepsStarts(l, Pair(front), e);
      }
    }
  }

  lemma {:induction false} ExecutionsShareStarts(a: seq<Run>, b: seq<Run>)
    requires SameStarts(a, b)
    ensures SameStarts(Executions(a), Executions(b))
  {
    if a != [] {
      ExecutionsShareStarts(a[..|a| - 1], b[..|b| - 1]);
      assert a[|a| - 1].(terminal := None) == b[|b| - 1].(terminal := None);
    }
  }

  lemma {:induction false} RunIsPast(log: seq<Event>, r: Run, limit: real)
    requires r in Executions(Pair(log).runs) && forall e :: e in log ==> e.ts < limit
    ensures r.started < limit && LastActivity(r) < limit
  {
    ExecutionsMembers(Pair(log).runs);
    RunsAreWitnessed(log);
    assert Witnessed(log, r);
    var s :| StartOf(log, r, s);
  }

  /** A check that accepts one of two ends of a run and rejects the other. */
  function Splitting(now: real, x: Run, y: Run): Check {
    var a, b := LastActivity(x), LastActivity(y);
    Check(now, now - (if a >= b then a else b), 0.5, now - x.started + 1.0, if a == b then {x.pid} else {})
  }

  lemma {:induction false} SplittingTells(now: real, x: Run, y: Run, p: Event, q: Event)
    requires x.(terminal := None) == y.(terminal := None) && !LooksAlike(x, y)
    requires x.started < now && LastActivity(x) < now && LastActivity(y) < now
    ensures var c := Splitting(now, x, y);
            && c.max_age > 0.0 && c.lookback == 0.5 && c.max_run > 0.0 && c.now == now
            && (JudgeRun(p, x, c).Ok? <==> JudgeRun(q, y, c).Err?)
  {
  }

  /** A check whose critical window is behind every event looks at the last execution run alone. */
  lemma {:induction false} JudgesLastRun(log: seq<Event>, c: Check)
    requires IsSorted(log) && log != [] && forall e :: e in log ==> e.ts < c.now - c.lookback
    requires c.max_age > 0.0 && c.lookback > 0.0 && c.max_run > 0.0
    ensures var x := Executions(Pair(log).runs);
            x != [] ==> Validate(log, c) == JudgeRun(log[|log| - 1], x[|x| - 1], c)
  {
    hide Pair, Executions, JudgeRun, Judge, Gather, CriticalEvents, Validate, IsSorted;
    assert log[|log| - 1] in log;
    ValidateSorted(log, c);
    NothingCritical(log, c);
    GatherOf(log, c);
    if Executions(Pair(log).runs) != [] {
      CalmJudgement(Gather(log, c), c);
    }
  }

  lemma {:induction false} RealizedIsPast(full: seq<Event>, dry: set<Pid>, base: seq<Event>, l: Ledger, limit: real)
    requires Realizes(full, dry, base, l) && forall e :: e in base ==> e.ts < limit
    ensures forall e :: e in full ==> e.ts < limit
    ensures base != [] ==> full != []
  {
    KeepEventsMembers(full, dry);
    forall e | e in full ensures e.ts < limit {
      assert e.pid !in dry ==> e in base;
    }
  }

  lemma {:induction false} SortedIsPast(base: seq<Event>)
    requires IsSorted(base) && base != []
    ensures forall e :: e in base ==> e.ts < base[|base| - 1].ts + 0.5
  {
  }

  lemma {:induction false} LastRunsDiffer(base: seq<Event>, l: Ledger)
    requires l in Outcomes(base) && !SameLastRun(l, Pair(base))
    ensures var xs, ys := Executions(l.runs), Executions(Pair(base).runs);
            && base != [] && xs != [] && ys != []
            && xs[|xs| - 1].(terminal := None) == ys[|ys| - 1].(terminal := None)
            && !LooksAlike(xs[|xs| - 1], ys[|ys| - 1])
  {
    OutcomesShareStarts(base, l);
    ExecutionsShareStarts(l.runs, Pair(base).runs);
    hide LooksAlike, Executions;
    var xs, ys := Executions(l.runs), Executions(Pair(base).runs);
    assert |xs| == |ys|;
  }

  lemma {:induction false} RealizedLedger(full: seq<Event>, dry: set<Pid>, base: seq<Event>, l: Ledger)
    requires Realizes(full, dry, base, l)
    ensures Project(Pair(full), dry) == l && IsSorted(full)
  {
  }

  lemma {:induction false} RealizedTraffic(full: seq<Event>, dry: set<Pid>, base: seq<Event>)
    requires AddsDryRuns(full, dry, base)
    ensures DryTraffic(full, dry)
  {
  }

  lemma {:induction false} DifferentOutcomeFlips(base: seq<Event>, l: Ledger)
    requires IsSorted(base) && l in Outcomes(base) && !SameLastRun(l, Pair(base))
    ensures exists full, dry, c :: Interfere(full, dry, base, c)
  {
    hide Outcomes, Pair, Executions, Realizes, PidsFrom, AbovePids, IsSorted, AddsDryRuns, LooksAlike, SameLastRun;
    hide Splitting, JudgeRun, Validate;
    LastRunsDiffer(base, l);
    var dry, now := PidsFrom(AbovePids(base), |base|), base[|base| - 1].ts + 1.0;
    var full := OutcomeIsPairing(base, l, AbovePids(base), |base|);
    RealizedAdds(full, dry, base, l);
    RealizedLedger(full, dry, base, l);
    SortedIsPast(base);
    RealizedIsPast(full, dry, base, l, now - 0.5);
    RealizedTraffic(full, dry, base);
    DryRunsNeverExecute(full, dry);
    var xs, ys := Executions(Pair(full).runs), Executions(Pair(base).runs);
    var x, y := xs[|xs| - 1], ys[|ys| - 1];
    var c := Splitting(now, x, y);
    RunIsPast(full, x, now);
    RunIsPast(base, y, now);
    SplittingTells(now, x, y, full[|full| - 1], base[|base| - 1]);
    JudgesLastRun(full, c);
    JudgesLastRun(base, c);
    assert Interfere(full, dry, base, c);
  }

  /** Some dry runs change some verdict if and only if the terminals without pid, falling back or
      taken, can make the last execution run look different. */
  lemma {:induction false} VerdictIsDecided(base: seq<Event>)
    requires IsSorted(base)
    ensures OneVerdict(base) <==> !exists full, dry, c :: Interfere(full, dry, base, c)
  {
    if OneVerdict(base) {
      forall full, dry, c ensures !Interfere(full, dry, base, c) {
        if Interfere(full, dry, base, c) {
          SortedIsFixed(base);
          OneVerdictIsSafe(full, dry, c);
        }
      }
    } else {
      var l :| l in Outcomes(base) && !SameLastRun(l, Pair(base));
      DifferentOutcomeFlips(base, l);
    }
  }

  /** Where no process id starts twice, the one pairing of the log itself decides it. */
  lemma {:induction false} DistinctStartsNeedOneLook(base: seq<Event>)
    requires IsSorted(base) && DistinctStarts(base)
    ensures OneVerdict(base) <==> HarmlessSteals(base)
  {
    VerdictIsDecided(base);
    VerdictGuardIsExact(base);
  }

  // ---------------------------------------------------- why one look is not enough

  const FIRST := Event(RunStarted, Some(7), Some(false), 0.0)
  const FIRST_STOP := Event(RunCompleted, None, None, 1.0)
  const LIVE := Event(RunStarted, Some(2), Some(true), 2.0)
  const AGAIN := Event(RunStarted, Some(7), Some(false), 3.0)
  const LAST_STOP := Event(RunCompleted, None, None, 4.0)

  function RunBy(e: Event): Run {
    Run(e.pid, e.ts, Executes(e), None)
  }

  const TAKEN1 := Ledger([RunBy(FIRST)], [Some(7)])
  const TAKEN2 := Ledger([RunBy(FIRST)] + [RunBy(LIVE)], [Some(7)] + [Some(2)])
  const TAKEN3 := Ledger([RunBy(FIRST)] + [RunBy(LIVE)] + [RunBy(AGAIN)], [Some(7)] + [Some(2)])
  const TAKEN4 := Ledger([RunBy(FIRST)] + [RunBy(LIVE).(terminal := Some(LAST_STOP))] + [RunBy(AGAIN)], [Some(7)])

  /** Two keys in the dictionary; the newest is popped. */
  lemma {:induction false} PopsNewest(runs: seq<Run>, r: Run, s: Run, p: Pid, q: Pid, e: Event)
    requires p != q && q.Some? && p.Some? && r.pid == p && s.pid == q && IsTerminal(e) && e.pid.None?
    ensures Step(Ledger(runs + [r] + [s], [p] + [q]), e) ==
            Ledger(runs + [r] + [s.(terminal := Some(e))], [p])
    ensures Step(Ledger(runs + [r] + [s], [q] + [p]), e) ==
            Ledger(runs + [r.(terminal := Some(e))] + [s], [q])
  {
    PopsLast(runs + [r] + [s], p, q, e);
    PopsLast(runs + [r] + [s], q, p, e);
    hide Step, CloseLast;
    CloseLastSnoc(runs + [r], s, q, e);
    CloseLastSnoc(runs + [r], s, p, e);
    CloseLastSnoc(runs, r, p, e);
  }

  lemma {:induction false} PopsLast(runs: seq<Run>, p: Pid, q: Pid, e: Event)
    requires p != q && q.Some? && p.Some? && IsTerminal(e) && e.pid.None?
    ensures Step(Ledger(runs, [p] + [q]), e) == Ledger(CloseLast(runs, q, e), [p])
  {
    RemoveSnoc([p], q, q);
    RemoveAbsent([p], q);
  }

  lemma {:induction false} EmptyPairing()
    ensures Pair([]) == Ledger([], [])
  {
  }

  lemma {:induction false} ReuseStepsAlone()
    ensures var done := RunBy(FIRST).(terminal := Some(FIRST_STOP));
            && Step(Ledger([], []), FIRST) == TAKEN1 && Step(TAKEN1, FIRST_STOP) == Ledger([done], [])
            && Step(Ledger([done], []), LIVE) == Ledger([done] + [RunBy(LIVE)], [Some(2)])
            && Step(Ledger([done] + [RunBy(LIVE)], [Some(2)]), AGAIN) ==
               Ledger([done] + [RunBy(LIVE)] + [RunBy(AGAIN)], [Some(2)] + [Some(7)])
  {
  }

  /** The log by itself: the second fallback ends the second run of pid 7. */
  lemma {:induction false} ReusePairing()
    ensures Pair([FIRST, FIRST_STOP]).runs == [RunBy(FIRST).(terminal := Some(FIRST_STOP))]
    ensures Pair([FIRST, FIRST_STOP, LIVE, AGAIN]) ==
            Ledger([RunBy(FIRST).(terminal := Some(FIRST_STOP))] + [RunBy(LIVE)] + [RunBy(AGAIN)],
                   [Some(2)] + [Some(7)])
  {
    hide Pair, Step, Executes, IsTerminal;
    var none: seq<Event> := [];
    ReuseStepsAlone();
    EmptyPairing();
    assert none + [FIRST] == [FIRST] && [FIRST] + [FIRST_STOP] == [FIRST, FIRST_STOP];
    assert [FIRST, FIRST_STOP] + [LIVE] == [FIRST, FIRST_STOP, LIVE];
    assert [FIRST, FIRST_STOP, LIVE] + [AGAIN] == [FIRST, FIRST_STOP, LIVE, AGAIN];
    PairLast(none, FIRST);
    PairLast([FIRST], FIRST_STOP);
    PairLast([FIRST, FIRST_STOP], LIVE);
    PairLast([FIRST, FIRST_STOP, LIVE], AGAIN);
  }

  lemma {:induction false} ReuseSteps()
    ensures Step(Ledger([], []), FIRST) == TAKEN1 && Orphan(TAKEN1, FIRST_STOP)
    ensures Step(TAKEN1, LIVE) == TAKEN2 && Step(TAKEN2, AGAIN) == TAKEN3 && Step(TAKEN3, LAST_STOP) == TAKEN4
  {
    PopsNewest([RunBy(FIRST)], RunBy(LIVE), RunBy(AGAIN), Some(2), Some(7), LAST_STOP);
  }

  lemma {:induction false} NoEventsYet()
    ensures Ledger([], []) in Outcomes([])
  {
  }

  /** With the first fallback taken, key 7 keeps its old place, and the second fallback ends run 2. */
  lemma {:induction false} ReuseOutcome()
    ensures TAKEN4 in Outcomes([FIRST, FIRST_STOP, LIVE, AGAIN, LAST_STOP])
  {
    hide Outcomes, Step, Orphan;
    var none: seq<Event> := [];
    ReuseSteps();
    NoEventsYet();
    OutcomesSnoc(none, FIRST, TAKEN1);
    assert none + [FIRST] == [FIRST] && [FIRST] + [FIRST_STOP] == [FIRST, FIRST_STOP];
    OutcomesSnoc([FIRST], FIRST_STOP, TAKEN1);
    assert [FIRST, FIRST_STOP] + [LIVE] == [FIRST, FIRST_STOP, LIVE];
    OutcomesSnoc([FIRST, FIRST_STOP], LIVE, TAKEN2);
    assert [FIRST, FIRST_STOP, LIVE] + [AGAIN] == [FIRST, FIRST_STOP, LIVE, AGAIN];
    OutcomesSnoc([FIRST, FIRST_STOP, LIVE], AGAIN, TAKEN3);
    assert [FIRST, FIRST_STOP, LIVE, AGAIN] + [LAST_STOP] == [FIRST, FIRST_STOP, LIVE, AGAIN, LAST_STOP];
    OutcomesSnoc([FIRST, FIRST_STOP, LIVE, AGAIN], LAST_STOP, TAKEN4);
  }

  lemma {:induction false} OneLive(a: Run, x: Run, b: Run)
    requires !a.execute && x.execute && !b.execute
    ensures Executions([a] + [x] + [b]) == [x]
  {
    var abx := [a] + [x] + [b];
    assert abx[..2] == [a] + [x] && ([a] + [x])[..1] == [a];
    assert Executions([a]) == Executions([]) by {
      assert [a][..0] == [];
    }
    assert Executions([a] + [x]) == [x];
  }

  lemma {:induction false} NoSteal()
    ensures HarmlessSteals([FIRST, FIRST_STOP, LIVE, AGAIN, LAST_STOP])
  {
    var log := [FIRST, FIRST_STOP, LIVE, AGAIN, LAST_STOP];
    ReusePairing();
    forall n: nat, k: nat | SplitsAt(log, n) && n < k < |log| ensures !Stolen(log, n, k) {
      assert n == 2;
      assert log[..2] == [FIRST, FIRST_STOP] && log[..4] == [FIRST, FIRST_STOP, LIVE, AGAIN];
    }
  }

  /** The judged runs differ: in one pairing the execution run is over, in the other it is not. */
  lemma {:induction false} ReuseDiffers()
    ensures !SameLastRun(TAKEN4, Pair([FIRST, FIRST_STOP, LIVE, AGAIN, LAST_STOP]))
  {
    var first, again := RunBy(FIRST).(terminal := Some(FIRST_STOP)), RunBy(AGAIN).(terminal := Some(LAST_STOP));
    ReusePairing();
    PairLast([FIRST, FIRST_STOP, LIVE, AGAIN], LAST_STOP);
    assert [FIRST, FIRST_STOP, LIVE, AGAIN] + [LAST_STOP] == [FIRST, FIRST_STOP, LIVE, AGAIN, LAST_STOP];
    PopsNewest([first], RunBy(LIVE), RunBy(AGAIN), Some(2), Some(7), LAST_STOP);
    hide Pair, Step, Executions;
    OneLive(RunBy(FIRST), RunBy(LIVE).(terminal := Some(LAST_STOP)), RunBy(AGAIN));
    OneLive(first, RunBy(LIVE), again);
    assert TAKEN4.runs == [RunBy(FIRST)] + [RunBy(LIVE).(terminal := Some(LAST_STOP))] + [RunBy(AGAIN)];
  }

  lemma {:induction false} ReuseShape()
    ensures var log := [FIRST, FIRST_STOP, LIVE, AGAIN, LAST_STOP]; IsSorted(log) && !DistinctStarts(log)
  {
    var log := [FIRST, FIRST_STOP, LIVE, AGAIN, LAST_STOP];
    assert log[0].pid == log[3].pid;
  }

  /** With a process id used again the pairing of the log itself does not decide it: no fallback of
      this log ends its execution run, and dry runs change the verdict all the same. */
  lemma {:induction false} ReusedPidNeedsOutcomes()
    ensures var log := [FIRST, FIRST_STOP, LIVE, AGAIN, LAST_STOP];
            && IsSorted(log) && HarmlessSteals(log) && !DistinctStarts(log)
            && exists full, dry, c :: Interfere(full, dry, log, c)
  {
    hide HarmlessSteals, Outcomes, Pair, Interfere, Step, SameLastRun, IsSorted, DistinctStarts;
    ReuseShape();
    NoSteal();
    ReuseOutcome();
    ReuseDiffers();
    DifferentOutcomeFlips([FIRST, FIRST_STOP, LIVE, AGAIN, LAST_STOP], TAKEN4);
  }
}
