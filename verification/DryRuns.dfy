/** When do dry runs leave the health check alone? */
module DryRuns {
  // Dry runs share the audit log with execution runs.
  // The log is projected onto the process ids outside a set `dry`; the fold that pairs runs
  // commutes with that projection exactly as long as no terminal event without a pid has to
  // guess which open run it ends.

  import opened Wrappers
  import opened LiveAudit

  function KeepEvents(log: seq<Event>, dry: set<Pid>): seq<Event> {
    if log == [] then []
    else
      var n := |log| - 1;
      if log[n].pid in dry then KeepEvents(log[..n], dry) else KeepEvents(log[..n], dry) + [log[n]]
  }

  function KeepRuns(runs: seq<Run>, dry: set<Pid>): seq<Run> {
    if runs == [] then []
    else
      var n := |runs| - 1;
      if runs[n].pid in dry then KeepRuns(runs[..n], dry) else KeepRuns(runs[..n], dry) + [runs[n]]
  }

  function KeepPids(open: seq<Pid>, dry: set<Pid>): seq<Pid> {
    if open == [] then []
    else
      var n := |open| - 1;
      if open[n] in dry then KeepPids(open[..n], dry) else KeepPids(open[..n], dry) + [open[n]]
  }

  function Project(l: Ledger, dry: set<Pid>): Ledger {
    Ledger(KeepRuns(l.runs, dry), KeepPids(l.open, dry))
  }

  /** Everything logged under the pids `dry` comes from dry runs whose start is in the log. */
  ghost predicate DryTraffic(log: seq<Event>, dry: set<Pid>) {
    && None !in dry
    && (forall e :: e in log && e.pid in dry && e.name == RunStarted ==> !Executes(e))
    && (forall e {:trigger IsCritical(e)} :: e in log && e.pid in dry && IsCritical(e) ==>
                      exists s :: s in log && s.name == RunStarted && s.pid == e.pid)
  }

  /** The guard of the fallback branch: a terminal without pid that must pick some open run. */
  predicate Orphan(l: Ledger, e: Event) {
    IsTerminal(e) && e.pid.None? && None !in l.open && l.open != []
  }

  predicate OrphanFree(log: seq<Event>) {
    forall k :: 0 <= k < |log| ==> !Orphan(Pair(log[..k]), log[k])
  }

  // ---------------------------------------------- the projection is a homomorphism

  lemma {:induction false} KeepPidsMembers(open: seq<Pid>, dry: set<Pid>)
    ensures forall p :: p in KeepPids(open, dry) <==> p in open && p !in dry
  {
    if open != [] {
      KeepPidsMembers(open[..|open| - 1], dry);
      assert open == open[..|open| - 1] + [open[|open| - 1]];
    }
  }

  lemma {:induction false} KeepPidsSnoc(open: seq<Pid>, p: Pid, dry: set<Pid>)
    ensures KeepPids(open + [p], dry) == if p in dry then KeepPids(open, dry) else KeepPids(open, dry) + [p]
  {
  }

  lemma {:induction false} KeepRunsSnoc(runs: seq<Run>, r: Run, dry: set<Pid>)
    ensures KeepRuns(runs + [r], dry) == if r.pid in dry then KeepRuns(runs, dry) else KeepRuns(runs, dry) + [r]
  {
  }

  lemma {:induction false} KeepEventsSnoc(log: seq<Event>, e: Event, dry: set<Pid>)
    ensures KeepEvents(log + [e], dry) == if e.pid in dry then KeepEvents(log, dry) else KeepEvents(log, dry) + [e]
  {
  }

  lemma {:induction false} RemoveSnoc(open: seq<Pid>, q: Pid, p: Pid)
    ensures Remove(open + [q], p) == if q == p then Remove(open, p) else Remove(open, p) + [q]
  {
  }

  lemma {:induction false} CloseLastSnoc(runs: seq<Run>, r: Run, p: Pid, e: Event)
    ensures CloseLast(runs + [r], p, e) ==
            if r.pid == p then runs + [r.(terminal := Some(e))] else CloseLast(runs, p, e) + [r]
  {
  }

  lemma {:induction false} RemoveProjects(open: seq<Pid>, p: Pid, dry: set<Pid>)
    ensures KeepPids(Remove(open, p), dry) ==
            if p in dry then KeepPids(open, dry) else Remove(KeepPids(open, dry), p)
  {
    if open != [] {
      var front, q := open[..|open| - 1], open[|open| - 1];
      RemoveProjects(front, p, dry);
      KeepPidsSnoc(Remove(front, p), q, dry);
      RemoveSnoc(KeepPids(front, dry), q, p);
    }
  }

  lemma {:induction false} CloseLastProjects(runs: seq<Run>, p: Pid, e: Event, dry: set<Pid>)
    ensures KeepRuns(CloseLast(runs, p, e), dry) ==
            if p in dry then KeepRuns(runs, dry) else CloseLast(KeepRuns(runs, dry), p, e)
  {
    if runs != [] {
      var front, r := runs[..|runs| - 1], runs[|runs| - 1];
      CloseLastProjects(front, p, e, dry);
      KeepRunsSnoc(front, r.(terminal := Some(e)), dry);
      KeepRunsSnoc(CloseLast(front, p, e), r, dry);
      CloseLastSnoc(KeepRuns(front, dry), r, p, e);
    }
  }

  lemma {:induction false} StepProjects(l: Ledger, e: Event, dry: set<Pid>)
    requires None !in dry
    requires e.pid in dry || !Orphan(Project(l, dry), e)
    ensures Project(Step(l, e), dry) == if e.pid in dry then Project(l, dry) else Step(Project(l, dry), e)
  {
    KeepPidsMembers(l.open, dry);
    if e.name == RunStarted {
      KeepPidsSnoc(l.open, e.pid, dry);
      KeepRunsSnoc(l.runs, Run(e.pid, e.ts, Executes(e), None), dry);
    } else if IsTerminal(e) && Target(l.open, e.pid).Some? {
      var p := Target(l.open, e.pid).value;
      CloseLastProjects(l.runs, p, e, dry);
      RemoveProjects(l.open, p, dry);
      TargetProjects(l.open, e, dry, p);
    }
  }

  lemma {:induction false} TargetProjects(open: seq<Pid>, e: Event, dry: set<Pid>, p: Pid)
    requires None !in dry && Target(open, e.pid) == Some(p)
    requires e.pid in dry || e.pid.Some? || None in KeepPids(open, dry) || KeepPids(open, dry) == []
    ensures e.pid in dry ==> p in dry
    ensures e.pid !in dry ==> Target(KeepPids(open, dry), e.pid) == if p in dry then None else Some(p)
  {
    KeepPidsMembers(open, dry);
  }

  lemma {:induction false} OrphanFreePrefix(log: seq<Event>, n: nat)
    requires OrphanFree(log) && n <= |log|
    ensures OrphanFree(log[..n])
  {
    forall k | 0 <= k < n ensures !Orphan(Pair(log[..n][..k]), log[..n][k]) {
      assert log[..n][..k] == log[..k];
    }
  }

  lemma {:induction false} PairProjects(log: seq<Event>, dry: set<Pid>)
    requires None !in dry && OrphanFree(KeepEvents(log, dry))
    ensures Project(Pair(log), dry) == Pair(KeepEvents(log, dry))
  {
    if log != [] {
      var n := |log| - 1;
      var base, front := KeepEvents(log, dry), KeepEvents(log[..n], dry);
      if log[n].pid in dry {
        assert base == front;
        PairProjects(log[..n], dry);
      } else {
        assert base[..|base| - 1] == front;
        OrphanFreePrefix(base, |base| - 1);
        PairProjects(log[..n], dry);
        assert !Orphan(Pair(base[..|base| - 1]), base[|base| - 1]);
      }
      StepProjects(Pair(log[..n]), log[n], dry);
    }
  }

  // ------------------------------------------------------- sorting and selection

  lemma {:induction false} KeepEventsMembers(log: seq<Event>, dry: set<Pid>)
    ensures forall e :: e in KeepEvents(log, dry) <==> e in log && e.pid !in dry
  {
    if log != [] {
      var n := |log| - 1;
      KeepEventsMembers(log[..n], dry);
      assert log == log[..n] + [log[n]];
    }
  }

  lemma {:induction false} InsertSnoc(s: seq<Event>, x: Event, e: Event)
    ensures Insert(s + [x], e) == if x.ts <= e.ts then s + [x] + [e] else Insert(s, e) + [x]
  {
  }

  lemma {:induction false} InsertLast(s: seq<Event>, e: Event)
    requires forall x :: x in s ==> x.ts <= e.ts
    ensures Insert(s, e) == s + [e]
  {
  }

  lemma {:induction false} InsertProjects(s: seq<Event>, e: Event, dry: set<Pid>)
    requires IsSorted(s)
    ensures KeepEvents(Insert(s, e), dry) ==
            if e.pid in dry then KeepEvents(s, dry) else Insert(KeepEvents(s, dry), e)
  {
    if s == [] || s[|s| - 1].ts <= e.ts {
      KeepEventsSnoc(s, e, dry);
      KeepEventsMembers(s, dry);
      InsertLast(KeepEvents(s, dry), e);
    } else {
      var front, x := s[..|s| - 1], s[|s| - 1];
      InsertProjects(front, e, dry);
      KeepEventsSnoc(Insert(front, e), x, dry);
      InsertSnoc(KeepEvents(front, dry), x, e);
    }
  }

  lemma {:induction false} SortProjects(log: seq<Event>, dry: set<Pid>)
    ensures KeepEvents(StableSort(log), dry) == StableSort(KeepEvents(log, dry))
  {
    if log != [] {
      var n := |log| - 1;
      SortProjects(log[..n], dry);
      StableSortIsStable(log[..n], 0.0);
      InsertProjects(StableSort(log[..n]), log[n], dry);
      if log[n].pid !in dry {
        var kept := KeepEvents(log, dry);
        assert kept[..|kept| - 1] == KeepEvents(log[..n], dry);
      } else {
        assert KeepEvents(log, dry) == KeepEvents(log[..n], dry);
      }
    }
  }

  lemma {:induction false} SelectionProjects(log: seq<Event>, dry: set<Pid>, excused: set<Pid>, excusedBase: set<Pid>,
                                             since: real, until: real)
    requires None !in dry
    requires forall e :: e in log && e.pid in dry && IsCritical(e) ==> e.pid in excused
    requires forall e :: e in log && e.pid !in dry ==> (e.pid in excused <==> e.pid in excusedBase)
    ensures SelectCritical(log, excused, since, until) ==
            SelectCritical(KeepEvents(log, dry), excusedBase, since, until)
  {
    if log != [] {
      var n := |log| - 1;
      SelectionProjects(log[..n], dry, excused, excusedBase, since, until);
      assert log[n] in log;
      var kept := KeepEvents(log, dry);
      if log[n].pid in dry {
        assert kept == KeepEvents(log[..n], dry);
      } else {
        assert kept[..|kept| - 1] == KeepEvents(log[..n], dry);
      }
    }
  }

  lemma {:induction false} ExecutionsProject(runs: seq<Run>, dry: set<Pid>)
    requires forall r :: r in runs && r.pid in dry ==> !r.execute
    ensures Executions(runs) == Executions(KeepRuns(runs, dry))
  {
    if runs != [] {
      var n := |runs| - 1;
      ExecutionsProject(runs[..n], dry);
      assert runs[n] in runs;
      var kept := KeepRuns(runs, dry);
      if runs[n].pid in dry {
        assert kept == KeepRuns(runs[..n], dry);
      } else {
        assert kept[..|kept| - 1] == KeepRuns(runs[..n], dry);
      }
    }
  }

  // ------------------------------------------------------ where runs come from

  ghost predicate StartOf(log: seq<Event>, r: Run, s: Event) {
    s in log && s.name == RunStarted && s.pid == r.pid && s.ts == r.started && Executes(s) == r.execute
  }

  /** A run's start is in the log, and its terminal is an event of its own pid or of none. */
  ghost predicate Witnessed(log: seq<Event>, r: Run) {
    && (exists s :: StartOf(log, r, s))
    && (r.terminal.Some? ==>
          var t := r.terminal.value;
          t in log && IsTerminal(t) && (t.pid == r.pid || t.pid.None?))
  }

  lemma {:induction false} CloseLastMembers(runs: seq<Run>, p: Pid, e: Event)
    ensures forall r :: r in CloseLast(runs, p, e) ==>
                          r in runs || exists q :: q in runs && q.pid == p && r == q.(terminal := Some(e))
  {
    if runs != [] {
      CloseLastMembers(runs[..|runs| - 1], p, e);
    }
  }

  /** Every start still has a run with its pid and mode. */
  ghost predicate Recorded(runs: seq<Run>, s: Event) {
    exists i :: 0 <= i < |runs| && runs[i].pid == s.pid && runs[i].execute == Executes(s)
  }

  lemma {:induction false} RunsAreWitnessed(log: seq<Event>)
    ensures forall r :: r in Pair(log).runs ==> Witnessed(log, r)
  {
    if log != [] {
      var front, e := log[..|log| - 1], log[|log| - 1];
      RunsAreWitnessed(front);
      assert log == front + [e];
      forall r | r in Pair(log).runs ensures Witnessed(log, r) {
        StepKeepsWitnesses(front, e, r);
      }
    }
  }

  lemma {:induction false} StepKeepsWitnesses(front: seq<Event>, e: Event, r: Run)
    requires forall q :: q in Pair(front).runs ==> Witnessed(front, q)
    requires r in Step(Pair(front), e).runs
    ensures Witnessed(front + [e], r)
  {
    var l, log := Pair(front), front + [e];
    if r in l.runs {
      var s :| StartOf(front, r, s);
      assert StartOf(log, r, s);
    } else if e.name == RunStarted {
      assert StartOf(log, r, e);
    } else {
      var p := Target(l.open, e.pid).value;
      CloseLastMembers(l.runs, p, e);
      var q :| q in l.runs && q.pid == p && r == q.(terminal := Some(e));
      var s :| StartOf(front, q, s);
      assert StartOf(log, r, s);
    }
  }

  lemma {:induction false} StartsAreRecorded(log: seq<Event>)
    ensures forall s :: s in log && s.name == RunStarted ==> Recorded(Pair(log).runs, s)
  {
    if log != [] {
      var front, e := log[..|log| - 1], log[|log| - 1];
      StartsAreRecorded(front);
      assert log == front + [e];
      forall s | s in log && s.name == RunStarted ensures Recorded(Pair(log).runs, s) {
        StepKeepsRecord(Pair(front), e, s);
      }
    }
  }

  lemma {:induction false} StepKeepsRecord(l: Ledger, e: Event, s: Event)
    requires s == e || Recorded(l.runs, s)
    requires s.name == RunStarted
    ensures Recorded(Step(l, e).runs, s)
  {
    var runs := Step(l, e).runs;
    if Recorded(l.runs, s) {
      var i :| 0 <= i < |l.runs| && l.runs[i].pid == s.pid && l.runs[i].execute == Executes(s);
      if Target(l.open, e.pid).Some? {
        CloseLastKeepsIdentity(l.runs, Target(l.open, e.pid).value, e);
      }
      assert runs[i].(terminal := None) == l.runs[i].(terminal := None);
    } else {
      assert runs[|l.runs|].pid == s.pid;
    }
  }

  lemma {:induction false} CloseLastKeepsIdentity(runs: seq<Run>, p: Pid, e: Event)
    ensures forall i :: 0 <= i < |runs| ==> CloseLast(runs, p, e)[i].(terminal := None) == runs[i].(terminal := None)
  {
    if runs != [] {
      CloseLastKeepsIdentity(runs[..|runs| - 1], p, e);
    }
  }

  // ------------------------------------------------------------- main theorems

  /** A terminal event that could end an execution run, or the start of one. */
  ghost predicate ExecutionActivity(log: seq<Event>, e: Event) {
    || (e.name == RunStarted && Executes(e))
    || (IsTerminal(e) && (e.pid.None? || exists s :: s in log && s.name == RunStarted && Executes(s) && s.pid == e.pid))
  }

  lemma {:induction false} ActivityIsLogged(log: seq<Event>, r: Run)
    requires r in Pair(StableSort(log)).runs && r.execute
    ensures exists e :: e in log && ExecutionActivity(log, e) && e.ts == LastActivity(r)
  {
    SortKeepsMembers(log);
    RunsAreWitnessed(StableSort(log));
    var s :| StartOf(StableSort(log), r, s);
    var e := if r.terminal.Some? then r.terminal.value else s;
    assert ExecutionActivity(log, e) && e.ts == LastActivity(r);
  }

  /** Once execution activity stops at `quiet`, every check later than `quiet + max_age` fails,
      whatever else (dry runs, operator events, in any order) is in the log. */
  lemma {:induction false} DeadSchedulerIsAlwaysReported(log: seq<Event>, quiet: real, c: Check)
    requires forall e :: e in log && ExecutionActivity(log, e) ==> e.ts <= quiet
    requires c.now - quiet > c.max_age
    ensures Validate(log, c).Err?
  {
    var runs := Pair(StableSort(log)).runs;
    ExecutionsMembers(runs);
    forall r | r in Executions(runs) ensures LastActivity(r) <= quiet {
      ActivityIsLogged(log, r);
    }
  }

  ghost predicate SameJudgement(full: Verdict, base: Verdict) {
    match (full, base)
    case (Ok(x), Ok(y)) => x.age == y.age && x.pid == y.pid
    case (Err(x), Err(y)) => x == y
    case _ => false
  }

  lemma {:induction false} LatestProjects(full: seq<Event>, dry: set<Pid>, limit: real)
    requires IsSorted(full) && KeepEvents(full, dry) != []
    requires forall e :: e in full && e.pid in dry ==> e.ts <= limit
    ensures var base := KeepEvents(full, dry);
            full != [] && (full[|full| - 1].ts > limit <==> base[|base| - 1].ts > limit)
  {
    KeepEventsMembers(full, dry);
    var base := KeepEvents(full, dry);
    assert base[|base| - 1] in full;
    if full[|full| - 1].ts > limit {
      assert full[|full| - 1] in base;
      assert base == KeepEvents(full[..|full| - 1], dry) + [full[|full| - 1]];
    }
  }

  lemma {:induction false} DryPidsOf(runs: seq<Run>, p: Pid)
    ensures p in DryPids(runs) <==> exists r :: r in runs && !r.execute && r.pid == p
  {
  }

  lemma {:induction false} DryPidsProject(runs: seq<Run>, dry: set<Pid>, p: Pid)
    requires p !in dry
    ensures p in DryPids(runs) <==> p in DryPids(KeepRuns(runs, dry))
  {
    KeepRunsMembers(runs, dry);
    DryPidsOf(runs, p);
    DryPidsOf(KeepRuns(runs, dry), p);
  }

  lemma {:induction false} DryCriticalsAreExcused(full: seq<Event>, dry: set<Pid>, e: Event)
    requires DryTraffic(full, dry) && e in full && e.pid in dry && IsCritical(e)
    ensures e.pid in DryPids(Pair(full).runs)
  {
    StartsAreRecorded(full);
    var s :| s in full && s.name == RunStarted && s.pid == e.pid;
    assert Recorded(Pair(full).runs, s);
  }

  lemma {:induction false} CriticalProjects(full: seq<Event>, dry: set<Pid>, since: real, until: real)
    requires DryTraffic(full, dry) && OrphanFree(KeepEvents(full, dry))
    ensures CriticalEvents(full, since, until) == CriticalEvents(KeepEvents(full, dry), since, until)
  {
    var runs, kept := Pair(full).runs, Pair(KeepEvents(full, dry)).runs;
    PairProjects(full, dry);
    forall e | e in full && e.pid in dry && IsCritical(e) ensures e.pid in DryPids(runs) {
      DryCriticalsAreExcused(full, dry, e);
    }
    forall e | e in full && e.pid !in dry ensures e.pid in DryPids(runs) <==> e.pid in DryPids(kept) {
      DryPidsProject(runs, dry, e.pid);
    }
    SelectionProjects(full, dry, DryPids(runs), DryPids(kept), since, until);
  }

  lemma {:induction false} KeepRunsMembers(runs: seq<Run>, dry: set<Pid>)
    ensures forall r :: r in KeepRuns(runs, dry) <==> r in runs && r.pid !in dry
  {
    if runs != [] {
      KeepRunsMembers(runs[..|runs| - 1], dry);
      assert runs == runs[..|runs| - 1] + [runs[|runs| - 1]];
    }
  }

  lemma {:induction false} DryRunsDoNotExecute(full: seq<Event>, dry: set<Pid>)
    requires DryTraffic(full, dry)
    ensures forall r :: r in Pair(full).runs && r.pid in dry ==> !r.execute
  {
    RunsAreWitnessed(full);
    forall r | r in Pair(full).runs && r.pid in dry ensures !r.execute {
      var s :| StartOf(full, r, s);
    }
  }

  lemma {:induction false} EvidenceProjects(full: seq<Event>, dry: set<Pid>, c: Check)
    requires IsSorted(full) && KeepEvents(full, dry) != []
    requires DryTraffic(full, dry) && OrphanFree(KeepEvents(full, dry))
    requires forall e :: e in full && e.pid in dry ==> e.ts <= c.now + FUTURE_TOLERANCE
    ensures full != [] && SameEvidence(Gather(full, c), Gather(KeepEvents(full, dry), c), c)
  {
    hide Pair, KeepEvents, CriticalEvents, Executions, DryTraffic;
    SameExecutions(full, dry);
    CriticalProjects(full, dry, c.now - c.lookback, c.now);
    LatestProjects(full, dry, c.now + FUTURE_TOLERANCE);
  }

  ghost predicate SameEvidence(x: Evidence, y: Evidence, c: Check) {
    && x.critical == y.critical
    && x.executions == y.executions
    && (x.latest.ts > c.now + FUTURE_TOLERANCE <==> y.latest.ts > c.now + FUTURE_TOLERANCE)
  }

  lemma {:induction false} SameExecutions(full: seq<Event>, dry: set<Pid>)
    requires DryTraffic(full, dry) && OrphanFree(KeepEvents(full, dry))
    ensures Executions(Pair(full).runs) == Executions(Pair(KeepEvents(full, dry)).runs)
  {
    PairProjects(full, dry);
    DryRunsDoNotExecute(full, dry);
    ExecutionsProject(Pair(full).runs, dry);
  }

  lemma {:induction false} SameEvidenceSameJudgement(x: Evidence, y: Evidence, c: Check)
    requires SameEvidence(x, y, c)
    ensures SameJudgement(Judge(x, c), Judge(y, c))
  {
  }

  lemma {:induction false} DryTrafficSorts(log: seq<Event>, dry: set<Pid>)
    requires DryTraffic(log, dry)
    ensures DryTraffic(StableSort(log), dry)
  {
    SortKeepsMembers(log);
    forall e | e in StableSort(log) && e.pid in dry && IsCritical(e)
      ensures exists s :: s in StableSort(log) && s.name == RunStarted && s.pid == e.pid
    {
      var s :| s in log && s.name == RunStarted && s.pid == e.pid;
      assert s in StableSort(log);
    }
  }

  lemma {:induction false} OnlyDryRunsAreRejected(full: seq<Event>, dry: set<Pid>, c: Check)
    requires full != [] && KeepEvents(full, dry) == [] && DryTraffic(full, dry)
    ensures Judge(Gather(full, c), c).Err?
  {
    SameExecutions(full, dry);
    assert Gather(full, c).executions == [];
  }

  lemma {:induction false} SortedLogsAgree(log: seq<Event>, dry: set<Pid>, c: Check)
    requires DryTraffic(log, dry) && OrphanFree(StableSort(KeepEvents(log, dry)))
    requires forall e :: e in log && e.pid in dry ==> e.ts <= c.now + FUTURE_TOLERANCE
    requires log != []
    ensures var base := StableSort(KeepEvents(log, dry));
            var verdict := Judge(Gather(StableSort(log), c), c);
            if base == [] then verdict.Err? else SameJudgement(verdict, Judge(Gather(base, c), c))
  {
    var full := StableSort(log);
    SortProjects(log, dry);
    SortKeepsMembers(log);
    StableSortIsStable(log, 0.0);
    DryTrafficSorts(log, dry);
    if KeepEvents(full, dry) == [] {
      OnlyDryRunsAreRejected(full, dry, c);
    } else {
      EvidenceProjects(full, dry, c);
      SameEvidenceSameJudgement(Gather(full, c), Gather(KeepEvents(full, dry), c), c);
    }
  }

  /** Dry runs interleaved in any way, none more than the tolerance in the future, change
      neither the verdict, nor the reason of a rejection, nor the reported age and pid. */
  lemma {:induction false} DryRunsDoNotInterfere(log: seq<Event>, dry: set<Pid>, c: Check)
    requires DryTraffic(log, dry) && OrphanFree(StableSort(KeepEvents(log, dry)))
    requires forall e :: e in log && e.pid in dry ==> e.ts <= c.now + FUTURE_TOLERANCE
    ensures Validate(log, c).Ok? <==> Validate(KeepEvents(log, dry), c).Ok?
    ensures KeepEvents(log, dry) != [] ==> SameJudgement(Validate(log, c), Validate(KeepEvents(log, dry), c))
  {
    if log != [] {
      SortedLogsAgree(log, dry, c);
    }
  }
}
