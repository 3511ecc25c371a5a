/** What the verdict of the health check means. */
module HealthVerdict {
  // The verdict of `scripts/check_live_audit.py` in terms of the logged events: which logs are
  // accepted, what is reported then, and which failure is named first.

  import opened Wrappers
  import opened LiveAudit
  import opened DryRuns
  import opened DryRunVerdicts

  predicate Positive(c: Check) {
    c.max_age > 0.0 && c.lookback > 0.0 && c.max_run > 0.0
  }

  ghost predicate FromFuture(events: seq<Event>, c: Check) {
    exists e :: e in events && e.ts > c.now + 60.0
  }

  /** A dry run under this pid was started. */
  ghost predicate DryPid(events: seq<Event>, p: Pid) {
    exists s :: s in events && s.name == RunStarted && s.execute == Some(false) && s.pid == p
  }

  /** A serious event inside the window that is not a dry run's. */
  ghost predicate Alarm(events: seq<Event>, c: Check, e: Event) {
    && e in events
    && c.now - c.lookback <= e.ts <= c.now
    && (e.name == OrderSubmissionUnknown || e.name == OrderNonTerminal || e.name == PositionProtectionFailed ||
        e.name == ReconciliationBlocked || e.name == RunFailed || e.name == RunInterrupted)
    && (e.pid.Some? ==> !DryPid(events, e.pid))
  }

  ghost predicate Alarmed(events: seq<Event>, c: Check) {
    exists e :: Alarm(events, c, e)
  }

  /** The execution run that started last. */
  ghost predicate LastRun(events: seq<Event>, r: Run) {
    var runs := Pair(StableSort(events)).runs;
    exists k :: 0 <= k < |runs| && runs[k] == r && r.execute && forall j :: k < j < |runs| ==> !runs[j].execute
  }

  /** Its end if it has one, and its start otherwise. */
  ghost predicate ActiveAt(r: Run, ts: real) {
    if r.terminal.Some? then ts == r.terminal.value.ts else ts == r.started
  }

  ghost predicate Fresh(r: Run, c: Check) {
    forall ts :: ActiveAt(r, ts) ==> c.now - ts <= c.max_age
  }

  ghost predicate Healthy(r: Run, c: Check) {
    Fresh(r, c) && (r.terminal.None? ==> r.pid !in c.gone && c.now - r.started <= c.max_run)
  }

  // ------------------------------------------------------------------ reading the evidence

  /** What starts a run, what ends one, and which runs execute. */
  lemma {:induction false} NamesMean(e: Event)
    ensures IsTerminal(e) <==> e.name == RunCompleted || e.name == RunFailed || e.name == RunInterrupted
    ensures Executes(e) <==> e.execute != Some(false)
  {
  }

  lemma {:induction false} LatestIsLast(events: seq<Event>)
    requires events != []
    ensures var s := StableSort(events);
            s != [] && s[|s| - 1] in events && forall e :: e in events ==> e.ts <= s[|s| - 1].ts
  {
    SortKeepsMembers(events);
    StableSortIsStable(events, 0.0);
    var s := StableSort(events);
    assert events[0] in s;
    forall e | e in events ensures e.ts <= s[|s| - 1].ts {
      assert e in s;
    }
  }

  lemma {:induction false} DryPidsAre(events: seq<Event>, p: Pid)
    ensures p in DryPids(Pair(StableSort(events)).runs) <==> DryPid(events, p)
  {
    DryPidsAreLogged(StableSort(events), p);
    SortKeepsMembers(events);
    forall s: Event | s.name == RunStarted ensures DryStart(s) <==> s.execute == Some(false) {
    }
  }

  lemma {:induction false} AlarmsAre(events: seq<Event>, c: Check, e: Event)
    ensures Alarm(events, c, e) <==>
            e in StableSort(events) &&
              Counts(e, DryPids(Pair(StableSort(events)).runs), c.now - c.lookback, c.now)
  {
    SortKeepsMembers(events);
    DryPidsAre(events, e.pid);
  }

  /** Where the events that count stand. */
  function CountedAt(log: seq<Event>, dry: set<Pid>, since: real, until: real): seq<nat> {
    if log == [] then []
    else
      var n := |log| - 1;
      var front := CountedAt(log[..n], dry, since, until);
      if Counts(log[n], dry, since, until) then front + [n] else front
  }

  ghost predicate Ascending(at: seq<nat>, n: nat) {
    && (forall i :: 0 <= i < |at| ==> at[i] < n)
    && (forall i, j :: 0 <= i < j < |at| ==> at[i] < at[j])
  }

  lemma {:induction false} AscendingSnoc(at: seq<nat>, n: nat)
    requires Ascending(at, n)
    ensures Ascending(at, n + 1) && Ascending(at + [n], n + 1) && n !in at
  {
  }

  lemma {:induction false} CountedInOrder(log: seq<Event>, dry: set<Pid>, since: real, until: real)
    ensures Ascending(CountedAt(log, dry, since, until), |log|)
  {
    hide Counts;
    if log != [] {
      hide Ascending;
      var n := |log| - 1;
      CountedInOrder(log[..n], dry, since, until);
      AscendingSnoc(CountedAt(log[..n], dry, since, until), n);
    }
  }

  lemma {:induction false} CountedNames(log: seq<Event>, dry: set<Pid>, since: real, until: real)
    ensures var at, names := CountedAt(log, dry, since, until), SelectCritical(log, dry, since, until);
            |at| == |names| && forall i :: 0 <= i < |at| ==> at[i] < |log| && names[i] == log[at[i]].name
  {
    hide Counts;
    if log != [] {
      CountedNames(log[..|log| - 1], dry, since, until);
    }
  }

  lemma {:induction false} CountedCounts(log: seq<Event>, dry: set<Pid>, since: real, until: real, k: nat)
    requires k < |log|
    ensures Counts(log[k], dry, since, until) <==> k in CountedAt(log, dry, since, until)
  {
    hide Counts, Ascending;
    var n := |log| - 1;
    var front, at := CountedAt(log[..n], dry, since, until), CountedAt(log, dry, since, until);
    CountedInOrder(log[..n], dry, since, until);
    AscendingSnoc(front, n);
    if k < n {
      CountedCounts(log[..n], dry, since, until, k);
      assert k in at <==> k in front;
    }
  }

  /** The names reported are those of the alarms, each once, in the order of the sorted log. */
  lemma {:induction false} NamesAreSelected(log: seq<Event>, dry: set<Pid>, since: real, until: real)
      returns (at: seq<nat>)
    ensures var names := SelectCritical(log, dry, since, until);
            && |at| == |names|
            && (forall i :: 0 <= i < |at| ==> at[i] < |log| && names[i] == log[at[i]].name)
            && (forall i, j :: 0 <= i < j < |at| ==> at[i] < at[j])
            && (forall k :: 0 <= k < |log| ==> (Counts(log[k], dry, since, until) <==> k in at))
  {
    hide Counts, CountedAt, SelectCritical;
    at := CountedAt(log, dry, since, until);
    CountedInOrder(log, dry, since, until);
    CountedNames(log, dry, since, until);
    forall k | 0 <= k < |log| ensures Counts(log[k], dry, since, until) <==> k in at {
      CountedCounts(log, dry, since, until, k);
    }
  }

  lemma {:induction false} NoAlarmNoName(events: seq<Event>, c: Check)
    ensures CriticalEvents(StableSort(events), c.now - c.lookback, c.now) == [] <==> !Alarmed(events, c)
  {
    hide Counts, Alarm;
    var s := StableSort(events);
    SelectCriticalEmpty(s, DryPids(Pair(s).runs), c.now - c.lookback, c.now);
    forall e ensures Alarm(events, c, e) <==> e in s && Counts(e, DryPids(Pair(s).runs), c.now - c.lookback, c.now) {
      AlarmsAre(events, c, e);
    }
  }

  lemma {:induction false} LastOf(runs: seq<Run>)
    ensures var x := Executions(runs);
            if x == [] then forall r :: r in runs ==> !r.execute
            else exists k :: 0 <= k < |runs| && runs[k] == x[|x| - 1] && runs[k].execute &&
                             forall j :: k < j < |runs| ==> !runs[j].execute
  {
    if runs != [] {
      var n := |runs| - 1;
      LastOf(runs[..n]);
      var x := Executions(runs);
      if runs[n].execute {
        assert runs[n] == x[|x| - 1];
      } else if x != [] {
        var k :| 0 <= k < n && runs[..n][k] == x[|x| - 1] && runs[..n][k].execute &&
          forall j :: k < j < n ==> !runs[..n][j].execute;
        assert forall j :: k < j < n ==> runs[j] == runs[..n][j];
        assert runs[k] == x[|x| - 1];
      }
    }
  }

  /** The run the check judges, if there is one. */
  function Judged(events: seq<Event>): Option<Run> {
    var x := Executions(Pair(StableSort(events)).runs);
    if x == [] then None else Some(x[|x| - 1])
  }

  lemma {:induction false} LastIsOne(runs: seq<Run>, i: nat, j: nat)
    requires i < |runs| && j < |runs| && runs[i].execute && runs[j].execute
    requires (forall k :: i < k < |runs| ==> !runs[k].execute) && (forall k :: j < k < |runs| ==> !runs[k].execute)
    ensures i == j
  {
  }

  lemma {:induction false} LastRunIs(events: seq<Event>, r: Run)
    ensures LastRun(events, r) <==> Judged(events) == Some(r)
  {
    hide Pair, StableSort;
    var runs := Pair(StableSort(events)).runs;
    var x := Executions(runs);
    LastOf(runs);
    hide Executions;
    if x == [] {
      assert forall k :: 0 <= k < |runs| ==> runs[k] in runs;
    } else {
      var k :| 0 <= k < |runs| && runs[k] == x[|x| - 1] && runs[k].execute &&
        forall j :: k < j < |runs| ==> !runs[j].execute;
      if LastRun(events, r) {
        var i :| 0 <= i < |runs| && runs[i] == r && r.execute && forall j :: i < j < |runs| ==> !runs[j].execute;
        LastIsOne(runs, i, k);
      }
    }
  }

  lemma {:induction false} HealthIs(r: Run, c: Check)
    ensures Fresh(r, c) <==> c.now - LastActivity(r) <= c.max_age
  {
    assert ActiveAt(r, LastActivity(r));
  }

  // ------------------------------------------------------------------------ the verdict

  /** Nothing before the last run's own checks fails. */
  ghost predicate Sound(events: seq<Event>, c: Check) {
    Positive(c) && events != [] && !FromFuture(events, c) && !Alarmed(events, c)
  }

  lemma {:induction false} FutureIs(events: seq<Event>, c: Check)
    requires events != [] && StableSort(events) != []
    ensures var s := StableSort(events); s[|s| - 1].ts - c.now > FUTURE_TOLERANCE <==> FromFuture(events, c)
  {
    hide StableSort;
    LatestIsLast(events);
  }

  lemma {:induction false} Evidence(events: seq<Event>, c: Check)
    requires Positive(c) && events != []
    ensures var g := Gather(StableSort(events), c);
            && Validate(events, c) == Judge(g, c)
            && (g.latest.ts - c.now > FUTURE_TOLERANCE <==> FromFuture(events, c))
            && (g.critical == [] <==> !Alarmed(events, c))
            && g.critical == CriticalEvents(StableSort(events), c.now - c.lookback, c.now)
            && (if g.executions == [] then Judged(events).None?
                else Judged(events) == Some(g.executions[|g.executions| - 1]))
  {
    hide FromFuture, Alarmed, Pair, Executions, CriticalEvents, StableSort, Judge, Gather;
    LatestIsLast(events);
    NoAlarmNoName(events, c);
    GatherOf(StableSort(events), c);
    FutureIs(events, c);
  }

  /** The checks, up to those of the run. */
  lemma {:induction false} Verdict(events: seq<Event>, c: Check)
    requires Positive(c) && events != []
    ensures var v := Validate(events, c);
            if FromFuture(events, c) then v == Err(FutureEvent)
            else if Alarmed(events, c) then
              v == Err(CriticalFound(CriticalEvents(StableSort(events), c.now - c.lookback, c.now)))
            else
              match Judged(events)
              case None => v == Err(NoExecutionRun)
              case Some(r) => v == JudgeRun(StableSort(events)[|StableSort(events)| - 1], r, c)
  {
    Evidence(events, c);
    LatestIsLast(events);
    GatherOf(StableSort(events), c);
    hide StableSort, FromFuture, Alarmed, Judged, CriticalEvents, JudgeRun, Validate, Gather;
  }

  lemma {:induction false} RunVerdict(latest: Event, r: Run, c: Check)
    ensures var v := JudgeRun(latest, r, c);
            && (v == Err(StaleRun) <==> !Fresh(r, c))
            && (v == Err(DeadProcess) <==> Fresh(r, c) && r.terminal.None? && r.pid in c.gone)
            && (v == Err(Overrun) <==>
                Fresh(r, c) && r.terminal.None? && r.pid !in c.gone && c.now - r.started > c.max_run)
            && (v.Ok? <==> Healthy(r, c))
            && (v.Err? ==> v.error == StaleRun || v.error == DeadProcess || v.error == Overrun)
  {
    HealthIs(r, c);
    hide Fresh;
  }

  /** A log is accepted exactly when the limits are positive, it is not empty, nothing is more than a
      minute ahead, no alarm falls into the window, and the last execution run was active recently
      and, if it has not ended, is alive and not overdue. */
  lemma {:induction false} AcceptanceIsExact(events: seq<Event>, c: Check)
    ensures Validate(events, c).Ok? <==>
            && c.max_age > 0.0 && c.lookback > 0.0 && c.max_run > 0.0 && events != []
            && !FromFuture(events, c) && !Alarmed(events, c)
            && exists r :: LastRun(events, r) && Healthy(r, c)
  {
    if Positive(c) && events != [] {
      hide Validate, FromFuture, Alarmed, Judged, LastRun, CriticalEvents, JudgeRun, Healthy, StableSort, Pair;
      Verdict(events, c);
      forall r ensures LastRun(events, r) <==> Judged(events) == Some(r) {
        LastRunIs(events, r);
      }
      if Judged(events).Some? {
        var r, s := Judged(events).value, StableSort(events);
        LatestIsLast(events);
        RunVerdict(s[|s| - 1], r, c);
        assert LastRun(events, r);
      }
    }
  }

  lemma {:induction false} ReportedAge(latest: Event, r: Run, c: Check)
    requires JudgeRun(latest, r, c).Ok?
    ensures var h, ts := JudgeRun(latest, r, c).value, LastActivity(r);
            && h.latest == latest && h.pid == r.pid && ActiveAt(r, ts)
            && h.age == if ts < c.now then c.now - ts else 0.0
  {
  }

  /** What an accepted log is reported with. */
  lemma {:induction false} ReportIsExact(events: seq<Event>, c: Check)
    requires Validate(events, c).Ok?
    ensures var h := Validate(events, c).value;
            && h.latest in events && (forall e :: e in events ==> e.ts <= h.latest.ts)
            && exists r, ts :: LastRun(events, r) && ActiveAt(r, ts) && h.pid == r.pid &&
                               h.age == if ts < c.now then c.now - ts else 0.0
  {
    assert Positive(c) && events != [];
    hide Validate, FromFuture, Alarmed, Judged, LastRun, CriticalEvents, StableSort, Pair, Executions, ActiveAt;
    Verdict(events, c);
    LatestIsLast(events);
    var r, s := Judged(events).value, StableSort(events);
    LastRunIs(events, r);
    ReportedAge(s[|s| - 1], r, c);
  }

  /** Which failure is named, in the order of the checks. */
  ghost predicate NamedFor(events: seq<Event>, c: Check, f: Failure) {
    match f
    case NonPositiveInterval => !Positive(c)
    case EmptyLog => Positive(c) && events == []
    case FutureEvent => Positive(c) && FromFuture(events, c)
    case CriticalFound(names) =>
      && Positive(c) && !FromFuture(events, c) && Alarmed(events, c)
      && names == CriticalEvents(StableSort(events), c.now - c.lookback, c.now)
    case NoExecutionRun => Sound(events, c) && !exists r :: LastRun(events, r)
    case StaleRun => Sound(events, c) && exists r :: LastRun(events, r) && !Fresh(r, c)
    case DeadProcess =>
      Sound(events, c) && exists r :: LastRun(events, r) && Fresh(r, c) && r.terminal.None? && r.pid in c.gone
    case Overrun =>
      Sound(events, c) && exists r :: LastRun(events, r) && Fresh(r, c) && r.terminal.None? &&
                                      r.pid !in c.gone && c.now - r.started > c.max_run
  }

  lemma {:induction false} FailureIsExact(events: seq<Event>, c: Check, f: Failure)
    ensures Validate(events, c) == Err(f) <==> NamedFor(events, c, f)
  {
    if Positive(c) && events != [] {
      hide Validate, FromFuture, Alarmed, Judged, LastRun, CriticalEvents, JudgeRun, Fresh, StableSort, Pair;
      Verdict(events, c);
      if Sound(events, c) {
        LateFailure(events, c, f);
      }
    } else {
      NothingLogged(events, c, f);
    }
  }

  lemma {:induction false} NothingLogged(events: seq<Event>, c: Check, f: Failure)
    requires !Positive(c) || events == []
    ensures Validate(events, c) == Err(f) <==> NamedFor(events, c, f)
  {
  }

  lemma {:induction false} LateFailure(events: seq<Event>, c: Check, f: Failure)
    requires Sound(events, c)
    ensures Validate(events, c) == Err(f) <==> NamedFor(events, c, f)
  {
    hide Validate, FromFuture, Alarmed, Judged, LastRun, CriticalEvents, JudgeRun, Fresh, Healthy, StableSort, Pair;
    Verdict(events, c);
    forall r ensures LastRun(events, r) <==> Judged(events) == Some(r) {
      LastRunIs(events, r);
    }
    if Judged(events).Some? {
      var r, s := Judged(events).value, StableSort(events);
      LatestIsLast(events);
      RunVerdict(s[|s| - 1], r, c);
      assert LastRun(events, r);
    }
  }
}
