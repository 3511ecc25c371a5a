/** The live-audit health check. */
module LiveAudit {
  // `scripts/check_live_audit.py`.
  // The audit log is shared: execution runs, dry runs and operator tools all append to it.
  // The health check sorts it, pairs every start with a terminal event through an
  // insertion-ordered dictionary keyed by process id, and judges the last execution run.

  import opened Wrappers

  /** JSON null (or a missing key) is None. */
  type Pid = Option<int>

  datatype EventName =
    | RunStarted
    | RunCompleted
    | RunFailed
    | RunInterrupted
    | OrderSubmissionUnknown
    | OrderNonTerminal
    | PositionProtectionFailed
    | ReconciliationBlocked
    | Other(name: string)

  /** `execute` is the value under details.execute, None when the line carries no mode. */
  datatype Event = Event(name: EventName, pid: Pid, execute: Option<bool>, ts: real)

  datatype Run = Run(pid: Pid, started: real, execute: bool, terminal: Option<Event>)

  predicate IsTerminal(e: Event) {
    e.name in {RunCompleted, RunFailed, RunInterrupted}
  }

  predicate IsCritical(e: Event) {
    e.name in {OrderSubmissionUnknown, OrderNonTerminal, PositionProtectionFailed,
               ReconciliationBlocked, RunFailed, RunInterrupted}
  }

  /** Older lines carry no mode and count as execution runs. */
  predicate Executes(e: Event) {
    e.execute.None? || e.execute.value
  }

  // ---------------------------------------------------------------- pairing

  /** `open` lists the open process ids in dictionary order; the open run of a pid is always
      the latest run with that pid, so the specification needs no references. */
  datatype Ledger = Ledger(runs: seq<Run>, open: seq<Pid>)

  function CloseLast(runs: seq<Run>, p: Pid, e: Event): (r: seq<Run>)
    ensures |r| == |runs|
  {
    if runs == [] then []
    else
      var n := |runs| - 1;
      if runs[n].pid == p then runs[..n] + [runs[n].(terminal := Some(e))]
      else CloseLast(runs[..n], p, e) + [runs[n]]
  }

  function Remove(open: seq<Pid>, p: Pid): seq<Pid> {
    if open == [] then []
    else if open[|open| - 1] == p then Remove(open[..|open| - 1], p)
    else Remove(open[..|open| - 1], p) + [open[|open| - 1]]
  }

  /** The key a terminal event pops, if any. */
  function Target(open: seq<Pid>, pid: Pid): (t: Option<Pid>)
    ensures t.Some? ==> t.value in open
  {
    if pid in open then Some(pid)
    else if pid.None? && open != [] then Some(open[|open| - 1])
    else None
  }

  function Step(l: Ledger, e: Event): Ledger {
    if e.name == RunStarted then
      Ledger(l.runs + [Run(e.pid, e.ts, Executes(e), None)],
             if e.pid in l.open then l.open else l.open + [e.pid])
    else if IsTerminal(e) && Target(l.open, e.pid).Some? then
      var p := Target(l.open, e.pid).value;
      Ledger(CloseLast(l.runs, p, e), Remove(l.open, p))
    else l
  }

  function Pair(log: seq<Event>): Ledger {
    if log == [] then Ledger([], []) else Step(Pair(log[..|log| - 1]), log[|log| - 1])
  }

  // ---------------------------------------------------- the dictionary itself

  function Keys(dict: seq<(Pid, nat)>): (r: seq<Pid>)
    ensures |r| == |dict| && forall i :: 0 <= i < |dict| ==> r[i] == dict[i].0
  {
    seq(|dict|, i requires 0 <= i < |dict| => dict[i].0)
  }

  /** Index of the latest run with this pid; |runs| when there is none. */
  function LastIndex(runs: seq<Run>, p: Pid): (k: nat)
    ensures k <= |runs|
  {
    if runs == [] then 0
    else if runs[|runs| - 1].pid == p then |runs| - 1
    else
      var k := LastIndex(runs[..|runs| - 1], p);
      if k == |runs| - 1 then |runs| else k
  }

  ghost predicate DictMatches(dict: seq<(Pid, nat)>, l: Ledger) {
    && Keys(dict) == l.open
    && (forall d :: d in dict ==> d.1 < |l.runs| && d.1 == LastIndex(l.runs, d.0))
    && (forall i, j :: 0 <= i < j < |dict| ==> dict[i].0 != dict[j].0)
  }

  lemma {:induction false} CloseLastAt(runs: seq<Run>, p: Pid, e: Event)
    requires LastIndex(runs, p) < |runs|
    ensures CloseLast(runs, p, e) ==
            runs[LastIndex(runs, p) := runs[LastIndex(runs, p)].(terminal := Some(e))]
  {
    var n := |runs| - 1;
    if runs[n].pid != p {
      CloseLastAt(runs[..n], p, e);
    }
  }

  lemma {:induction false} LastIndexIs(runs: seq<Run>, p: Pid)
    requires LastIndex(runs, p) < |runs|
    ensures runs[LastIndex(runs, p)].pid == p
    ensures forall j :: LastIndex(runs, p) < j < |runs| ==> runs[j].pid != p
  {
    if runs[|runs| - 1].pid != p {
      LastIndexIs(runs[..|runs| - 1], p);
    }
  }

  lemma {:induction false} LastIndexUnique(runs: seq<Run>, p: Pid, k: nat)
    requires k < |runs| && runs[k].pid == p && forall j :: k < j < |runs| ==> runs[j].pid != p
    ensures LastIndex(runs, p) == k
  {
    if k < |runs| - 1 {
      LastIndexUnique(runs[..|runs| - 1], p, k);
    }
  }

  /** The runs after k matter for nothing but a new latest one. */
  lemma {:induction false} LastIndexAtLeast(runs: seq<Run>, p: Pid, k: nat)
    requires k < |runs| && runs[k].pid == p
    ensures k <= LastIndex(runs, p) < |runs|
  {
    if k < |runs| - 1 && runs[|runs| - 1].pid != p {
      LastIndexAtLeast(runs[..|runs| - 1], p, k);
    }
  }

  lemma {:induction false} LastIndexSnoc(runs: seq<Run>, r: Run, p: Pid)
    ensures LastIndex(runs + [r], p) ==
            if r.pid == p then |runs| else if LastIndex(runs, p) == |runs| then |runs| + 1 else LastIndex(runs, p)
  {
  }

  /** Only the pids matter. */
  lemma {:induction false} LastIndexSame(runs: seq<Run>, other: seq<Run>, p: Pid)
    requires |other| == |runs| && forall j :: 0 <= j < |runs| ==> other[j].pid == runs[j].pid
    ensures LastIndex(other, p) == LastIndex(runs, p)
  {
    if runs != [] {
      LastIndexSame(runs[..|runs| - 1], other[..|runs| - 1], p);
    }
  }

  lemma {:induction false} RemoveAt(open: seq<Pid>, i: nat)
    requires i < |open|
    requires forall j, k :: 0 <= j < k < |open| ==> open[j] != open[k]
    ensures Remove(open, open[i]) == open[..i] + open[i + 1..]
  {
    var n := |open| - 1;
    if i < n {
      RemoveAt(open[..n], i);
      assert open[..n][i + 1..] + [open[n]] == open[i + 1..];
    } else {
      RemoveAbsent(open[..n], open[n]);
    }
  }

  lemma {:induction false} RemoveAbsent(open: seq<Pid>, p: Pid)
    requires p !in open
    ensures Remove(open, p) == open
  {
    if open != [] {
      RemoveAbsent(open[..|open| - 1], p);
    }
  }

  lemma {:induction false} RemoveMembers(open: seq<Pid>, p: Pid)
    ensures forall q :: q in Remove(open, p) <==> q in open && q != p
  {
    if open != [] {
      RemoveMembers(open[..|open| - 1], p);
      assert open == open[..|open| - 1] + [open[|open| - 1]];
    }
  }

  /** Position of a key in the dictionary, |dict| when absent. */
  method Find(dict: seq<(Pid, nat)>, pid: Pid) returns (i: nat)
    ensures i <= |dict|
    ensures i < |dict| ==> dict[i].0 == pid
    ensures i == |dict| ==> pid !in Keys(dict)
  {
    i := 0;
    while i < |dict| && dict[i].0 != pid
      invariant i <= |dict|
      invariant forall j :: 0 <= j < i ==> dict[j].0 != pid
    {
      i := i + 1;
    }
  }

  /** One event of the loop in `_runs`. Re-assigning an open pid keeps its place in the
      dictionary; a terminal without pid falls back to the most recently inserted key. */
  method Handle(runs: seq<Run>, dict: seq<(Pid, nat)>, e: Event, ghost l: Ledger)
      returns (runs': seq<Run>, dict': seq<(Pid, nat)>)
    requires runs == l.runs && DictMatches(dict, l)
    ensures runs' == Step(l, e).runs && DictMatches(dict', Step(l, e))
  {
    runs', dict' := runs, dict;
    var i := Find(dict, e.pid);
    if e.name == RunStarted {
      dict' := if i < |dict| then dict[i := (e.pid, |runs|)] else dict + [(e.pid, |runs|)];
      runs' := runs + [Run(e.pid, e.ts, Executes(e), None)];
      StartKeepsDict(l, e, i, dict');
    } else if IsTerminal(e) {
      if i == |dict| && e.pid.None? && dict != [] {
        i := |dict| - 1;
      }
      if i < |dict| {
        dict' := dict[..i] + dict[i + 1..];
        PopKeepsDict(l, e, i, dict, dict');
        runs' := runs[dict[i].1 := runs[dict[i].1].(terminal := Some(e))];
      }
    }
  }

  /** `_runs`: the dictionary maps each open pid to the run it opened. */
  method Runs(ordered: seq<Event>) returns (runs: seq<Run>)
    ensures runs == Pair(ordered).runs
  {
    runs := [];
    var dict: seq<(Pid, nat)> := [];
    for k := 0 to |ordered|
      invariant runs == Pair(ordered[..k]).runs
      invariant DictMatches(dict, Pair(ordered[..k]))
    {
      PairExtends(ordered, k);
      runs, dict := Handle(runs, dict, ordered[k], Pair(ordered[..k]));
    }
    assert ordered[..|ordered|] == ordered;
  }

  lemma {:induction false} PairExtends(log: seq<Event>, k: nat)
    requires k < |log|
    ensures Pair(log[..k + 1]) == Step(Pair(log[..k]), log[k])
  {
    assert log[..k + 1][..k] == log[..k];
  }

  lemma {:induction false} StartKeepsDict(l: Ledger, e: Event, i: nat, dict: seq<(Pid, nat)>)
    requires e.name == RunStarted && i <= |l.open|
    requires forall j :: 0 <= j < |l.open| ==> LastIndex(l.runs, l.open[j]) < |l.runs|
    requires forall j, k :: 0 <= j < k < |l.open| ==> l.open[j] != l.open[k]
    requires if i < |l.open| then l.open[i] == e.pid else e.pid !in l.open
    requires |dict| == if i < |l.open| then |l.open| else |l.open| + 1
    requires forall j :: 0 <= j < |dict| ==>
                           dict[j] == if j == i then (e.pid, |l.runs|) else (l.open[j], LastIndex(l.runs, l.open[j]))
    ensures DictMatches(dict, Step(l, e))
  {
  }

  lemma {:induction false} PopKeepsDict(l: Ledger, e: Event, i: nat, dict: seq<(Pid, nat)>, rest: seq<(Pid, nat)>)
    requires DictMatches(dict, l) && i < |dict| && rest == dict[..i] + dict[i + 1..]
    requires e.name != RunStarted && IsTerminal(e) && Target(l.open, e.pid) == Some(dict[i].0)
    ensures DictMatches(rest, Step(l, e))
    ensures Step(l, e).runs == l.runs[dict[i].1 := l.runs[dict[i].1].(terminal := Some(e))]
  {
    var (p, k) := dict[i];
    assert l.open[i] == p;
    CloseLastAt(l.runs, p, e);
    PopKeys(l.open, i, dict, rest);
    EntriesSurvive(l.runs, CloseLast(l.runs, p, e), dict, rest);
  }

  lemma {:induction false} PopKeys(open: seq<Pid>, i: nat, dict: seq<(Pid, nat)>, rest: seq<(Pid, nat)>)
    requires Keys(dict) == open && i < |dict| && rest == dict[..i] + dict[i + 1..]
    requires forall j, k :: 0 <= j < k < |dict| ==> dict[j].0 != dict[k].0
    ensures Keys(rest) == Remove(open, open[i])
    ensures forall j, k :: 0 <= j < k < |rest| ==> rest[j].0 != rest[k].0
  {
    forall j, k | 0 <= j < k < |open| ensures open[j] != open[k] {
      assert open[j] == dict[j].0 && open[k] == dict[k].0;
    }
    RemoveAt(open, i);
    assert Keys(rest) == open[..i] + open[i + 1..];
  }

  lemma {:induction false} EntriesSurvive(runs: seq<Run>, closed: seq<Run>, dict: seq<(Pid, nat)>,
                                          rest: seq<(Pid, nat)>)
    requires |closed| == |runs| && forall j :: 0 <= j < |runs| ==> closed[j].pid == runs[j].pid
    requires forall d :: d in dict ==> d.1 < |runs| && d.1 == LastIndex(runs, d.0)
    requires forall d :: d in rest ==> d in dict
    ensures forall d :: d in rest ==> d.1 < |closed| && d.1 == LastIndex(closed, d.0)
  {
    forall d | d in rest ensures d.1 < |closed| && d.1 == LastIndex(closed, d.0) {
      LastIndexSame(runs, closed, d.0);
    }
  }

  // ---------------------------------------------------------------- sorting

  ghost predicate IsSorted(s: seq<Event>) {
    forall i, j :: 0 <= i < j < |s| ==> s[i].ts <= s[j].ts
  }

  /** Insert after every event that is not later. */
  function Insert(s: seq<Event>, e: Event): seq<Event> {
    if s == [] || s[|s| - 1].ts <= e.ts then s + [e]
    else Insert(s[..|s| - 1], e) + [s[|s| - 1]]
  }

  /** Python's stable `sorted(events, key=timestamp)`. */
  function StableSort(s: seq<Event>): (r: seq<Event>)
    ensures r == [] <==> s == []
  {
    if s == [] then [] else Insert(StableSort(s[..|s| - 1]), s[|s| - 1])
  }

  /** The events of one instant, in order. */
  function At(s: seq<Event>, ts: real): seq<Event> {
    if s == [] then []
    else if s[|s| - 1].ts == ts then At(s[..|s| - 1], ts) + [s[|s| - 1]]
    else At(s[..|s| - 1], ts)
  }

  lemma {:induction false} InsertIsPermutation(s: seq<Event>, e: Event)
    ensures multiset(Insert(s, e)) == multiset(s) + multiset{e}
  {
    if s != [] && s[|s| - 1].ts > e.ts {
      InsertIsPermutation(s[..|s| - 1], e);
      assert s == s[..|s| - 1] + [s[|s| - 1]];
    }
  }

  lemma {:induction false} InsertKeepsOrder(s: seq<Event>, e: Event)
    requires IsSorted(s)
    ensures IsSorted(Insert(s, e))
  {
    if s != [] && s[|s| - 1].ts > e.ts {
      var front, last := s[..|s| - 1], s[|s| - 1];
      InsertKeepsOrder(front, e);
      InsertIsPermutation(front, e);
      forall x | x in Insert(front, e) ensures x.ts <= last.ts {
        assert x in multiset(Insert(front, e));
        assert x == e || x in multiset(front);
      }
    }
  }

  lemma {:induction false} InsertIsStable(s: seq<Event>, e: Event, ts: real)
    requires IsSorted(s)
    ensures At(Insert(s, e), ts) == if e.ts == ts then At(s, ts) + [e] else At(s, ts)
  {
    if s != [] && s[|s| - 1].ts > e.ts {
      InsertIsStable(s[..|s| - 1], e, ts);
      var r := Insert(s, e);
      assert r[..|r| - 1] == Insert(s[..|s| - 1], e);
      if s[|s| - 1].ts == ts {
        assert At(r, ts) == At(s, ts);
      }
    } else {
      assert Insert(s, e)[..|s|] == s;
    }
  }

  /** The sort orders the log, loses nothing, and keeps the file order of equal timestamps. */
  lemma {:induction false} StableSortIsStable(s: seq<Event>, ts: real)
    ensures IsSorted(StableSort(s))
    ensures At(StableSort(s), ts) == At(s, ts)
  {
    if s != [] {
      var front := s[..|s| - 1];
      StableSortIsStable(front, ts);
      InsertKeepsOrder(StableSort(front), s[|s| - 1]);
      InsertIsStable(StableSort(front), s[|s| - 1], ts);
    }
  }

  lemma {:induction false} SortIsPermutation(s: seq<Event>)
    ensures multiset(StableSort(s)) == multiset(s)
  {
    if s != [] {
      SortIsPermutation(s[..|s| - 1]);
      InsertIsPermutation(StableSort(s[..|s| - 1]), s[|s| - 1]);
      assert s == s[..|s| - 1] + [s[|s| - 1]];
    }
  }

  lemma {:induction false} SortKeepsMembers(s: seq<Event>)
    ensures forall e :: e in StableSort(s) <==> e in s
  {
    SortIsPermutation(s);
    assert forall e :: e in StableSort(s) <==> e in multiset(StableSort(s));
  }

  // ------------------------------------------------------------- the verdict

  /** Process ids of the runs that do not execute. */
  function DryPids(runs: seq<Run>): (r: set<Pid>)
    ensures forall p :: p in r <==> exists i :: 0 <= i < |runs| && !runs[i].execute && runs[i].pid == p
  {
    set i | 0 <= i < |runs| && !runs[i].execute :: runs[i].pid
  }

  /** A critical event inside the window that no dry run excuses. */
  predicate Counts(e: Event, dry: set<Pid>, since: real, until: real) {
    && since <= e.ts <= until
    && IsCritical(e)
    && !(e.pid.Some? && e.pid in dry)
  }

  function SelectCritical(log: seq<Event>, dry: set<Pid>, since: real, until: real): seq<EventName> {
    if log == [] then []
    else
      var front, e := log[..|log| - 1], log[|log| - 1];
      if Counts(e, dry, since, until) then SelectCritical(front, dry, since, until) + [e.name]
      else SelectCritical(front, dry, since, until)
  }

  function CriticalEvents(ordered: seq<Event>, since: real, until: real): seq<EventName> {
    SelectCritical(ordered, DryPids(Pair(ordered).runs), since, until)
  }

  function Executions(runs: seq<Run>): seq<Run> {
    if runs == [] then []
    else if runs[|runs| - 1].execute then Executions(runs[..|runs| - 1]) + [runs[|runs| - 1]]
    else Executions(runs[..|runs| - 1])
  }

  lemma {:induction false} SelectCriticalEmpty(log: seq<Event>, dry: set<Pid>, since: real, until: real)
    ensures SelectCritical(log, dry, since, until) == [] <==>
            forall e :: e in log ==> !Counts(e, dry, since, until)
  {
    if log != [] {
      SelectCriticalEmpty(log[..|log| - 1], dry, since, until);
      assert log == log[..|log| - 1] + [log[|log| - 1]];
    }
  }

  lemma {:induction false} ExecutionsMembers(runs: seq<Run>)
    ensures forall x :: x in Executions(runs) <==> x in runs && x.execute
  {
    if runs != [] {
      ExecutionsMembers(runs[..|runs| - 1]);
      assert runs == runs[..|runs| - 1] + [runs[|runs| - 1]];
    }
  }

  function LastActivity(r: Run): real {
    if r.terminal.Some? then r.terminal.value.ts else r.started
  }

  datatype Failure =
    | NonPositiveInterval
    | EmptyLog
    | FutureEvent
    | CriticalFound(names: seq<EventName>)
    | NoExecutionRun
    | StaleRun
    | DeadProcess
    | Overrun

  datatype Health = Health(latest: Event, age: real, pid: Pid)

  type Verdict = Result<Health, Failure>

  /** `gone` holds the pids for which `process_alive` answers False (neither True nor None). */
  datatype Check = Check(now: real, max_age: real, lookback: real, max_run: real, gone: set<Pid>)

  const FUTURE_TOLERANCE := 60.0

  function JudgeRun(latest: Event, last: Run, c: Check): Verdict {
    var age := c.now - LastActivity(last);
    if age > c.max_age then Err(StaleRun)
    else if last.terminal.None? && last.pid in c.gone then Err(DeadProcess)
    else if last.terminal.None? && c.now - last.started > c.max_run then Err(Overrun)
    else Ok(Health(latest, if age > 0.0 then age else 0.0, last.pid))
  }

  /** What the verdict depends on. */
  datatype Evidence = Evidence(latest: Event, critical: seq<EventName>, executions: seq<Run>)

  function Gather(ordered: seq<Event>, c: Check): Evidence
    requires ordered != []
  {
    Evidence(ordered[|ordered| - 1], CriticalEvents(ordered, c.now - c.lookback, c.now),
             Executions(Pair(ordered).runs))
  }

  function Judge(e: Evidence, c: Check): Verdict {
    if e.latest.ts - c.now > FUTURE_TOLERANCE then Err(FutureEvent)
    else if e.critical != [] then Err(CriticalFound(e.critical))
    else if e.executions == [] then Err(NoExecutionRun)
    else JudgeRun(e.latest, e.executions[|e.executions| - 1], c)
  }

  function Validate(events: seq<Event>, c: Check): Verdict {
    if c.max_age <= 0.0 || c.lookback <= 0.0 || c.max_run <= 0.0 then Err(NonPositiveInterval)
    else if events == [] then Err(EmptyLog)
    else Judge(Gather(StableSort(events), c), c)
  }

  method ValidateAuditHealth(events: seq<Event>, c: Check) returns (v: Verdict)
    ensures v == Validate(events, c)
  {
    if c.max_age <= 0.0 || c.lookback <= 0.0 || c.max_run <= 0.0 {
      return Err(NonPositiveInterval);
    }
    if events == [] {
      return Err(EmptyLog);
    }
    var ordered := StableSort(events);
    var runs := Runs(ordered);
    var critical := SelectCritical(ordered, DryPids(runs), c.now - c.lookback, c.now);
    v := Judge(Evidence(ordered[|ordered| - 1], critical, Executions(runs)), c);
  }
}
