/** The guard `OrphanFree` is exact for the pairing: as soon as one terminal event without a pid must
    guess which open run it ends, some dry runs can be slipped into the log that change which run
    it ends. */
module OrphanTerminals {
  import opened Wrappers
  import opened LiveAudit
  import opened DryRuns

  function DryStarts(first: int, n: nat, ts: real): (s: seq<Event>)
    ensures |s| == n && forall i :: 0 <= i < n ==> s[i] == Event(RunStarted, Some(first + i), Some(false), ts)
  {
    seq(n, i => Event(RunStarted, Some(first + i), Some(false), ts))
  }

  function PidsFrom(first: int, n: nat): (s: set<Pid>)
    ensures forall p :: p in s <==> p.Some? && first <= p.value < first + n
  {
    set i | first <= i < first + n :: Some(i)
  }

  function AbovePids(log: seq<Event>): (b: int)
    ensures forall e :: e in log && e.pid.Some? ==> e.pid.value < b
  {
    if log == [] then 0
    else
      assert log == log[..|log| - 1] + [log[|log| - 1]];
      var b := AbovePids(log[..|log| - 1]);
      var p := log[|log| - 1].pid;
      if p.Some? && p.value >= b then p.value + 1 else b
  }

  // ----------------------------------------------------- invariants of the fold

  ghost predicate Coherent(l: Ledger) {
    && (forall i, j :: 0 <= i < j < |l.open| ==> l.open[i] != l.open[j])
    && (forall p :: p in l.open ==> LastIndex(l.runs, p) < |l.runs| && l.runs[LastIndex(l.runs, p)].terminal.None?)
  }

  lemma {:induction false} StartIsCoherent(l: Ledger, e: Event)
    requires Coherent(l) && e.name == RunStarted
    ensures Coherent(Step(l, e))
  {
    var r := Step(l, e);
    forall p | p in r.open ensures LastIndex(r.runs, p) < |r.runs| && r.runs[LastIndex(r.runs, p)].terminal.None? {
      LastIndexSnoc(l.runs, Run(e.pid, e.ts, Executes(e), None), p);
    }
  }

  lemma {:induction false} PopIsCoherent(l: Ledger, e: Event, q: Pid)
    requires Coherent(l) && q in l.open
    ensures Coherent(Ledger(CloseLast(l.runs, q, e), Remove(l.open, q)))
  {
    var i :| 0 <= i < |l.open| && l.open[i] == q;
    RemoveAt(l.open, i);
    RemoveMembers(l.open, q);
    var closed := CloseLast(l.runs, q, e);
    CloseLastAt(l.runs, q, e);
    LastIndexIs(l.runs, q);
    forall p | p in Remove(l.open, q)
      ensures LastIndex(closed, p) < |closed| && closed[LastIndex(closed, p)].terminal.None?
    {
      LastIndexSame(l.runs, closed, p);
      LastIndexIs(l.runs, p);
    }
  }

  lemma {:induction false} StepIsCoherent(l: Ledger, e: Event)
    requires Coherent(l)
    ensures Coherent(Step(l, e))
  {
    if e.name == RunStarted {
      StartIsCoherent(l, e);
    } else if IsTerminal(e) && Target(l.open, e.pid).Some? {
      PopIsCoherent(l, e, Target(l.open, e.pid).value);
    }
  }

  lemma {:induction false} PairIsCoherent(log: seq<Event>)
    ensures Coherent(Pair(log))
  {
    if log != [] {
      PairIsCoherent(log[..|log| - 1]);
      StepIsCoherent(Pair(log[..|log| - 1]), log[|log| - 1]);
    }
  }

  /** Keys only come from starts, and a popped key is gone. */
  lemma {:induction false} StepOpen(l: Ledger, e: Event, q: Pid)
    requires q in Step(l, e).open
    ensures q in l.open || (e.name == RunStarted && q == e.pid)
    ensures e.name != RunStarted && IsTerminal(e) && Target(l.open, e.pid).Some? ==> q != Target(l.open, e.pid).value
  {
    if e.name != RunStarted && IsTerminal(e) && Target(l.open, e.pid).Some? {
      RemoveMembers(l.open, Target(l.open, e.pid).value);
    }
  }

  /** What one step does to the run at j. */
  lemma {:induction false} StepAt(l: Ledger, e: Event, j: nat)
    requires Coherent(l) && j < |l.runs|
    ensures var r := Step(l, e);
            && j < |r.runs|
            && r.runs[j].pid == l.runs[j].pid
            && (r.runs[j] != l.runs[j] ==>
                  && IsTerminal(e) && Target(l.open, e.pid) == Some(l.runs[j].pid)
                  && LastIndex(l.runs, l.runs[j].pid) == j && r.runs[j].terminal == Some(e))
  {
    if e.name != RunStarted && IsTerminal(e) && Target(l.open, e.pid).Some? {
      var q := Target(l.open, e.pid).value;
      CloseLastAt(l.runs, q, e);
      LastIndexIs(l.runs, q);
    }
  }

  lemma {:induction false} LaterRunStaysLater(l: Ledger, e: Event, j: nat, p: Pid)
    requires Coherent(l) && j < |l.runs| && l.runs[j].pid == p
    requires LastIndex(l.runs, p) > j || (e.name == RunStarted && e.pid == p)
    ensures LastIndex(Step(l, e).runs, p) > j
  {
    var r := Step(l, e);
    if e.name == RunStarted {
      LastIndexSnoc(l.runs, Run(e.pid, e.ts, Executes(e), None), p);
      LastIndexAtLeast(l.runs, p, j);
    } else {
      LastIndexAtLeast(l.runs, p, j);
      LastIndexIs(l.runs, p);
      StepAt(l, e, LastIndex(l.runs, p));
      LastIndexAtLeast(r.runs, p, LastIndex(l.runs, p));
    }
  }

  /** The run at j ended with t and can no longer be reached through the dictionary. */
  ghost predicate Settled(l: Ledger, j: nat, t: Event) {
    && Coherent(l) && j < |l.runs|
    && l.runs[j].terminal == Some(t)
    && (l.runs[j].pid in l.open ==> LastIndex(l.runs, l.runs[j].pid) > j)
  }

  lemma {:induction false} SettledStep(l: Ledger, e: Event, j: nat, t: Event)
    requires Settled(l, j, t)
    ensures Settled(Step(l, e), j, t)
  {
    var p := l.runs[j].pid;
    StepIsCoherent(l, e);
    StepAt(l, e, j);
    if p in Step(l, e).open {
      StepOpen(l, e, p);
      LaterRunStaysLater(l, e, j, p);
    }
  }

  /** The run at j was not ended by a terminal without pid, and cannot be by the next m events:
      at least m newer keys stand between it and the fallback. */
  ghost predicate Shielded(l: Ledger, j: nat, m: nat, dry: set<Pid>) {
    && Coherent(l) && j < |l.runs|
    && (forall i :: 0 <= i <= j ==> l.runs[i].pid !in dry)
    && l.runs[j].pid.Some?
    && (l.runs[j].terminal.Some? ==> l.runs[j].terminal.value.pid.Some?)
    && (l.runs[j].pid in l.open ==> LastIndex(l.runs, l.runs[j].pid) > j || Newer(l.open, l.runs[j].pid, m))
  }

  ghost predicate Newer(open: seq<Pid>, p: Pid, m: nat) {
    exists i :: 0 <= i && i + m < |open| && open[i] == p
  }

  lemma {:induction false} RemoveKeepsNewer(open: seq<Pid>, p: Pid, q: Pid, m: nat)
    requires forall i, j :: 0 <= i < j < |open| ==> open[i] != open[j]
    requires Newer(open, p, m) && m > 0 && q != p && q in open
    ensures Newer(Remove(open, q), p, m - 1)
  {
    var i :| 0 <= i && i + m < |open| && open[i] == p;
    var k :| 0 <= k < |open| && open[k] == q;
    RemoveAt(open, k);
    var r := Remove(open, q);
    var i' := if i < k then i else i - 1;
    assert r[i'] == p && i' + (m - 1) < |r|;
  }

  lemma {:induction false} ShieldedStep(l: Ledger, e: Event, j: nat, m: nat, dry: set<Pid>)
    requires Shielded(l, j, m, dry) && m > 0
    ensures Shielded(Step(l, e), j, m - 1, dry)
  {
    var r, p := Step(l, e), l.runs[j].pid;
    StepIsCoherent(l, e);
    forall i | 0 <= i <= j ensures r.runs[i].pid !in dry {
      StepAt(l, e, i);
    }
    StepAt(l, e, j);
    if p in l.open && LastIndex(l.runs, p) <= j {
      var i :| 0 <= i && i + m < |l.open| && l.open[i] == p;
      assert l.open[|l.open| - 1] != p;
      if p in r.open && LastIndex(r.runs, p) <= j {
        StepOpen(l, e, p);
        if e.name != RunStarted && IsTerminal(e) && Target(l.open, e.pid).Some? {
          RemoveKeepsNewer(l.open, p, Target(l.open, e.pid).value, m);
        } else {
          assert r.open[i] == p;
        }
      }
    } else if p in r.open {
      StepOpen(l, e, p);
      LaterRunStaysLater(l, e, j, p);
    }
  }

  // ------------------------------------------------------------ the counterexample

  lemma {:induction false} PairAppend(a: seq<Event>, b: seq<Event>)
    requires b != []
    ensures Pair(a + b) == Step(Pair(a + b[..|b| - 1]), b[|b| - 1])
  {
    assert (a + b)[..|a + b| - 1] == a + b[..|b| - 1];
  }

  lemma {:induction false} SettledRun(a: seq<Event>, b: seq<Event>, j: nat, t: Event)
    requires Settled(Pair(a), j, t)
    ensures Settled(Pair(a + b), j, t)
  {
    if b == [] {
      assert a + b == a;
    } else {
      SettledRun(a, b[..|b| - 1], j, t);
      PairAppend(a, b);
      SettledStep(Pair(a + b[..|b| - 1]), b[|b| - 1], j, t);
    }
  }

  lemma {:induction false} ShieldedRun(a: seq<Event>, b: seq<Event>, j: nat, m: nat, dry: set<Pid>)
    requires Shielded(Pair(a), j, m, dry) && |b| <= m
    ensures Shielded(Pair(a + b), j, m - |b|, dry)
  {
    if b == [] {
      assert a + b == a;
    } else {
      var front := b[..|b| - 1];
      ShieldedRun(a, front, j, m, dry);
      PairAppend(a, b);
      ShieldedStep(Pair(a + front), b[|b| - 1], j, m - |front|, dry);
    }
  }

  function DryRunsFrom(first: int, n: nat, ts: real): (s: seq<Run>)
    ensures |s| == n
  {
    seq(n, i => Run(Some(first + i), ts, false, None))
  }

  function OpenFrom(first: int, n: nat): (s: seq<Pid>)
    ensures |s| == n
  {
    seq(n, i => Some(first + i))
  }

  lemma {:induction false} DryStartsOpen(a: seq<Event>, first: int, n: nat, ts: real)
    requires forall p :: p in Pair(a).open && p.Some? ==> p.value < first
    ensures Pair(a + DryStarts(first, n, ts)) ==
            Ledger(Pair(a).runs + DryRunsFrom(first, n, ts), Pair(a).open + OpenFrom(first, n))
  {
    var b := DryStarts(first, n, ts);
    if n == 0 {
      assert a + b == a;
    } else {
      DryStartsOpen(a, first, n - 1, ts);
      NotYetOpen(Pair(a).open, first, n - 1);
      DryStartOpens(Pair(a), first, n, ts);
      PairAppend(a, b);
      assert b[..n - 1] == DryStarts(first, n - 1, ts);
    }
  }

  lemma {:induction false} DryStartOpens(l: Ledger, first: int, n: nat, ts: real)
    requires n > 0 && Some(first + n - 1) !in l.open + OpenFrom(first, n - 1)
    ensures Step(Ledger(l.runs + DryRunsFrom(first, n - 1, ts), l.open + OpenFrom(first, n - 1)),
                 Event(RunStarted, Some(first + n - 1), Some(false), ts)) ==
            Ledger(l.runs + DryRunsFrom(first, n, ts), l.open + OpenFrom(first, n))
  {
    assert DryRunsFrom(first, n, ts) == DryRunsFrom(first, n - 1, ts) + [Run(Some(first + n - 1), ts, false, None)];
    assert OpenFrom(first, n) == OpenFrom(first, n - 1) + [Some(first + n - 1)];
  }

  lemma {:induction false} NotYetOpen(open: seq<Pid>, first: int, n: nat)
    requires forall p :: p in open && p.Some? ==> p.value < first
    ensures Some(first + n) !in open + OpenFrom(first, n)
  {
  }

  lemma {:induction false} OpenPidsAreLogged(log: seq<Event>, p: Pid)
    requires p in Pair(log).open
    ensures exists e :: e in log && e.pid == p
  {
    var front, e := log[..|log| - 1], log[|log| - 1];
    StepOpen(Pair(front), e, p);
    if p in Pair(front).open {
      OpenPidsAreLogged(front, p);
      var x :| x in front && x.pid == p;
      assert x in log;
    } else {
      assert e in log && e.pid == p;
    }
  }

  lemma {:induction false} OrphanSettles(l: Ledger, t: Event)
    requires Coherent(l) && Orphan(l, t)
    ensures Settled(Step(l, t), LastIndex(l.runs, l.open[|l.open| - 1]), t)
  {
    StepIsCoherent(l, t);
    var p := l.open[|l.open| - 1];
    CloseLastAt(l.runs, p, t);
    LastIndexIs(l.runs, p);
    RemoveMembers(l.open, p);
  }

  /** The run the fallback picks. */
  function Victim(l: Ledger): nat
    requires l.open != []
  {
    LastIndex(l.runs, l.open[|l.open| - 1])
  }

  /** After the orphan terminal t, the fallback's victim carries t for good. */
  lemma {:induction false} VictimSettles(a: seq<Event>, t: Event, b: seq<Event>)
    requires Orphan(Pair(a), t)
    ensures var runs := Pair(a + [t] + b).runs; Victim(Pair(a)) < |runs| && runs[Victim(Pair(a))].terminal == Some(t)
  {
    PairIsCoherent(a);
    OrphanSettles(Pair(a), t);
    PairAppend(a, [t]);
    assert a + [t][..0] == a;
    SettledRun(a + [t], b, Victim(Pair(a)), t);
  }

  ghost predicate PidsBelow(l: Ledger, first: int) {
    && (forall r :: r in l.runs && r.pid.Some? ==> r.pid.value < first)
    && (forall p :: p in l.open && p.Some? ==> p.value < first)
  }

  lemma {:induction false} PidsAreBelow(log: seq<Event>, first: int)
    requires forall e :: e in log && e.pid.Some? ==> e.pid.value < first
    ensures PidsBelow(Pair(log), first)
  {
    RunsAreWitnessed(log);
    forall r | r in Pair(log).runs && r.pid.Some? ensures r.pid.value < first {
      var s :| StartOf(log, r, s);
    }
    forall p | p in Pair(log).open && p.Some? ensures p.value < first {
      OpenPidsAreLogged(log, p);
    }
  }

  /** With n dry starts in front of the orphan, its victim is out of reach for n more events. */
  lemma {:induction false} ShieldBegins(a: seq<Event>, t: Event, first: int, n: nat, ts: real)
    requires Orphan(Pair(a), t) && PidsBelow(Pair(a), first)
    ensures Shielded(Pair(a + DryStarts(first, n, ts)), Victim(Pair(a)), n, PidsFrom(first, n))
  {
    hide Pair, DryStarts;
    var l, m := Pair(a), Pair(a + DryStarts(first, n, ts));
    var j := Victim(l);
    var p := l.open[|l.open| - 1];
    DryStartsOpen(a, first, n, ts);
    PairIsCoherent(a);
    PairIsCoherent(a + DryStarts(first, n, ts));
    LastIndexIs(l.runs, p);
    forall i | 0 <= i <= j ensures m.runs[i].pid !in PidsFrom(first, n) {
      assert m.runs[i] == l.runs[i] && l.runs[i] in l.runs;
    }
    assert m.open[|l.open| - 1] == p;
    assert Newer(m.open, p, n);
  }

  lemma {:induction false} KeepEventsAppend(a: seq<Event>, b: seq<Event>, dry: set<Pid>)
    ensures KeepEvents(a + b, dry) == KeepEvents(a, dry) + KeepEvents(b, dry)
  {
    if b == [] {
      assert a + b == a;
    } else {
      KeepEventsAppend(a, b[..|b| - 1], dry);
      assert a + b == (a + b[..|b| - 1]) + [b[|b| - 1]];
      KeepEventsSnoc(a + b[..|b| - 1], b[|b| - 1], dry);
    }
  }

  lemma {:induction false} KeepEventsAll(log: seq<Event>, dry: set<Pid>)
    requires forall e :: e in log ==> e.pid !in dry
    ensures KeepEvents(log, dry) == log
  {
    if log != [] {
      KeepEventsAll(log[..|log| - 1], dry);
    }
  }

  lemma {:induction false} KeepEventsNone(log: seq<Event>, dry: set<Pid>)
    requires forall e :: e in log ==> e.pid in dry
    ensures KeepEvents(log, dry) == []
  {
    if log != [] {
      KeepEventsNone(log[..|log| - 1], dry);
    }
  }

  lemma {:induction false} KeepRunsAt(runs: seq<Run>, dry: set<Pid>, j: nat)
    requires j < |runs| && forall i :: 0 <= i <= j ==> runs[i].pid !in dry
    ensures j < |KeepRuns(runs, dry)| && KeepRuns(runs, dry)[j] == runs[j]
  {
    if j == |runs| - 1 {
      KeepRunsAll(runs[..j], dry);
    } else {
      KeepRunsAt(runs[..|runs| - 1], dry, j);
    }
  }

  lemma {:induction false} KeepRunsAll(runs: seq<Run>, dry: set<Pid>)
    requires forall i :: 0 <= i < |runs| ==> runs[i].pid !in dry
    ensures KeepRuns(runs, dry) == runs
  {
    if runs != [] {
      KeepRunsAll(runs[..|runs| - 1], dry);
    }
  }

  /** `full` is `base` with dry runs under the pids `dry` slipped in. */
  ghost predicate AddsDryRuns(full: seq<Event>, dry: set<Pid>, base: seq<Event>) {
    DryTraffic(full, dry) && IsSorted(full) && KeepEvents(full, dry) == base
  }

  lemma {:induction false} SlippedIn(a: seq<Event>, b: seq<Event>, first: int, n: nat, ts: real)
    requires forall e :: (e in a || e in b) && e.pid.Some? ==> e.pid.value < first
    requires IsSorted(a + b) && (forall e :: e in a ==> e.ts <= ts) && (forall e :: e in b ==> ts <= e.ts)
    ensures AddsDryRuns(a + DryStarts(first, n, ts) + b, PidsFrom(first, n), a + b)
  {
    var dry, starts := PidsFrom(first, n), DryStarts(first, n, ts);
    forall e | e in starts ensures e.pid in dry && e.ts == ts && !IsCritical(e) && !Executes(e) {
    }
    SlippedInKeeps(a, starts, b, dry);
    SlippedInOrder(a, starts, b, ts);
  }

  lemma {:induction false} SlippedInKeeps(a: seq<Event>, c: seq<Event>, b: seq<Event>, dry: set<Pid>)
    requires forall e :: e in a || e in b ==> e.pid !in dry
    requires forall e :: e in c ==> e.pid in dry
    ensures KeepEvents(a + c + b, dry) == a + b
  {
    KeepEventsAppend(a + c, b, dry);
    KeepEventsAppend(a, c, dry);
    KeepEventsAll(a, dry);
    KeepEventsNone(c, dry);
    KeepEventsAll(b, dry);
    assert a + [] + b == a + b;
  }

  lemma {:induction false} SlippedInOrder(a: seq<Event>, c: seq<Event>, b: seq<Event>, ts: real)
    requires IsSorted(a + b) && (forall e :: e in a ==> e.ts <= ts) && (forall e :: e in b ==> ts <= e.ts)
    requires forall e :: e in c ==> e.ts == ts
    ensures IsSorted(a + c + b)
  {
    var s := a + c + b;
    forall i, j | 0 <= i < j < |s| ensures s[i].ts <= s[j].ts {
      if i < |a| {
        assert s[i] == (a + b)[i] && s[i] in a;
      }
      if |a| + |c| <= j {
        assert s[j] == (a + b)[j - |c|] && s[j] in b;
      }
      if |a| + |c| <= i {
        assert s[i] == (a + b)[i - |c|];
      } else if |a| <= i {
        assert s[i] in c;
      }
      if |a| <= j < |a| + |c| {
        assert s[j] in c;
      } else if j < |a| {
        assert s[j] == (a + b)[j];
      }
    }
  }

  lemma {:induction false} RunsDiffer(full: seq<Event>, dry: set<Pid>, base: seq<Event>, t: Event, j: nat)
    requires t.pid.None? && Shielded(Pair(full), j, 0, dry)
    requires j < |Pair(base).runs| && Pair(base).runs[j].terminal == Some(t)
    ensures KeepRuns(Pair(full).runs, dry) != Pair(base).runs
  {
    KeepRunsAt(Pair(full).runs, dry, j);
  }

  lemma {:induction false} SplitAround(a: seq<Event>, t: Event, b: seq<Event>, base: seq<Event>)
    requires base == a + [t] + b && IsSorted(base)
    ensures forall e :: e in a ==> e in base && e.ts <= t.ts
    ensures forall e :: e in [t] + b ==> e in base && t.ts <= e.ts
  {
    assert base[|a|] == t;
    forall e | e in a ensures e in base && e.ts <= t.ts {
      var i :| 0 <= i < |a| && a[i] == e;
      assert base[i] == e;
    }
    forall e | e in [t] + b ensures e in base && t.ts <= e.ts {
      var i :| 0 <= i < 1 + |b| && ([t] + b)[i] == e;
      assert base[|a| + i] == e;
    }
  }

  /** One dry start for the orphan and for every later event, right in front of the orphan. */
  function WithDryStarts(a: seq<Event>, t: Event, b: seq<Event>, first: int): seq<Event> {
    a + DryStarts(first, |b| + 1, t.ts) + ([t] + b)
  }

  lemma {:induction false} DryStartsAreAdded(a: seq<Event>, t: Event, b: seq<Event>, base: seq<Event>)
    requires base == a + [t] + b && IsSorted(base)
    ensures AddsDryRuns(WithDryStarts(a, t, b, AbovePids(base)), PidsFrom(AbovePids(base), |b| + 1), base)
  {
    SplitAround(a, t, b, base);
    assert a + ([t] + b) == base;
    SlippedIn(a, [t] + b, AbovePids(base), |b| + 1, t.ts);
  }

  lemma {:induction false} DryStartsSteal(a: seq<Event>, t: Event, b: seq<Event>, first: int)
    requires Orphan(Pair(a), t) && forall e :: e in a && e.pid.Some? ==> e.pid.value < first
    ensures KeepRuns(Pair(WithDryStarts(a, t, b, first)).runs, PidsFrom(first, |b| + 1)) != Pair(a + [t] + b).runs
  {
    var n := |b| + 1;
    VictimSettles(a, t, b);
    PidsAreBelow(a, first);
    ShieldBegins(a, t, first, n, t.ts);
    ShieldedRun(a + DryStarts(first, n, t.ts), [t] + b, Victim(Pair(a)), n, PidsFrom(first, n));
    RunsDiffer(WithDryStarts(a, t, b, first), PidsFrom(first, n), a + [t] + b, t, Victim(Pair(a)));
  }

  lemma {:induction false} OrphanIsStealable(a: seq<Event>, t: Event, b: seq<Event>, base: seq<Event>)
    requires base == a + [t] + b && IsSorted(base) && Orphan(Pair(a), t)
    ensures !DryProof(base)
  {
    var first := AbovePids(base);
    var full, dry := WithDryStarts(a, t, b, first), PidsFrom(first, |b| + 1);
    DryStartsAreAdded(a, t, b, base);
    DryStartsSteal(a, t, b, first);
    assert AddsDryRuns(full, dry, base) && KeepRuns(Pair(full).runs, dry) != Pair(base).runs;
  }

  /** Every dry run that could be added leaves the paired runs alone. */
  ghost predicate DryProof(base: seq<Event>) {
    forall full, dry :: AddsDryRuns(full, dry, base) ==> KeepRuns(Pair(full).runs, dry) == Pair(base).runs
  }

  lemma {:induction false} OrphanFreeIsDryProof(base: seq<Event>)
    requires OrphanFree(base)
    ensures DryProof(base)
  {
    forall full, dry | AddsDryRuns(full, dry, base) ensures KeepRuns(Pair(full).runs, dry) == Pair(base).runs {
      PairProjects(full, dry);
    }
  }

  /** Exactly the logs in which no terminal without pid has to guess are safe from dry runs. */
  lemma {:induction false} GuardIsExact(base: seq<Event>)
    requires IsSorted(base)
    ensures OrphanFree(base) <==> DryProof(base)
  {
    if OrphanFree(base) {
      OrphanFreeIsDryProof(base);
    } else {
      var k :| 0 <= k < |base| && Orphan(Pair(base[..k]), base[k]);
      Around(base, k);
      OrphanIsStealable(base[..k], base[k], base[k + 1..], base);
    }
  }

  lemma {:induction false} Around(s: seq<Event>, k: nat)
    requires k < |s|
    ensures s == s[..k] + [s[k]] + s[k + 1..]
  {
  }

  // ---------------------------------------------------------- a verdict that flips

  lemma {:induction false} SortedIsFixed(s: seq<Event>)
    requires IsSorted(s)
    ensures StableSort(s) == s
  {
    if s != [] {
      SortedIsFixed(s[..|s| - 1]);
      assert s == s[..|s| - 1] + [s[|s| - 1]];
    }
  }

  lemma {:induction false} Snoc(s: seq<Event>, e: Event)
    ensures Pair(s + [e]) == Step(Pair(s), e)
  {
    assert (s + [e])[..|s|] == s;
  }

  const LIVE_START := Event(RunStarted, Some(1), Some(true), 0.0)
  const DRY_START := Event(RunStarted, Some(9), Some(false), 5.0)
  const FIRST_END := Event(RunCompleted, None, None, 10.0)
  const SECOND_END := Event(RunCompleted, None, None, 19000.0)
  const LIVE_RUN := Run(Some(1), 0.0, true, None)
  const DRY_RUN := Run(Some(9), 5.0, false, None)

  lemma {:induction false} LiveLedger()
    ensures Pair([LIVE_START]) == Ledger([LIVE_RUN], [Some(1)])
  {
    Snoc([], LIVE_START);
    assert [] + [LIVE_START] == [LIVE_START];
  }

  lemma {:induction false} BaseLedger()
    ensures Pair([LIVE_START, FIRST_END, SECOND_END]).runs == [LIVE_RUN.(terminal := Some(FIRST_END))]
  {
    LiveLedger();
    Snoc([LIVE_START], FIRST_END);
    Snoc([LIVE_START, FIRST_END], SECOND_END);
    assert [LIVE_START] + [FIRST_END] == [LIVE_START, FIRST_END];
    assert [LIVE_START, FIRST_END] + [SECOND_END] == [LIVE_START, FIRST_END, SECOND_END];
    assert Pair([LIVE_START, FIRST_END]).open == [];
  }

  lemma {:induction false} DryLedger()
    ensures Pair([LIVE_START, DRY_START]) == Ledger([LIVE_RUN, DRY_RUN], [Some(1), Some(9)])
  {
    LiveLedger();
    Snoc([LIVE_START], DRY_START);
    assert [LIVE_START] + [DRY_START] == [LIVE_START, DRY_START];
  }

  lemma {:induction false} StolenLedger()
    ensures Pair([LIVE_START, DRY_START, FIRST_END]) ==
            Ledger([LIVE_RUN, DRY_RUN.(terminal := Some(FIRST_END))], [Some(1)])
  {
    DryLedger();
    Snoc([LIVE_START, DRY_START], FIRST_END);
    assert [LIVE_START, DRY_START] + [FIRST_END] == [LIVE_START, DRY_START, FIRST_END];
    StolenStep();
  }

  lemma {:induction false} StolenStep()
    ensures CloseLast([LIVE_RUN, DRY_RUN], Some(9), FIRST_END) == [LIVE_RUN, DRY_RUN.(terminal := Some(FIRST_END))]
    ensures Remove([Some(1), Some(9)], Some(9)) == [Some(1)]
  {
    CloseLastSnoc([LIVE_RUN], DRY_RUN, Some(9), FIRST_END);
    assert [LIVE_RUN] + [DRY_RUN] == [LIVE_RUN, DRY_RUN];
    RemoveAt([Some(1), Some(9)], 1);
  }

  lemma {:induction false} FullLedger()
    ensures Pair([LIVE_START, DRY_START, FIRST_END, SECOND_END]).runs ==
            [LIVE_RUN.(terminal := Some(SECOND_END)), DRY_RUN.(terminal := Some(FIRST_END))]
  {
    hide Pair, CloseLast;
    StolenLedger();
    Snoc([LIVE_START, DRY_START, FIRST_END], SECOND_END);
    assert [LIVE_START, DRY_START, FIRST_END] + [SECOND_END] == [LIVE_START, DRY_START, FIRST_END, SECOND_END];
    CloseBelow(LIVE_RUN, DRY_RUN.(terminal := Some(FIRST_END)), SECOND_END);
  }

  lemma {:induction false} CloseBelow(r: Run, s: Run, e: Event)
    requires r.pid != s.pid
    ensures CloseLast([r, s], r.pid, e) == [r.(terminal := Some(e)), s]
  {
    assert [r] + [s] == [r, s];
    assert [] + [r] == [r];
    CloseLastSnoc([r], s, r.pid, e);
    CloseLastSnoc([], r, r.pid, e);
  }

  /** A log the health check rejects as stale, and the same log with one dry start slipped in, which
      it accepts: the dry start absorbs the first terminal without pid, so the second, recent
      one is taken for the end of the old execution run. */
  lemma {:induction false} DryStartCanHideADeadScheduler()
    ensures var c := Check(20000.0, 9900.0, 9900.0, 2700.0, {});
            var log := [LIVE_START, DRY_START, FIRST_END, SECOND_END];
            && DryTraffic(log, {Some(9)})
            && KeepEvents(log, {Some(9)}) == [LIVE_START, FIRST_END, SECOND_END]
            && Validate(KeepEvents(log, {Some(9)}), c) == Err(StaleRun)
            && Validate(log, c).Ok?
  {
    var c := Check(20000.0, 9900.0, 9900.0, 2700.0, {});
    SlippedDryStart();
    BaseVerdict([LIVE_START, FIRST_END, SECOND_END], c);
    FullVerdict([LIVE_START, DRY_START, FIRST_END, SECOND_END], c);
  }

  lemma {:induction false} SlippedDryStart()
    ensures var log := [LIVE_START, DRY_START, FIRST_END, SECOND_END];
            DryTraffic(log, {Some(9)}) && KeepEvents(log, {Some(9)}) == [LIVE_START, FIRST_END, SECOND_END]
  {
    var log, dry := [LIVE_START, DRY_START, FIRST_END, SECOND_END], {Some(9)};
    KeepEventsAppend([LIVE_START, DRY_START], [FIRST_END, SECOND_END], dry);
    KeepEventsAppend([LIVE_START], [DRY_START], dry);
    KeepEventsAll([LIVE_START], dry);
    KeepEventsNone([DRY_START], dry);
    KeepEventsAll([FIRST_END, SECOND_END], dry);
    assert log == [LIVE_START, DRY_START] + [FIRST_END, SECOND_END];
    assert [LIVE_START] + [DRY_START] == [LIVE_START, DRY_START];
  }

  lemma {:induction false} OneExecution(r: Run)
    requires r.execute
    ensures Executions([r]) == [r]
  {
  }

  lemma {:induction false} BaseVerdict(base: seq<Event>, c: Check)
    requires base == [LIVE_START, FIRST_END, SECOND_END] && c == Check(20000.0, 9900.0, 9900.0, 2700.0, {})
    ensures Validate(base, c) == Err(StaleRun)
  {
    hide Pair, StableSort, Executions, DryPids;
    SortedIsFixed(base);
    BaseLedger();
    OneExecution(LIVE_RUN.(terminal := Some(FIRST_END)));
    SelectCriticalEmpty(base, DryPids(Pair(base).runs), c.now - c.lookback, c.now);
  }

  lemma {:induction false} FullVerdict(log: seq<Event>, c: Check)
    requires log == [LIVE_START, DRY_START, FIRST_END, SECOND_END] && c == Check(20000.0, 9900.0, 9900.0, 2700.0, {})
    ensures Validate(log, c).Ok?
  {
    hide Pair, StableSort, DryPids;
    SortedIsFixed(log);
    FullLedger();
    SelectCriticalEmpty(log, DryPids(Pair(log).runs), c.now - c.lookback, c.now);
    var live := LIVE_RUN.(terminal := Some(SECOND_END));
    assert Pair(log).runs[..1] == [live];
    OneExecution(live);
    assert Executions(Pair(log).runs) == [live];
  }
}
