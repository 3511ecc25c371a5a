/** Archiving and pruning the audit trail. */
module AuditRetention {
  // The archive and prune protocol of `scripts/audit_retention.py`, step by step, with a live
  // runner appending in between and a crash possible after every step.

  import opened Wrappers

  /** `id` tells lines with equal text apart. */
  datatype Line = Line(id: nat, blank: bool, json: bool)

  /** audit-<day>.jsonl.gz, or audit-<day>-<suffix>.jsonl.gz when the suffix is positive. */
  datatype Name = Name(day: int, suffix: nat)

  datatype Phase = Idle | Copied(name: Name) | Listed(name: Name)

  /** `manifest` is None after a crash between truncating and rewriting it. */
  datatype Store = Store(live: seq<Line>, archives: map<Name, seq<Line>>, manifest: Option<map<Name, nat>>,
                         phase: Phase)

  datatype PruneEnd = Saved | Torn | Crashed

  datatype Step =
    | Append(line: Line)
    | Copy(day: int)
    | CopyPart(day: int, n: nat)
    | SaveManifest
    | TearManifest
    | Truncate
    | Crash
    | Prune(cutoff: int, done: set<Name>, end: PruneEnd)

  function NonBlank(lines: seq<Line>): seq<Line> {
    if lines == [] then []
    else if lines[|lines| - 1].blank then NonBlank(lines[..|lines| - 1])
    else NonBlank(lines[..|lines| - 1]) + [lines[|lines| - 1]]
  }

  /** The kept lines are the non-blank ones, each once and in order. */
  lemma {:induction false} NonBlankKeepsOrder(lines: seq<Line>) returns (at: seq<nat>)
    ensures var kept := NonBlank(lines);
            && |at| == |kept| && (forall i :: 0 <= i < |at| ==> at[i] < |lines| && kept[i] == lines[at[i]])
            && (forall i, j :: 0 <= i < j < |at| ==> at[i] < at[j])
            && (forall k :: 0 <= k < |lines| ==> (!lines[k].blank <==> k in at))
  {
    at := [];
    if lines != [] {
      var n := |lines| - 1;
      at := NonBlankKeepsOrder(lines[..n]);
      assert forall k :: 0 <= k < n ==> lines[..n][k] == lines[k];
      assert n !in at;
      if !lines[n].blank {
        at := at + [n];
      }
    }
  }

  /** verify_trail: every non-blank line is JSON. */
  predicate Verified(lines: seq<Line>) {
    forall i :: 0 <= i < |lines| && !lines[i].blank ==> lines[i].json
  }

  lemma {:induction false} VerifiedMeans(lines: seq<Line>)
    ensures Verified(lines) <==> forall l :: l in lines && !l.blank ==> l.json
  {
  }

  function NamesBelow(day: int, n: nat): (s: set<Name>)
    ensures |s| == n && forall x :: x in s <==> x.day == day && x.suffix < n
  {
    if n == 0 then {} else NamesBelow(day, n - 1) + {Name(day, n - 1)}
  }

  /** There is always a suffix left to take. */
  lemma {:induction false} TakenIsBounded(archives: map<Name, seq<Line>>, day: int, n: nat)
    requires forall k :: 0 <= k < n ==> Name(day, k) in archives
    ensures n <= |archives|
  {
    var taken := NamesBelow(day, n);
    assert taken <= archives.Keys;
    SubsetSize(taken, archives.Keys);
    assert |archives.Keys| == |archives|;
  }

  lemma {:induction false} SubsetSize(a: set<Name>, b: set<Name>)
    requires a <= b
    ensures |a| <= |b|
  {
    assert b == a + (b - a);
  }

  function FreshFrom(archives: map<Name, seq<Line>>, day: int, n: nat): (name: Name)
    requires forall k :: 0 <= k < n ==> Name(day, k) in archives
    ensures name !in archives && name.day == day && name.suffix >= n
    ensures forall k :: 0 <= k < name.suffix ==> Name(day, k) in archives
    decreases |archives| - n
  {
    if Name(day, n) !in archives then Name(day, n)
    else
      TakenIsBounded(archives, day, n + 1);
      FreshFrom(archives, day, n + 1)
  }

  /** The first free name of the day. */
  function FreshName(archives: map<Name, seq<Line>>, day: int): (name: Name)
    ensures name !in archives && name.day == day
    ensures forall k :: 0 <= k < name.suffix ==> Name(day, k) in archives
  {
    FreshFrom(archives, day, 0)
  }

  /** What prune matches: only names without a suffix, older than the cutoff. */
  predicate IsExpired(n: Name, cutoff: int) {
    n.suffix == 0 && n.day < cutoff
  }

  function Expired(archives: map<Name, seq<Line>>, cutoff: int): set<Name> {
    set n | n in archives && IsExpired(n, cutoff)
  }

  predicate CanCopy(s: Store) {
    s.phase.Idle? && s.live != [] && Verified(s.live)
  }

  /** One step. A step that the scripts would refuse changes nothing. */
  function Exec(s: Store, step: Step): Store {
    match step
    case Append(line) => s.(live := s.live + [line])
    case Copy(day) =>
      if CanCopy(s) then
        var name := FreshName(s.archives, day);
        s.(archives := s.archives[name := NonBlank(s.live)], phase := Copied(name))
      else s
    case CopyPart(day, n) =>
      if CanCopy(s) && n <= |NonBlank(s.live)| then
        s.(archives := s.archives[FreshName(s.archives, day) := NonBlank(s.live)[..n]])
      else s
    case SaveManifest =>
      if s.phase.Copied? then
        if s.manifest.None? then s.(phase := Idle)
        else if s.phase.name in s.archives then
          s.(manifest := Some(s.manifest.value[s.phase.name := |s.archives[s.phase.name]|]),
             phase := Listed(s.phase.name))
        else s
      else s
    case TearManifest => if s.phase.Copied? && s.manifest.Some? then s.(manifest := None, phase := Idle) else s
    case Truncate => if s.phase.Listed? then s.(live := [], phase := Idle) else s
    case Crash => s.(phase := Idle)
    case Prune(cutoff, done, end) =>
      if s.phase.Idle? && s.manifest.Some? && done <= Expired(s.archives, cutoff) then
        match end
        case Crashed => s.(archives := s.archives - done)
        case Torn => s.(archives := s.archives - Expired(s.archives, cutoff), manifest := None)
        case Saved =>
          s.(archives := s.archives - Expired(s.archives, cutoff),
             manifest := Some(s.manifest.value - Expired(s.archives, cutoff)))
      else s
  }

  // ------------------------------------------------------------------- bookkeeping

  /** What a run has done to the lines: appended, removed with an expired archive, appended since
      the copy that is under way, and dropped by a truncation. */
  datatype Ledger = Ledger(appended: set<Line>, pruned: set<Line>, since: set<Line>, dropped: set<Line>)

  /** Lines in the archives that a prune step removes. */
  function Removed(before: Store, after: Store): set<Line> {
    set n, l | n in before.archives && n !in after.archives && l in before.archives[n] :: l
  }

  function Track(s: Store, g: Ledger, step: Step): Ledger {
    match step
    case Append(line) => if line.blank then g else g.(appended := g.appended + {line}, since := g.since + {line})
    case Copy(_) => if CanCopy(s) then g.(since := {}) else g
    case Truncate => if s.phase.Listed? then g.(dropped := g.dropped + g.since, since := {}) else g
    case Prune(_, _, _) => g.(pruned := g.pruned + Removed(s, Exec(s, step)))
    case _ => g
  }

  datatype State = State(store: Store, ledger: Ledger)

  const START := State(Store([], map[], Some(map[]), Idle), Ledger({}, {}, {}, {}))

  function Run(steps: seq<Step>): State {
    if steps == [] then START
    else
      var before := Run(steps[..|steps| - 1]);
      State(Exec(before.store, steps[|steps| - 1]), Track(before.store, before.ledger, steps[|steps| - 1]))
  }

  /** Is the line in the live trail or in an archive? */
  ghost predicate Stored(s: Store, l: Line) {
    l in s.live || exists n :: n in s.archives && l in s.archives[n]
  }

  /** The runner never writes the same line twice. */
  ghost predicate DistinctAppends(steps: seq<Step>) {
    forall i, j :: 0 <= i < j < |steps| && steps[i].Append? && steps[j].Append? ==> steps[i].line != steps[j].line
  }

  // --------------------------------------------------------------------- invariants

  lemma {:induction false} NonBlankMembers(lines: seq<Line>)
    ensures forall l :: l in NonBlank(lines) <==> l in lines && !l.blank
  {
    if lines != [] {
      NonBlankMembers(lines[..|lines| - 1]);
      assert lines == lines[..|lines| - 1] + [lines[|lines| - 1]];
    }
  }

  /** While an archive is under way its file holds every live line older than the copy. */
  ghost predicate Covered(s: Store, g: Ledger) {
    s.phase.Idle? ||
    (s.phase.name in s.archives &&
     forall l :: l in s.live && !l.blank ==> l in g.since || l in s.archives[s.phase.name])
  }

  ghost predicate Accounted(s: Store, g: Ledger) {
    && (forall l :: l in g.appended ==> !l.blank && (Stored(s, l) || l in g.pruned || l in g.dropped))
    && (forall l :: l in s.live && !l.blank ==> l in g.appended)
    && (forall n, l :: n in s.archives && l in s.archives[n] ==> l in g.appended && !l.blank)
    && g.pruned <= g.appended && g.since <= g.appended && g.dropped <= g.appended
    && Covered(s, g)
  }

  lemma {:induction false} StaysStored(s: Store, t: Store, l: Line)
    requires Stored(s, l)
    requires l in s.live ==> l in t.live
    requires forall n :: n in s.archives && l in s.archives[n] ==> n in t.archives && l in t.archives[n]
    ensures Stored(t, l)
  {
  }

  lemma {:induction false} AppendIsAccounted(s: Store, g: Ledger, line: Line)
    requires Accounted(s, g)
    ensures Accounted(Exec(s, Append(line)), Track(s, g, Append(line)))
  {
  }

  lemma {:induction false} CopyIsAccounted(s: Store, g: Ledger, name: Name, part: seq<Line>, phase: Phase,
                                           since: set<Line>)
    requires Accounted(s, g) && s.phase.Idle? && name !in s.archives && since <= g.appended
    requires forall l :: l in part ==> l in s.live && !l.blank
    requires phase.Idle? || (phase.name == name && forall l :: l in s.live && !l.blank ==> l in part)
    ensures Accounted(s.(archives := s.archives[name := part], phase := phase), g.(since := since))
  {
    var t := s.(archives := s.archives[name := part], phase := phase);
    forall l | l in g.appended && Stored(s, l) ensures Stored(t, l) {
      StaysStored(s, t, l);
    }
  }

  lemma {:induction false} TruncateIsAccounted(s: Store, g: Ledger)
    requires Accounted(s, g) && s.phase.Listed?
    ensures Accounted(s.(live := [], phase := Idle), g.(dropped := g.dropped + g.since, since := {}))
  {
  }

  lemma {:induction false} PruneIsAccounted(s: Store, g: Ledger, gone: set<Name>, manifest: Option<map<Name, nat>>)
    requires Accounted(s, g) && s.phase.Idle? && gone <= s.archives.Keys
    ensures var t := s.(archives := s.archives - gone, manifest := manifest);
            Accounted(t, g.(pruned := g.pruned + Removed(s, t)))
  {
  }

  lemma {:induction false} StepIsAccounted(s: Store, g: Ledger, step: Step)
    requires Accounted(s, g)
    ensures Accounted(Exec(s, step), Track(s, g, step))
  {
    hide FreshName;
    NonBlankMembers(s.live);
    match step
    case Append(line) => AppendIsAccounted(s, g, line);
    case Copy(day) =>
      if CanCopy(s) {
        var name := FreshName(s.archives, day);
        CopyIsAccounted(s, g, name, NonBlank(s.live), Copied(name), {});
      }
    case CopyPart(day, n) =>
      if CanCopy(s) && n <= |NonBlank(s.live)| {
        CopyIsAccounted(s, g, FreshName(s.archives, day), NonBlank(s.live)[..n], Idle, g.since);
      }
    case Truncate =>
      if s.phase.Listed? {
        TruncateIsAccounted(s, g);
      }
    case Prune(cutoff, done, end) =>
      if s.phase.Idle? && s.manifest.Some? && done <= Expired(s.archives, cutoff) {
        var gone := if end.Crashed? then done else Expired(s.archives, cutoff);
        PruneIsAccounted(s, g, gone, Exec(s, step).manifest);
      } else {
        assert Removed(s, s) == {};
      }
    case _ => SameLines(s, g, step);
  }

  lemma {:induction false} SameLines(s: Store, g: Ledger, step: Step)
    requires Accounted(s, g) && (step.SaveManifest? || step.TearManifest? || step.Crash?)
    ensures Accounted(Exec(s, step), g)
  {
  }

  // ------------------------------------------------------------------- whole runs

  lemma {:induction false} RunIsAccounted(steps: seq<Step>)
    ensures Accounted(Run(steps).store, Run(steps).ledger)
  {
    if steps != [] {
      var before := Run(steps[..|steps| - 1]);
      RunIsAccounted(steps[..|steps| - 1]);
      StepIsAccounted(before.store, before.ledger, steps[|steps| - 1]);
    }
  }

  /** Lines dropped by a truncation are nowhere else; lines appended during an archive are still
      only in the live trail. */
  ghost predicate Disjoint(s: Store, g: Ledger) {
    && (forall l :: l in g.dropped ==> !Stored(s, l) && l !in g.pruned)
    && (!s.phase.Idle? ==> forall l :: l in g.since ==>
          l !in g.pruned && forall n :: n in s.archives ==> l !in s.archives[n])
  }

  lemma {:induction false} StepIsDisjoint(s: Store, g: Ledger, step: Step)
    requires Accounted(s, g) && Disjoint(s, g)
    requires step.Append? && !step.line.blank ==> step.line !in g.appended
    ensures Disjoint(Exec(s, step), Track(s, g, step))
  {
    hide FreshName;
    NonBlankMembers(s.live);
    var t, h := Exec(s, step), Track(s, g, step);
    forall l | l in g.dropped ensures !Stored(t, l) && l !in h.pruned {
      DroppedStaysGone(s, g, step, l);
    }
  }

  lemma {:induction false} DroppedStaysGone(s: Store, g: Ledger, step: Step, l: Line)
    requires Accounted(s, g) && Disjoint(s, g) && l in g.dropped
    requires step.Append? && !step.line.blank ==> step.line !in g.appended
    ensures !Stored(Exec(s, step), l) && l !in Track(s, g, step).pruned
  {
    hide FreshName;
    NonBlankMembers(s.live);
    assert !Stored(s, l);
  }

  lemma {:induction false} AppendedWereSteps(steps: seq<Step>)
    ensures forall l :: l in Run(steps).ledger.appended ==> exists i :: 0 <= i < |steps| && steps[i] == Append(l)
  {
    if steps != [] {
      var front := steps[..|steps| - 1];
      AppendedWereSteps(front);
      forall l | l in Run(steps).ledger.appended ensures exists i :: 0 <= i < |steps| && steps[i] == Append(l) {
        if l in Run(front).ledger.appended {
          var i :| 0 <= i < |front| && front[i] == Append(l);
          assert steps[i] == Append(l);
        } else {
          assert steps[|steps| - 1] == Append(l);
        }
      }
    }
  }

  lemma {:induction false} RunIsDisjoint(steps: seq<Step>)
    requires DistinctAppends(steps)
    ensures Disjoint(Run(steps).store, Run(steps).ledger)
  {
    if steps != [] {
      var front, step := steps[..|steps| - 1], steps[|steps| - 1];
      assert DistinctAppends(front);
      RunIsDisjoint(front);
      RunIsAccounted(front);
      AppendedWereSteps(front);
      StepIsDisjoint(Run(front).store, Run(front).ledger, step);
    }
  }

  /** No truncation takes effect after something was appended behind its copy. */
  predicate Undisturbed(steps: seq<Step>) {
    steps == [] ||
    var before := Run(steps[..|steps| - 1]);
    && Undisturbed(steps[..|steps| - 1])
    && (steps[|steps| - 1].Truncate? && before.store.phase.Listed? ==> before.ledger.since == {})
  }

  lemma {:induction false} UndisturbedDropsNothing(steps: seq<Step>)
    ensures Undisturbed(steps) <==> Run(steps).ledger.dropped == {}
  {
    if steps != [] {
      UndisturbedDropsNothing(steps[..|steps| - 1]);
    }
  }

  /** Nothing appended has gone, except with an archive that prune was entitled to delete. */
  ghost predicate NothingLost(steps: seq<Step>) {
    forall l :: l in Run(steps).ledger.appended ==> Stored(Run(steps).store, l) || l in Run(steps).ledger.pruned
  }

  /** Over every run, with a crash after any step, lines are lost exactly by truncating after an
      append that came behind the copy. */
  lemma {:induction false} LinesAreLostOnlyByLateAppends(steps: seq<Step>)
    requires DistinctAppends(steps)
    ensures NothingLost(steps) <==> Undisturbed(steps)
  {
    hide Run, Undisturbed;
    RunIsAccounted(steps);
    RunIsDisjoint(steps);
    UndisturbedDropsNothing(steps);
    if Run(steps).ledger.dropped != {} {
      var l :| l in Run(steps).ledger.dropped;
      assert l in Run(steps).ledger.appended;
    }
  }

  lemma {:induction false} EmptyRun()
    ensures Run([]) == START
  {
  }

  lemma {:induction false} CopyEffect(a: Line)
    requires !a.blank && a.json
    ensures var s := Exec(START.store, Append(a));
            && Exec(s, Copy(0)) == Store([a], map[Name(0, 0) := [a]], Some(map[]), Copied(Name(0, 0)))
            && Track(s, Track(START.store, START.ledger, Append(a)), Copy(0)) == Ledger({a}, {}, {}, {})
  {
    assert [a][..0] == [];
    assert NonBlank([a]) == [a];
    assert Exec(START.store, Append(a)).live == [a];
  }

  lemma {:induction false} LateEffect(st: State, a: Line, b: Line)
    requires st.store.phase == Copied(Name(0, 0)) && st.store.manifest == Some(map[]) && !b.blank
    requires st.store.archives == map[Name(0, 0) := [a]] && st.ledger.appended == {a} && st.ledger.pruned == {}
    ensures var s1, s2 := Exec(st.store, Append(b)), Exec(Exec(st.store, Append(b)), SaveManifest);
            var g := Track(s2, Track(s1, Track(st.store, st.ledger, Append(b)), SaveManifest), Truncate);
            && Exec(s2, Truncate).live == [] && Exec(s2, Truncate).archives == map[Name(0, 0) := [a]]
            && g.appended == {a, b} && g.pruned == {}
  {
  }

  /** A line appended between the copy and the truncation is in no archive and not in the trail. */
  lemma {:induction false} LateAppendIsLost(a: Line, b: Line)
    requires a != b && !a.blank && a.json && !b.blank && b.json
    ensures var steps := [Append(a), Copy(0), Append(b), SaveManifest, Truncate];
            var end := Run(steps);
            && DistinctAppends(steps) && !NothingLost(steps)
            && b in end.ledger.appended && !Stored(end.store, b) && b !in end.ledger.pruned
  {
    hide Exec, Track, Run;
    var none: seq<Step> := [];
    assert none + [Append(a)] + [Copy(0)] + [Append(b)] + [SaveManifest] + [Truncate] ==
           [Append(a), Copy(0), Append(b), SaveManifest, Truncate];
    EmptyRun();
    RunSnoc(none, Append(a));
    RunSnoc(none + [Append(a)], Copy(0));
    RunSnoc(none + [Append(a)] + [Copy(0)], Append(b));
    RunSnoc(none + [Append(a)] + [Copy(0)] + [Append(b)], SaveManifest);
    RunSnoc(none + [Append(a)] + [Copy(0)] + [Append(b)] + [SaveManifest], Truncate);
    CopyEffect(a);
    LateEffect(Run(none + [Append(a)] + [Copy(0)]), a, b);
  }

  /** Without the distinctness of lines the safe direction still holds. */
  lemma {:induction false} UndisturbedRunsLoseNothing(steps: seq<Step>)
    requires Undisturbed(steps)
    ensures NothingLost(steps)
  {
    hide Run, Undisturbed;
    RunIsAccounted(steps);
    UndisturbedDropsNothing(steps);
  }

  /** An archive is never overwritten: a step leaves it as it is, or prunes it past the cutoff. */
  lemma {:induction false} ArchivesAreImmutable(s: Store, step: Step, n: Name)
    requires n in s.archives
    ensures var t := Exec(s, step);
            || (n in t.archives && t.archives[n] == s.archives[n])
            || (n !in t.archives && step.Prune? && IsExpired(n, step.cutoff))
  {
  }

  /** The manifest is torn only while it is being saved, after a copy or by a prune. */
  lemma {:induction false} TearsOnlyWhileSaving(s: Store, step: Step)
    requires s.manifest.Some?
    ensures Exec(s, step).manifest.None? <==>
            (step == TearManifest && s.phase.Copied?) ||
                (step.Prune? && step.end.Torn? && s.phase.Idle? && step.done <= Expired(s.archives, step.cutoff))
  {
  }

  /** A torn manifest ends retention: from then on, over every run, no line leaves the trail and no
      archive is removed. */
  lemma {:induction false} TornManifestIsPermanent(steps: seq<Step>, k: nat)
    requires k <= |steps| && Run(steps[..k]).store.manifest.None?
    requires !Run(steps[..k]).store.phase.Listed?
    ensures var torn, now := Run(steps[..k]).store, Run(steps).store;
            && now.manifest.None? && !now.phase.Listed? && torn.live <= now.live
            && forall n :: n in torn.archives ==> n in now.archives && now.archives[n] == torn.archives[n]
    decreases |steps|
  {
    hide Track;
    if k < |steps| {
      var front := steps[..|steps| - 1];
      assert front[..k] == steps[..k];
      TornManifestIsPermanent(front, k);
      TornStep(Run(front).store, steps[|steps| - 1]);
    } else {
      assert steps[..k] == steps;
    }
  }

  lemma {:induction false} TornStep(s: Store, step: Step)
    requires s.manifest.None? && !s.phase.Listed?
    ensures var t := Exec(s, step);
            && t.manifest.None? && !t.phase.Listed? && s.live <= t.live
            && forall n :: n in s.archives ==> n in t.archives && t.archives[n] == s.archives[n]
  {
  }

  /** Retention has a gap: the second and later archives of a day are never pruned. */
  lemma {:induction false} SuffixedArchivesStayForever(steps: seq<Step>, k: nat, n: Name)
    requires k <= |steps| && n in Run(steps[..k]).store.archives && n.suffix > 0
    ensures n in Run(steps).store.archives && Run(steps).store.archives[n] == Run(steps[..k]).store.archives[n]
    decreases |steps|
  {
    hide Exec, Track;
    if k < |steps| {
      var front := steps[..|steps| - 1];
      assert front[..k] == steps[..k];
      SuffixedArchivesStayForever(front, k, n);
      ArchivesAreImmutable(Run(front).store, steps[|steps| - 1], n);
    } else {
      assert steps[..k] == steps;
    }
  }

  /** Two archives on one day, then a prune long after: the first goes, the second stays. */
  lemma {:induction false} SecondArchiveOfADayIsKept(a: Line, b: Line)
    requires !a.blank && a.json && !b.blank && b.json
    ensures var day := [Append(a), Copy(0), SaveManifest, Truncate, Append(b), Copy(0), SaveManifest, Truncate];
            var s := Run(day + [Prune(1000, {}, Saved)]).store;
            Name(0, 0) !in s.archives && Name(0, 1) in s.archives && s.archives[Name(0, 1)] == [b]
  {
    hide Exec, Archived;
    var s0 := START.store;
    var s4 := Archived(s0, a, 0);
    OneDay(s0, a, Name(0, 0));
    OneDay(s4, b, Name(0, 1));
    var none: seq<Step> := [];
    var day1 := [Append(a), Copy(0), SaveManifest, Truncate];
    var day2 := [Append(a), Copy(0), SaveManifest, Truncate, Append(b), Copy(0), SaveManifest, Truncate];
    RunArchive(none, a);
    assert none + [Append(a)] + [Copy(0)] + [SaveManifest] + [Truncate] == day1;
    RunArchive(day1, b);
    assert day1 + [Append(b)] + [Copy(0)] + [SaveManifest] + [Truncate] == day2;
    RunSnoc(day2, Prune(1000, {}, Saved));
    PruneEffect(Run(day2).store, 1000);
  }

  /** One undisturbed archive of one line. */
  function Archived(s: Store, l: Line, day: int): Store {
    Exec(Exec(Exec(Exec(s, Append(l)), Copy(day)), SaveManifest), Truncate)
  }

  lemma {:induction false} OneDay(s: Store, l: Line, name: Name)
    requires s.phase.Idle? && s.live == [] && s.manifest.Some? && !l.blank && l.json
    requires name == FreshName(s.archives, name.day)
    ensures var t := Archived(s, l, name.day);
            && t.live == [] && t.phase.Idle? && t.archives == s.archives[name := [l]]
            && t.manifest == Some(s.manifest.value[name := 1])
  {
    var s1 := Exec(s, Append(l));
    assert s1.live == [l];
    assert NonBlank([l]) == [l] by {
      assert [l][..0] == [];
    }
    assert Exec(s1, Copy(name.day)) == s1.(archives := s.archives[name := [l]], phase := Copied(name));
  }

  lemma {:induction false} RunSnoc(steps: seq<Step>, step: Step)
    ensures var before := Run(steps);
            Run(steps + [step]) == State(Exec(before.store, step), Track(before.store, before.ledger, step))
  {
    assert (steps + [step])[..|steps|] == steps;
  }

  lemma {:induction false} RunArchive(steps: seq<Step>, l: Line)
    ensures Run(steps + [Append(l)] + [Copy(0)] + [SaveManifest] + [Truncate]).store == Archived(Run(steps).store, l, 0)
  {
    RunSnoc(steps, Append(l));
    RunSnoc(steps + [Append(l)], Copy(0));
    RunSnoc(steps + [Append(l)] + [Copy(0)], SaveManifest);
    RunSnoc(steps + [Append(l)] + [Copy(0)] + [SaveManifest], Truncate);
  }

  // ------------------------------------------------------- the scripts' own loops

  datatype Outcome = NothingToArchive | ArchivedAs(name: Name) | CorruptTrail | CorruptManifest

  class AuditStore {
    var live: seq<Line>
    var archives: map<Name, seq<Line>>
    var manifest: Option<map<Name, nat>>

    ghost function View(): Store
      reads this
    {
      Store(live, archives, manifest, Idle)
    }

    constructor ()
      ensures View() == START.store
    {
      live, archives, manifest := [], map[], Some(map[]);
    }

    /** `archive_trail`, uninterrupted. A corrupt manifest raises after the copy was written and
        before anything was truncated. */
    method ArchiveTrail(day: int) returns (r: Outcome)
      modifies this
      ensures r == NothingToArchive <==> old(live) == []
      ensures r == CorruptTrail <==> exists l :: l in old(live) && !l.blank && !l.json
      ensures r == CorruptManifest <==>
                old(live) != [] && old(manifest).None? && forall l :: l in old(live) && !l.blank ==> l.json
      ensures r.ArchivedAs? ==> r.name == FreshName(old(archives), day)
      ensures r.ArchivedAs? ==>
                && live == [] && archives == old(archives)[r.name := NonBlank(old(live))]
                && manifest == Some(old(manifest).value[r.name := |NonBlank(old(live))|])
      ensures r == NothingToArchive || r == CorruptTrail ==> View() == old(View())
      ensures r == CorruptManifest ==>
                live == old(live) && archives == old(archives)[FreshName(old(archives), day) := NonBlank(old(live))]
      ensures View() == Exec(Exec(Exec(old(View()), Copy(day)), SaveManifest), Truncate)
    {
      if live == [] {
        return NothingToArchive;
      }
      VerifiedMeans(live);
      if !Verified(live) {
        return CorruptTrail;
      }
      var suffix := 0;
      while Name(day, suffix) in archives
        invariant forall k :: 0 <= k < suffix ==> Name(day, k) in archives
        invariant FreshFrom(archives, day, suffix) == FreshName(archives, day)
        decreases FreshName(archives, day).suffix - suffix
      {
        suffix := suffix + 1;
      }
      var name, kept := Name(day, suffix), [];
      for i := 0 to |live|
        invariant kept == NonBlank(live[..i])
      {
        assert live[..i + 1][..i] == live[..i];
        if !live[i].blank {
          kept := kept + [live[i]];
        }
      }
      assert live[..|live|] == live;
      archives := archives[name := kept];
      if manifest.None? {
        return CorruptManifest;
      }
      manifest := Some(manifest.value[name := |kept|]);
      live := [];
      return ArchivedAs(name);
    }

    /** `prune_archives`, uninterrupted: every archive whose plain name is older than the cutoff. */
    method PruneArchives(cutoff: int) returns (removed: nat, ok: bool)
      modifies this
      ensures ok == old(manifest).Some?
      ensures View() == Exec(old(View()), Prune(cutoff, {}, Saved))
      ensures ok ==> removed == |Expired(old(archives), cutoff)|
    {
      hide Exec;
      PruneEffect(View(), cutoff);
      removed, ok := 0, manifest.Some?;
      if ok {
        var left, listed;
        left, listed, removed := DeleteExpired(archives, manifest.value, cutoff);
        archives, manifest := left, Some(listed);
      }
    }
  }

  /** The loop of `prune_archives` over the names found in the directory. */
  method DeleteExpired(archives: map<Name, seq<Line>>, manifest: map<Name, nat>, cutoff: int)
      returns (left: map<Name, seq<Line>>, listed: map<Name, nat>, removed: nat)
    ensures left == archives - Expired(archives, cutoff)
    ensures listed == manifest - Expired(archives, cutoff)
    ensures removed == |Expired(archives, cutoff)|
    ensures forall n :: n in left <==> n in archives && (n.suffix > 0 || n.day >= cutoff)
  {
    left, listed, removed := archives, manifest, 0;
    var rest := archives.Keys;
    ghost var gone: set<Name> := {};
    while rest != {}
      invariant rest <= archives.Keys
      invariant forall x :: x in gone <==> x in archives && x !in rest && IsExpired(x, cutoff)
      invariant removed == |gone| && left == archives - gone && listed == manifest - gone
      decreases |rest|
    {
      var n :| n in rest;
      if IsExpired(n, cutoff) {
        OneMoreGone(archives, gone, n);
        OneMoreGone(manifest, gone, n);
        left, listed, removed := left - {n}, listed - {n}, removed + 1;
        gone := gone + {n};
      }
      rest := rest - {n};
    }
    assert gone == Expired(archives, cutoff);
  }

  lemma {:induction false} OneMoreGone<T>(m: map<Name, T>, gone: set<Name>, n: Name)
    ensures m - gone - {n} == m - (gone + {n})
  {
  }

  lemma {:induction false} PruneEffect(s: Store, cutoff: int)
    requires s.phase.Idle?
    ensures Exec(s, Prune(cutoff, {}, Saved)) ==
            if s.manifest.None? then s
            else s.(archives := s.archives - Expired(s.archives, cutoff),
                    manifest := Some(s.manifest.value - Expired(s.archives, cutoff)))
  {
  }
}
