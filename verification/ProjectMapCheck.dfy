/** What `--check` can tell apart. Pruning can leave a directory without entries, which prints like a
    file. It is still sorted among the directories, so sometimes its place in the listing gives it
    away, and sometimes nothing does. */
module ProjectMapCheck {
  import opened Wrappers
  import opened ProjectTree
  import opened ProjectMap

  const EMPTY := Dir(map[])

  // --------------------------------------------------- reading emptied directories as files

  /** An entry as its line shows it. */
  function FiledEntry(node: Node): Node
    decreases node, 1
  {
    if node.File? || node == EMPTY then File else Filed(node)
  }

  /** The tree whose directories are those that print lines below them. */
  function Filed(node: Node): Node
    decreases node, 0
  {
    match node
    case File => File
    case Dir(entries) => Dir(map k | k in entries :: FiledEntry(entries[k]))
  }

  lemma {:induction false} FiledKind(node: Node, k: Name)
    requires node.Dir? && k in node.entries
    ensures Filed(node).Dir? && k in Filed(node).entries && Filed(node).entries[k] == FiledEntry(node.entries[k])
    ensures Filed(node).entries[k].File? <==> node.entries[k].File? || node.entries[k] == EMPTY
  {
  }

  lemma {:induction false} EmptyShape(node: Node)
    ensures ShapeOf(node) == [] <==> node.File? || node == EMPTY
  {
    hide ShapesOf;
    if node.Dir? && node != EMPTY {
      var j :| j in node.entries;
      assert j in Order(node.entries);
    } else if node == EMPTY {
      OrderIsUnique(map[], Order(map[]), []);
    }
  }

  lemma {:induction false} FirstFiled(entries: Entries, names: seq<Name>)
    requires names != [] && forall n :: n in names ==> n in entries
    ensures (map n | n in names :: FiledEntry(entries[n])) ==
            (map n | n in names[1..] :: FiledEntry(entries[n]))[names[0] := FiledEntry(entries[names[0]])]
  {
    hide FiledEntry;
    assert forall n :: n in names <==> n == names[0] || n in names[1..];
  }

  lemma {:induction false} SortedNames(e: Entries, names: seq<Name>)
    requires Sorted(e, names)
    ensures forall n :: n in names ==> n in e
  {
  }

  /** A listing gives back the filed tree, whatever was pruned. */
  lemma {:induction false} RebuildFiled(node: Node, names: seq<Name>)
    requires node.Dir? && Sorted(node.entries, names)
    ensures Rebuild(ShapesOf(node, names)) == map n | n in names :: FiledEntry(node.entries[n])
    decreases node, 0, |names|
  {
    if names != [] {
      SortedNames(node.entries, names);
      FirstFiled(node.entries, names);
      EntryIs(node.entries[names[0]]);
      hide Sorted, Rebuild, Order, ShapesOf, ShapeOf, Filed, FiledEntry;
      FirstEntry(node, names);
      var child := node.entries[names[0]];
      EmptyShape(child);
      RebuildFiled(node, names[1..]);
      RebuildFirst(Shape(names[0], ShapeOf(child)), ShapesOf(node, names[1..]));
      if child.Dir? {
        RebuildIsFiled(child);
      }
    }
  }

  lemma {:induction false} EntryIs(node: Node)
    ensures FiledEntry(node) == if node.File? || node == EMPTY then File else Filed(node)
  {
  }

  lemma {:induction false} RebuildIsFiled(node: Node)
    requires node.Dir?
    ensures Dir(Rebuild(ShapeOf(node))) == Filed(node)
    decreases node, 1, 0
  {
    hide Rebuild, ShapesOf;
    var names := Order(node.entries);
    RebuildFiled(node, names);
    assert (map n | n in names :: FiledEntry(node.entries[n])) == Filed(node).entries;
  }

  lemma {:induction false} FiledIsFull(node: Node)
    ensures NoEmptyDir(Filed(node))
    ensures node.Dir? && node != EMPTY ==> Filed(node) != EMPTY
    decreases node
  {
    if node.Dir? {
      forall k | k in node.entries ensures NoEmptyDir(Filed(node).entries[k]) && Filed(node).entries[k] != EMPTY {
        FiledIsFull(node.entries[k]);
      }
      if k :| k in node.entries {
        assert k in Filed(node).entries;
      }
    }
  }

  // ------------------------------------------------------------- emptied, but in place

  /** In every directory the emptied ones come after all others by name, and before all files: the
      order does not change when they are read as files. */
  ghost predicate InPlace(entries: Entries) {
    forall a, b :: a in entries && b in entries && entries[a] == EMPTY ==>
      && (entries[b].Dir? && entries[b] != EMPTY ==> Less(b, a))
      && (entries[b].File? ==> Less(a, b))
  }

  ghost predicate KeepsOrder(node: Node) {
    match node
    case File => true
    case Dir(entries) => InPlace(entries) && forall k :: k in entries ==> KeepsOrder(entries[k])
  }

  lemma {:induction false} OrderIsKept(node: Node, names: seq<Name>)
    requires node.Dir? && IsOrder(node.entries, names) && InPlace(node.entries)
    ensures IsOrder(Filed(node).entries, names)
  {
    var e, f := node.entries, Filed(node).entries;
    forall k | k in e ensures k in f && (f[k].File? <==> e[k].File? || e[k] == EMPTY) {
      FiledKind(node, k);
    }
    hide Filed;
    forall i, j | 0 <= i < j < |names| ensures Before(f, names[i], names[j]) {
      assert Before(e, names[i], names[j]);
      if Less(names[i], names[j]) {
        LessIsStrict(names[i], names[j]);
      }
    }
  }

  lemma {:induction false} InOrder(e: Entries, names: seq<Name>, i: nat, j: nat)
    requires Sorted(e, names) && i < |names| && j < |names|
    ensures i < j ==> Before(e, names[i], names[j])
    ensures j < i ==> Before(e, names[j], names[i])
  {
  }

  lemma {:induction false} OrderWasKept(node: Node, names: seq<Name>)
    requires node.Dir? && IsOrder(node.entries, names) && IsOrder(Filed(node).entries, names)
    ensures InPlace(node.entries)
  {
    var e, f := node.entries, Filed(node).entries;
    forall k | k in e ensures k in f && (f[k].File? <==> e[k].File? || e[k] == EMPTY) {
      FiledKind(node, k);
    }
    hide Filed;
    forall a, b | a in e && b in e && e[a] == EMPTY
      ensures (e[b].Dir? && e[b] != EMPTY ==> Less(b, a)) && (e[b].File? ==> Less(a, b))
    {
      var i :| 0 <= i < |names| && names[i] == a;
      var j :| 0 <= j < |names| && names[j] == b;
      InOrder(e, names, i, j);
      InOrder(f, names, i, j);
    }
  }

  lemma {:induction false} SameShapes(node: Node, other: Node, names: seq<Name>)
    requires node.Dir? && other.Dir? && forall n :: n in names ==> n in node.entries && n in other.entries
    ensures ShapesOf(node, names) == ShapesOf(other, names) <==>
            forall n :: n in names ==> ShapeOf(node.entries[n]) == ShapeOf(other.entries[n])
    decreases |names|
  {
    if names != [] {
      SameShapes(node, other, names[1..]);
      var x, y := ShapesOf(node, names), ShapesOf(other, names);
      assert x[0] == Shape(names[0], ShapeOf(node.entries[names[0]])) && x[1..] == ShapesOf(node, names[1..]);
      assert y[0] == Shape(names[0], ShapeOf(other.entries[names[0]])) && y[1..] == ShapesOf(other, names[1..]);
      assert x == [x[0]] + x[1..] && y == [y[0]] + y[1..];
      assert forall n :: n in names <==> n == names[0] || n in names[1..];
    }
  }

  lemma {:induction false} ShapeNames(node: Node, names: seq<Name>, other: Node, theirs: seq<Name>)
    requires node.Dir? && other.Dir?
    requires (forall n :: n in names ==> n in node.entries) && (forall n :: n in theirs ==> n in other.entries)
    requires ShapesOf(node, names) == ShapesOf(other, theirs)
    ensures names == theirs
  {
    var x := ShapesOf(node, names);
    assert |names| == |theirs|;
    forall i | 0 <= i < |names| ensures names[i] == theirs[i] {
      assert x[i].name == names[i];
    }
  }

  /** The filed tree prints alike exactly when no emptied directory changes place. */
  lemma {:induction false} FiledPrintsAlike(node: Node)
    ensures ShapeOf(Filed(node)) == ShapeOf(node) <==> KeepsOrder(node)
    decreases node, 0
  {
    if node.Dir? {
      var names, filed := Order(node.entries), Filed(node);
      forall k | k in node.entries
        ensures ShapeOf(filed.entries[k]) == ShapeOf(node.entries[k]) <==> KeepsOrder(node.entries[k])
      {
        EntryPrintsAlike(node.entries[k]);
      }
      hide ShapesOf, Filed, KeepsOrder, IsOrder;
      assert filed.Dir? && filed.entries.Keys == node.entries.Keys;
      SameOrder(node, names);
      SameShapes(filed, node, names);
      if ShapeOf(filed) == ShapeOf(node) {
        ShapeNames(filed, Order(filed.entries), node, names);
      }
      KeepsOrderIs(node);
    }
  }

  lemma {:induction false} KeepsOrderIs(node: Node)
    requires node.Dir?
    ensures KeepsOrder(node) <==> InPlace(node.entries) && forall k :: k in node.entries ==> KeepsOrder(node.entries[k])
  {
  }

  lemma {:induction false} SameOrder(node: Node, names: seq<Name>)
    requires node.Dir? && names == Order(node.entries)
    ensures Filed(node).Dir? && Filed(node).entries.Keys == node.entries.Keys
    ensures Order(Filed(node).entries) == names <==> InPlace(node.entries)
    ensures forall n :: n in names <==> n in node.entries
  {
    var theirs := Order(Filed(node).entries);
    if InPlace(node.entries) {
      OrderIsKept(node, names);
      OrderIsUnique(Filed(node).entries, theirs, names);
    } else if theirs == names {
      OrderWasKept(node, names);
    }
  }

  lemma {:induction false} EntryPrintsAlike(node: Node)
    ensures ShapeOf(FiledEntry(node)) == ShapeOf(node) <==> KeepsOrder(node)
    decreases node, 1
  {
    EmptyShape(node);
    if node.Dir? && node != EMPTY {
      FiledPrintsAlike(node);
    }
  }

  // ---------------------------------------------------- emptied directories and visible paths

  /** The tree that is printed. */
  ghost function PrunedTree(files: seq<Path>): Node
    requires PrefixFree(PathSet(files))
  {
    BuildStandsForPaths(files);
    Prune(Dir(Build(files).value))
  }

  /** A directory that keeps entries has a visible file below it. */
  lemma {:induction false} KeptHasVisible(node: Node, p: seq<Name>, n: nat)
    requires p in PathsOf(node) && 0 < n < |p| && Visible(p[..n]) && NoEmptyDir(Prune(node))
    ensures HasVisibleBelow(PathsOf(node), p[..n])
    decreases n
  {
    SplitPath(node.entries, p);
    var k, child := p[0], node.entries[p[0]];
    VisibleParts(p[..n]);
    assert k in Prune(node).entries && Prune(node).entries[k] == Prune(child);
    if n == 1 {
      SomePath(Prune(child));
      var q :| q in PathsOf(Prune(child));
      RootPath(Prune(child));
      RootPath(child);
      PruneKeepsVisible(child, q);
      PathIn(node.entries, k, q);
      VisibleParts([k] + q);
      assert p[..n] == [k] && [k] < [k] + q;
    } else {
      assert p[1..][..n - 1] == p[..n][1..];
      KeptHasVisible(child, p[1..], n - 1);
      var q :| q in PathsOf(child) && Visible(q) && p[1..][..n - 1] < q;
      PathIn(node.entries, k, q);
      VisibleParts([k] + q);
      assert p[..n] == [k] + p[1..][..n - 1] && p[..n] < [k] + q;
    }
  }

  /** Nothing is emptied exactly when the printed tree has no empty directory. */
  lemma {:induction false} EmptiedIsEmpty(files: seq<Path>)
    requires PrefixFree(PathSet(files))
    ensures NothingEmptied(PathSet(files)) <==> NoEmptyDir(PrunedTree(files))
  {
    BuildStandsForPaths(files);
    var tree := Dir(Build(files).value);
    if NothingEmptied(PathSet(files)) {
      PruningLeavesNoEmptyDir(tree);
    } else if NoEmptyDir(Prune(tree)) {
      forall p, n | p in PathSet(files) && 0 < n < |p| && Visible(p[..n])
        ensures HasVisibleBelow(PathSet(files), p[..n])
      {
        KeptHasVisible(tree, p, n);
      }
    }
  }

  lemma {:induction false} PrunedIsVisible(files: seq<Path>)
    requires PrefixFree(PathSet(files))
    ensures PathsOf(PrunedTree(files)) == VisiblePaths(files)
  {
    BuildStandsForPaths(files);
    var tree := Dir(Build(files).value);
    forall p ensures p in PathsOf(Prune(tree)) <==> p in VisiblePaths(files) {
      PruneKeepsVisible(tree, p);
    }
  }

  /** Filing an emptied directory adds a path. */
  lemma {:induction false} FilingAddsPath(node: Node) returns (p: seq<Name>)
    requires !NoEmptyDir(node)
    ensures p in PathsOf(Filed(node)) && p !in PathsOf(node)
    decreases node
  {
    var k :| k in node.entries && !(node.entries[k] != EMPTY && NoEmptyDir(node.entries[k]));
    FiledKind(node, k);
    var child := node.entries[k];
    if child == EMPTY {
      p := [k];
      assert [k] + [] == [k];
      PathIn(Filed(node).entries, k, []);
      PathIn(node.entries, k, []);
      RootPath(child);
    } else {
      var q := FilingAddsPath(child);
      p := [k] + q;
      PathIn(Filed(node).entries, k, q);
      PathIn(node.entries, k, q);
    }
  }

  // --------------------------------------------------------------- trees that can be printed

  /** No name in the tree is excluded. */
  ghost predicate Clean(node: Node) {
    match node
    case File => true
    case Dir(entries) => forall k :: k in entries ==> k !in EXCLUDED && Clean(entries[k])
  }

  lemma {:induction false} PrunedIsClean(node: Node)
    ensures Clean(Prune(node))
    decreases node
  {
    if node.Dir? {
      forall k | k in Prune(node).entries ensures Clean(Prune(node).entries[k]) {
        PrunedIsClean(node.entries[k]);
      }
    }
  }

  lemma {:induction false} FiledIsClean(node: Node)
    requires Clean(node)
    ensures Clean(Filed(node))
    decreases node
  {
    if node.Dir? {
      forall k | k in Filed(node).entries ensures k !in EXCLUDED && Clean(Filed(node).entries[k]) {
        FiledIsClean(node.entries[k]);
      }
    }
  }

  lemma {:induction false} CleanIsFixed(node: Node)
    requires Clean(node)
    ensures Prune(node) == node
    decreases node
  {
    if node.Dir? {
      forall k | k in node.entries ensures k in Prune(node).entries && Prune(node).entries[k] == node.entries[k] {
        CleanIsFixed(node.entries[k]);
      }
      assert Prune(node).entries == node.entries;
    }
  }

  lemma {:induction false} TreeIsPrefixFree(node: Node, p: seq<Name>, q: seq<Name>)
    requires p in PathsOf(node) && q in PathsOf(node)
    ensures !Clash(p, q)
    decreases node
  {
    if node.Dir? {
      SplitPath(node.entries, p);
      SplitPath(node.entries, q);
      if p[0] == q[0] {
        TreeIsPrefixFree(node.entries[p[0]], p[1..], q[1..]);
        ClashBelow(p[0], p[1..], q[1..]);
      }
    }
  }

  lemma {:induction false} ListPaths(paths: set<seq<Name>>) returns (files: seq<Path>)
    requires [] !in paths
    ensures PathSet(files) == paths
    decreases |paths|
  {
    if paths == {} {
      files := [];
    } else {
      var p :| p in paths;
      var rest := ListPaths(paths - {p});
      files := rest + [p];
      forall q | q in paths ensures q in PathSet(files) {
        if q == p {
          assert files[|rest|] == q;
        } else {
          assert q in PathSet(rest);
          var i :| 0 <= i < |rest| && rest[i] == q;
          assert files[i] == q;
        }
      }
      forall q | q in PathSet(files) ensures q in paths {
        var i :| 0 <= i < |files| && files[i] == q;
        assert i < |rest| ==> rest[i] in PathSet(rest);
      }
    }
  }

  /** Every clean tree without empty directories is the printed tree of some tracked paths. */
  lemma {:induction false} TreeIsPrintable(node: Node) returns (files: seq<Path>)
    requires node.Dir? && NoEmptyDir(node) && Clean(node)
    ensures PrefixFree(PathSet(files)) && PrunedTree(files) == node && NothingEmptied(PathSet(files))
  {
    RootPath(node);
    files := ListPaths(PathsOf(node));
    forall p, q | p in PathSet(files) && q in PathSet(files) ensures !Clash(p, q) {
      TreeIsPrefixFree(node, p, q);
    }
    BuildStandsForPaths(files);
    PathsDetermineTree(Dir(Build(files).value), node);
    CleanIsFixed(node);
    EmptiedIsEmpty(files);
  }

  // ---------------------------------------------------------------------- the exact guard

  lemma {:induction false} RenderIs(files: seq<Path>)
    requires PrefixFree(PathSet(files))
    ensures Render(files) == Some(Print(ShapeOf(PrunedTree(files)), "")) && PrunedTree(files).Dir?
  {
    BuildStandsForPaths(files);
  }

  lemma {:induction false} SameListing(files: seq<Path>, others: seq<Path>)
    requires PrefixFree(PathSet(files)) && PrefixFree(PathSet(others))
    ensures Render(files) == Render(others) <==> ShapeOf(PrunedTree(files)) == ShapeOf(PrunedTree(others))
  {
    RenderIs(files);
    RenderIs(others);
    ParsePrint(ShapeOf(PrunedTree(files)), "");
    ParsePrint(ShapeOf(PrunedTree(others)), "");
  }

  lemma {:induction false} FullIsFiled(node: Node)
    requires NoEmptyDir(node)
    ensures Filed(node) == node
    decreases node
  {
    if node.Dir? {
      forall k | k in node.entries ensures k in Filed(node).entries && Filed(node).entries[k] == node.entries[k] {
        FiledKind(node, k);
        FullIsFiled(node.entries[k]);
      }
      assert Filed(node).entries == node.entries;
    }
  }

  /** Other paths, none of whose directories is emptied, that print the same lines but are not the
      same visible paths. */
  ghost predicate Confused(files: seq<Path>, others: seq<Path>) {
    && PrefixFree(PathSet(others)) && NothingEmptied(PathSet(others))
    && Render(others) == Render(files) && VisiblePaths(others) != VisiblePaths(files)
  }

  lemma {:induction false} ConfusedIsEmptiedInPlace(files: seq<Path>, others: seq<Path>)
    requires PrefixFree(PathSet(files)) && Confused(files, others)
    ensures !NothingEmptied(PathSet(files)) && KeepsOrder(PrunedTree(files))
  {
    hide Render, VisiblePaths;
    if NothingEmptied(PathSet(files)) {
      ListingIsFaithful(files, others);
    }
    SameListing(files, others);
    EmptiedIsEmpty(others);
    RenderIs(files);
    RenderIs(others);
    var t, u := PrunedTree(files), PrunedTree(others);
    RebuildIsFiled(t);
    RebuildIsFiled(u);
    FullIsFiled(u);
    FiledPrintsAlike(t);
  }

  /** The paths whose files are where the emptied directories were. */
  lemma {:induction false} EmptiedInPlaceIsConfused(files: seq<Path>) returns (others: seq<Path>)
    requires PrefixFree(PathSet(files)) && !NothingEmptied(PathSet(files)) && KeepsOrder(PrunedTree(files))
    ensures Confused(files, others)
  {
    var t := PrunedTree(files);
    RenderIs(files);
    BuildStandsForPaths(files);
    PrunedIsClean(Dir(Build(files).value));
    FiledIsClean(t);
    FiledIsFull(t);
    hide Render, VisiblePaths, Filed, Prune;
    others := TreeIsPrintable(Filed(t));
    SameListing(files, others);
    FiledPrintsAlike(t);
    EmptiedIsEmpty(files);
    var p := FilingAddsPath(t);
    PrunedIsVisible(files);
    PrunedIsVisible(others);
  }

  /** Exactly when `--check` could take other paths for these: pruning emptied a directory, and no
      emptied directory is printed where a file of its name would not be. */
  lemma {:induction false} ListingTellsApart(files: seq<Path>)
    requires PrefixFree(PathSet(files))
    ensures (exists others :: Confused(files, others)) <==>
            !NothingEmptied(PathSet(files)) && KeepsOrder(PrunedTree(files))
  {
    if !NothingEmptied(PathSet(files)) && KeepsOrder(PrunedTree(files)) {
      var others := EmptiedInPlaceIsConfused(files);
    }
    if others :| Confused(files, others) {
      ConfusedIsEmptiedInPlace(files, others);
    }
  }

  const FIRST: Path := ["a", "logs"]
  const SECOND: Path := ["b", "x"]

  lemma {:induction false} OutOfPlaceTree()
    ensures var files: seq<Path> := [FIRST, SECOND];
            Build(files) == Some(map["a" := Dir(map["logs" := File]), "b" := Dir(map["x" := File])])
  {
    var files: seq<Path> := [FIRST, SECOND];
    assert files[..1] == [FIRST] && files[..1][..0] == [];
    assert Insert(map[], FIRST) == Some(map["a" := Dir(map["logs" := File])]) by {
      assert FIRST[1..] == ["logs"];
    }
    assert Build(files[..1]) == Some(map["a" := Dir(map["logs" := File])]);
    assert SECOND[1..] == ["x"];
  }

  /** An emptied directory that sorts before one that is not: its place in the listing tells. */
  lemma {:induction false} OutOfPlaceIsTold()
    ensures var files: seq<Path> := [FIRST, SECOND];
            && PrefixFree(PathSet(files)) && !NothingEmptied(PathSet(files))
            && !exists others :: Confused(files, others)
  {
    var files: seq<Path> := [FIRST, SECOND];
    forall p, q | p in PathSet(files) && q in PathSet(files) ensures !Clash(p, q) {
      assert p == FIRST || p == SECOND;
      assert q == FIRST || q == SECOND;
      assert FIRST[0] == "a" && SECOND[0] == "b";
    }
    OutOfPlaceTree();
    var t := PrunedTree(files);
    assert t.entries["a"] == EMPTY && t.entries["b"] != EMPTY by {
      assert t.entries["b"].entries["x"] == File;
    }
    EmptiedIsEmpty(files);
    assert !InPlace(t.entries) by {
      assert Less("a", "b") && !Less("b", "a");
    }
    ListingTellsApart(files);
  }

  // -------------------------------------------------------------------- the joined text

  /** `"\n".join`. */
  function Join(lines: seq<string>): string {
    if lines == [] then ""
    else if |lines| == 1 then lines[0]
    else lines[0] + "\n" + Join(lines[1..])
  }

  predicate OneLine(s: string) {
    '\n' !in s
  }

  predicate OneLiners(lines: seq<string>) {
    forall i :: 0 <= i < |lines| ==> OneLine(lines[i])
  }

  lemma {:induction false} FirstLine(a: string, x: string, b: string, y: string)
    requires OneLine(a) && OneLine(b) && a + "\n" + x == b + "\n" + y
    ensures a == b && x == y
  {
    var t, u := a + "\n" + x, b + "\n" + y;
    assert t[|a|] == '\n' && u[|b|] == '\n';
    assert forall k :: 0 <= k < |a| ==> t[k] == a[k] && a[k] in a;
    assert forall k :: 0 <= k < |b| ==> u[k] == b[k] && b[k] in b;
    assert t[..|a|] == a && u[..|b|] == b && t[|a| + 1..] == x && u[|b| + 1..] == y;
  }

  lemma {:induction false} NotJoined(a: string, b: string, y: string)
    requires OneLine(a)
    ensures a != b + "\n" + y
  {
    assert (b + "\n" + y)[|b|] == '\n';
  }

  /** Lines without newlines can be read off their text. */
  lemma {:induction false} JoinIsInjective(a: seq<string>, b: seq<string>)
    requires a != [] && b != [] && OneLiners(a) && OneLiners(b) && Join(a) == Join(b)
    ensures a == b
  {
    if |a| == 1 && |b| > 1 {
      NotJoined(a[0], b[0], Join(b[1..]));
    } else if |b| == 1 && |a| > 1 {
      NotJoined(b[0], a[0], Join(a[1..]));
    } else if |a| > 1 {
      FirstLine(a[0], Join(a[1..]), b[0], Join(b[1..]));
      JoinIsInjective(a[1..], b[1..]);
      assert a == [a[0]] + a[1..] && b == [b[0]] + b[1..];
    }
  }

  // Names without newlines print lines without newlines.

  ghost predicate PlainNames(node: Node) {
    match node
    case File => true
    case Dir(entries) => forall k :: k in entries ==> OneLine(k) && PlainNames(entries[k])
  }

  predicate PlainPath(path: seq<Name>) {
    forall i :: 0 <= i < |path| ==> OneLine(path[i])
  }

  predicate PlainShapes(shapes: seq<Shape>) {
    shapes != [] ==> OneLine(shapes[0].name) && PlainShapes(shapes[0].below) && PlainShapes(shapes[1..])
  }

  lemma {:induction false} InsertIsPlain(entries: map<Name, Node>, path: Path)
    requires PlainNames(Dir(entries)) && PlainPath(path)
    ensures var r := Insert(entries, path); r.Some? ==> PlainNames(Dir(r.value))
    decreases |path|
  {
    if |path| > 1 {
      var child := if path[0] in entries then entries[path[0]] else EMPTY;
      if child.Dir? {
        InsertIsPlain(child.entries, path[1..]);
      }
    }
  }

  lemma {:induction false} BuildIsPlain(files: seq<Path>)
    requires forall i :: 0 <= i < |files| ==> PlainPath(files[i])
    ensures Build(files).Some? ==> PlainNames(Dir(Build(files).value))
  {
    if files != [] {
      var front := files[..|files| - 1];
      BuildIsPlain(front);
      if Build(front).Some? {
        InsertIsPlain(Build(front).value, files[|files| - 1]);
      }
    }
  }

  lemma {:induction false} PruneIsPlain(node: Node)
    requires PlainNames(node)
    ensures PlainNames(Prune(node))
    decreases node
  {
    if node.Dir? {
      forall k | k in Prune(node).entries ensures OneLine(k) && PlainNames(Prune(node).entries[k]) {
        PruneIsPlain(node.entries[k]);
      }
    }
  }

  lemma {:induction false} ShapesArePlain(node: Node, names: seq<Name>)
    requires node.Dir? && PlainNames(node) && forall n :: n in names ==> n in node.entries
    ensures PlainShapes(ShapesOf(node, names))
    decreases node, 0, |names|
  {
    if names != [] {
      ShapeIsPlain(node.entries[names[0]]);
      ShapesArePlain(node, names[1..]);
      assert ShapesOf(node, names)[1..] == ShapesOf(node, names[1..]);
    }
  }

  lemma {:induction false} ShapeIsPlain(node: Node)
    requires PlainNames(node)
    ensures PlainShapes(ShapeOf(node))
    decreases node, 1, 0
  {
    if node.Dir? {
      ShapesArePlain(node, Order(node.entries));
    }
  }

  lemma {:induction false} PrintIsPlain(shapes: seq<Shape>, prefix: string)
    requires PlainShapes(shapes) && OneLine(prefix)
    ensures OneLiners(Print(shapes, prefix))
  {
    if shapes != [] {
      PrintIsPlain(shapes[0].below, prefix + BAR);
      PrintIsPlain(shapes[0].below, prefix + BLANK);
      PrintIsPlain(shapes[1..], prefix);
    }
  }

  ghost predicate PlainFiles(files: seq<Path>) {
    forall i :: 0 <= i < |files| ==> PlainPath(files[i])
  }

  /** The text of the map file, for any header and footer. */
  ghost function Content(header: seq<string>, files: seq<Path>, footer: seq<string>): string
    requires PrefixFree(PathSet(files))
  {
    RenderIs(files);
    Join(header + Render(files).value + footer) + "\n"
  }

  lemma {:induction false} RenderIsPlain(files: seq<Path>)
    requires PrefixFree(PathSet(files)) && PlainFiles(files)
    ensures Render(files).Some? && OneLiners(Render(files).value)
  {
    RenderIs(files);
    BuildStandsForPaths(files);
    BuildIsPlain(files);
    PruneIsPlain(Dir(Build(files).value));
    ShapeIsPlain(PrunedTree(files));
    PrintIsPlain(ShapeOf(PrunedTree(files)), "");
  }

  lemma {:induction false} BodyIsInjective(header: seq<string>, a: seq<string>, b: seq<string>, footer: seq<string>)
    requires header != [] && OneLiners(header) && OneLiners(a) && OneLiners(b) && OneLiners(footer)
    requires Join(header + a + footer) == Join(header + b + footer)
    ensures a == b
  {
    hide Join;
    var x, y := header + a + footer, header + b + footer;
    JoinIsInjective(x, y);
    assert x[|header|..|header| + |a|] == a && y[|header|..|header| + |b|] == b;
  }

  lemma {:induction false} ContentIsRender(header: seq<string>, files: seq<Path>, others: seq<Path>,
                                           footer: seq<string>)
    requires header != [] && OneLiners(header) && OneLiners(footer)
    requires PrefixFree(PathSet(files)) && PlainFiles(files) && PrefixFree(PathSet(others)) && PlainFiles(others)
    ensures Content(header, files, footer) == Content(header, others, footer) <==> Render(files) == Render(others)
  {
    RenderIsPlain(files);
    RenderIsPlain(others);
    hide Render, Join, OneLiners, PrefixFree, PlainFiles;
    var a, b := Render(files).value, Render(others).value;
    if Content(header, files, footer) == Content(header, others, footer) {
      SameBody(Join(header + a + footer), Join(header + b + footer));
      BodyIsInjective(header, a, b, footer);
    }
  }

  lemma {:induction false} SameBody(a: string, b: string)
    requires a + "\n" == b + "\n"
    ensures a == b
  {
    assert (a + "\n")[..|a|] == a && (b + "\n")[..|b|] == b;
  }

  /** What `--check` compares: where no name holds a newline and no directory is emptied, the texts
      are the same exactly when the visible paths are. */
  lemma {:induction false} CheckIsFaithful(header: seq<string>, files: seq<Path>, others: seq<Path>,
                                           footer: seq<string>)
    requires header != [] && OneLiners(header) && OneLiners(footer)
    requires PrefixFree(PathSet(files)) && PlainFiles(files) && NothingEmptied(PathSet(files))
    requires PrefixFree(PathSet(others)) && PlainFiles(others) && NothingEmptied(PathSet(others))
    ensures Content(header, files, footer) == Content(header, others, footer) <==>
            VisiblePaths(files) == VisiblePaths(others)
  {
    hide Render, VisiblePaths, Content;
    ContentIsRender(header, files, others, footer);
    ListingIsFaithful(files, others);
  }
}
