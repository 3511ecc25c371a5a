/** Exactly which listings other tracked paths can print too. A line without lines below it is a file
    or a directory that pruning emptied. Directories are printed before files, both by name, so
    mostly the order settles which of the two it is. It does not where one name could move over: the
    whole directory ascends by name and ends in such a line. */
module ProjectMapTwins {
  import opened Wrappers
  import opened ProjectTree
  import opened ProjectMap
  import opened ProjectMapCheck

  predicate Leaf(node: Node) {
    node.File? || node == EMPTY
  }

  /** Every directory name comes before every file name, and the last line has none below it. */
  ghost predicate Loose(e: Entries) {
    if exists f :: f in e && e[f].File? then forall d, f :: d in e && f in e && e[d].Dir? && e[f].File? ==> Less(d, f)
    else exists z :: z in e && e[z] == EMPTY && forall d :: d in e && d != z ==> Less(d, z)
  }

  /** Some directory of the tree is loose. */
  ghost predicate Ambiguous(node: Node) {
    match node
    case File => false
    case Dir(entries) => Loose(entries) || exists k :: k in entries && Ambiguous(entries[k])
  }

  // ------------------------------------------------------ two trees with the same listing

  /** The two directories agree but for which of their leaves are files. */
  ghost predicate SameButLeaves(e: Entries, o: Entries) {
    && e.Keys == o.Keys
    && forall k :: k in e ==> e[k] == o[k] || (Leaf(e[k]) && Leaf(o[k]))
  }

  /** One common order: the names ascend all the way. */
  lemma {:induction false} CommonOrder(e: Entries, o: Entries, names: seq<Name>, k: nat)
    requires IsOrder(e, names) && IsOrder(o, names)
    requires k < |names| && e[names[k]].File? != o[names[k]].File?
    ensures forall i, j :: 0 <= i < j < |names| ==> Less(names[i], names[j])
  {
    forall i, j | 0 <= i < j < |names| ensures Less(names[i], names[j]) {
      PairAscends(e, o, names, k, i, j);
    }
  }

  lemma {:induction false} PairAscends(e: Entries, o: Entries, names: seq<Name>, k: nat, i: nat, j: nat)
    requires IsOrder(e, names) && IsOrder(o, names)
    requires k < |names| && e[names[k]].File? != o[names[k]].File? && i < j < |names|
    ensures Less(names[i], names[j])
  {
    InOrder(e, names, i, j);
    InOrder(o, names, i, j);
    InOrder(e, names, i, k);
    InOrder(o, names, i, k);
    InOrder(e, names, j, k);
    InOrder(o, names, j, k);
    if e[names[i]].File? != e[names[j]].File? && o[names[i]].File? != o[names[j]].File? {
      assert i < k < j;
      LessIsTransitive(names[i], names[k], names[j]);
    }
  }

  /** Directories that differ in some leaf but print the same names are loose. */
  lemma {:induction false} DifferentIsLoose(e: Entries, o: Entries, names: seq<Name>, k: nat)
    requires IsOrder(e, names) && IsOrder(o, names) && SameButLeaves(e, o)
    requires k < |names| && e[names[k]] != o[names[k]]
    ensures Loose(e)
  {
    CommonOrder(e, o, names, k);
    if exists f :: f in e && e[f].File? {
      forall d, f | d in e && f in e && e[d].Dir? && e[f].File? ensures Less(d, f) {
        var i :| 0 <= i < |names| && names[i] == d;
        var j :| 0 <= j < |names| && names[j] == f;
        InOrder(e, names, i, j);
      }
    } else {
      LastIsEmpty(e, o, names, k);
    }
  }

  lemma {:induction false} LastIsEmpty(e: Entries, o: Entries, names: seq<Name>, k: nat)
    requires IsOrder(e, names) && IsOrder(o, names) && SameButLeaves(e, o)
    requires k < |names| && e[names[k]] != o[names[k]] && !exists f :: f in e && e[f].File?
    requires forall i, j :: 0 <= i < j < |names| ==> Less(names[i], names[j])
    ensures Loose(e)
  {
    var z := names[|names| - 1];
    InOrder(o, names, k, |names| - 1);
    assert o[z].File? && e[z] == EMPTY;
    forall d | d in e && d != z ensures Less(d, z) {
      var i :| 0 <= i < |names| && names[i] == d;
    }
  }

  /** Trees that print alike and differ have a loose directory. */
  lemma {:induction false} TwinsAreAmbiguous(t: Node, u: Node)
    requires t.Dir? && u.Dir? && ShapeOf(t) == ShapeOf(u) && t != u
    ensures Ambiguous(t)
    decreases t
  {
    var names := Order(t.entries);
    SameNames(t, u);
    SameShapes(t, u, names);
    if k :| k in t.entries && t.entries[k] != u.entries[k] && !(Leaf(t.entries[k]) && Leaf(u.entries[k])) {
      EmptyShape(t.entries[k]);
      EmptyShape(u.entries[k]);
      TwinsAreAmbiguous(t.entries[k], u.entries[k]);
    } else {
      assert t.entries != u.entries;
      var k :| k in t.entries && t.entries[k] != u.entries[k];
      var i :| 0 <= i < |names| && names[i] == k;
      DifferentIsLoose(t.entries, u.entries, names, i);
    }
  }

  lemma {:induction false} SameNames(t: Node, u: Node)
    requires t.Dir? && u.Dir? && ShapeOf(t) == ShapeOf(u)
    ensures Order(t.entries) == Order(u.entries) && t.entries.Keys == u.entries.Keys
  {
    hide ShapesOf;
    ShapeNames(t, Order(t.entries), u, Order(u.entries));
    assert forall n :: n in t.entries <==> n in Order(t.entries);
    assert forall n :: n in u.entries <==> n in Order(u.entries);
  }

  // ------------------------------------------------------------------ making a twin

  lemma {:induction false} PathsDiffer(e: Entries, o: Entries, k: Name, p: seq<Name>)
    requires k in e && k in o && (p in PathsOf(e[k]) <==> p !in PathsOf(o[k]))
    ensures PathsOf(Dir(e)) != PathsOf(Dir(o))
  {
    PathIn(e, k, p);
    PathIn(o, k, p);
  }

  /** Changing one entry, without changing the order or its own lines, changes no line. */
  lemma {:induction false} PrintsAlike(e: Entries, o: Entries, names: seq<Name>)
    requires IsOrder(e, names) && IsOrder(o, names) && forall k :: k in e ==> k in o && ShapeOf(e[k]) == ShapeOf(o[k])
    ensures ShapeOf(Dir(e)) == ShapeOf(Dir(o))
  {
    OrderIsUnique(e, Order(e), names);
    OrderIsUnique(o, Order(o), names);
    SameShapes(Dir(e), Dir(o), names);
  }

  lemma {:induction false} LeastFile(e: Entries) returns (f: Name)
    requires exists f :: f in e && e[f].File?
    ensures f in e && e[f].File? && forall g :: g in e && e[g].File? && g != f ==> Less(f, g)
  {
    var names := Order(e);
    var x :| x in e && e[x].File?;
    var i: nat :| i < |names| && names[i] == x;
    f := FirstFile(e, names, i);
  }

  lemma {:induction false} FirstFile(e: Entries, names: seq<Name>, i: nat) returns (f: Name)
    requires IsOrder(e, names) && i < |names| && e[names[i]].File?
    ensures f in e && e[f].File? && forall g :: g in e && e[g].File? && g != f ==> Less(f, g)
  {
    if i > 0 && e[names[i - 1]].File? {
      f := FirstFile(e, names, i - 1);
    } else {
      f := names[i];
      forall g | g in e && e[g].File? && g != f ensures Less(f, g) {
        var j: nat :| j < |names| && names[j] == g;
        InOrder(e, names, i, j);
        if i > 0 {
          InOrder(e, names, j, i - 1);
        }
      }
    }
  }

  lemma {:induction false} ReorderedByOne(e: Entries, o: Entries, names: seq<Name>, x: Name)
    requires IsOrder(e, names) && x in e && x in o && o == e[x := o[x]]
    requires forall y :: y in e && y != x ==>
                 (Before(e, x, y) ==> Before(o, x, y)) && (Before(e, y, x) ==> Before(o, y, x))
    ensures IsOrder(o, names)
  {
    forall i, j | 0 <= i < j < |names| ensures Before(o, names[i], names[j]) {
      InOrder(e, names, i, j);
      BeforeIsStrict(e, names[i], names[j]);
    }
  }

  /** The first file keeps its place as an empty directory. */
  lemma {:induction false} FileKeepsPlace(e: Entries, f: Name, names: seq<Name>)
    requires IsOrder(e, names) && f in e && e[f].File?
    requires forall g :: g in e && e[g].File? && g != f ==> Less(f, g)
    requires forall d, g :: d in e && g in e && e[d].Dir? && e[g].File? ==> Less(d, g)
    ensures IsOrder(e[f := EMPTY], names)
  {
    var o := e[f := EMPTY];
    forall y | y in e && y != f
      ensures (Before(e, f, y) ==> Before(o, f, y)) && (Before(e, y, f) ==> Before(o, y, f))
    {
      if e[y].Dir? {
        assert Less(y, f);
        LessIsStrict(y, f);
      } else {
        assert Less(f, y);
        LessIsStrict(f, y);
      }
    }
    ReorderedByOne(e, o, names, f);
  }

  lemma {:induction false} FileBecomesEmpty(e: Entries) returns (o: Entries)
    requires Loose(e) && Clean(Dir(e)) && exists f :: f in e && e[f].File?
    ensures Clean(Dir(o)) && ShapeOf(Dir(o)) == ShapeOf(Dir(e)) && PathsOf(Dir(o)) != PathsOf(Dir(e))
  {
    var f := LeastFile(e);
    o := e[f := EMPTY];
    CleanWith(e, f, EMPTY);
    hide Clean, IsOrder, Before, Less;
    FileKeepsPlace(e, f, Order(e));
    EmptyShape(EMPTY);
    PrintsAlike(e, o, Order(e));
    RootPath(EMPTY);
    PathsDiffer(e, o, f, []);
  }

  lemma {:induction false} EmptyBecomesFile(e: Entries) returns (o: Entries)
    requires Loose(e) && Clean(Dir(e)) && !exists f :: f in e && e[f].File?
    ensures Clean(Dir(o)) && ShapeOf(Dir(o)) == ShapeOf(Dir(e)) && PathsOf(Dir(o)) != PathsOf(Dir(e))
  {
    var z :| z in e && e[z] == EMPTY && forall d :: d in e && d != z ==> Less(d, z);
    o := e[z := File];
    forall y | y in e && y != z
      ensures (Before(e, z, y) ==> Before(o, z, y)) && (Before(e, y, z) ==> Before(o, y, z))
    {
      LessIsStrict(y, z);
    }
    ReorderedByOne(e, o, Order(e), z);
    EmptyShape(EMPTY);
    PrintsAlike(e, o, Order(e));
    RootPath(EMPTY);
    PathsDiffer(e, o, z, []);
  }

  /** A twin of a directory inside makes one of the whole. */
  lemma {:induction false} TwinAbove(e: Entries, k: Name, child: Node)
    requires Clean(Dir(e)) && k in e && e[k].Dir? && child.Dir? && Clean(child)
    requires ShapeOf(child) == ShapeOf(e[k]) && PathsOf(child) != PathsOf(e[k])
    ensures var o := e[k := child];
            Clean(Dir(o)) && ShapeOf(Dir(o)) == ShapeOf(Dir(e)) && PathsOf(Dir(o)) != PathsOf(Dir(e))
  {
    var o := e[k := child];
    hide Clean, ShapeOf, PathsOf;
    CleanWith(e, k, child);
    ReorderedByOne(e, o, Order(e), k);
    PrintsAlike(e, o, Order(e));
    var p :| (p in PathsOf(e[k])) != (p in PathsOf(child));
    PathsDiffer(e, o, k, p);
  }

  /** An ambiguous tree has a twin: the same lines, other paths. */
  lemma {:induction false} AmbiguousHasTwin(t: Node) returns (u: Node)
    requires t.Dir? && Ambiguous(t) && Clean(t)
    ensures u.Dir? && Clean(u) && ShapeOf(u) == ShapeOf(t) && PathsOf(u) != PathsOf(t)
    decreases t
  {
    var e := t.entries;
    if Loose(e) {
      var o: Entries;
      if exists f :: f in e && e[f].File? {
        o := FileBecomesEmpty(e);
      } else {
        o := EmptyBecomesFile(e);
      }
      u := Dir(o);
    } else {
      var k :| k in e && Ambiguous(e[k]);
      var child := AmbiguousHasTwin(e[k]);
      TwinAbove(e, k, child);
      u := Dir(e[k := child]);
    }
  }

  lemma {:induction false} CleanWith(e: Entries, k: Name, child: Node)
    requires Clean(Dir(e)) && k in e && Clean(child)
    ensures Clean(Dir(e[k := child]))
  {
  }

  // ------------------------------------------------------- tracked paths for every clean tree

  function StuffedEntry(node: Node): Node
    decreases node, 1
  {
    if node.File? then File else if node == EMPTY then Dir(map["data" := File]) else Stuffed(node)
  }

  /** Every empty directory below gets a file that pruning drops. */
  function Stuffed(node: Node): Node
    decreases node, 0
  {
    match node
    case File => File
    case Dir(entries) => Dir(map k | k in entries :: StuffedEntry(entries[k]))
  }

  lemma {:induction false} StuffedIs(node: Node)
    requires node.Dir? && Clean(node)
    ensures Stuffed(node).Dir? && NoEmptyDir(Stuffed(node)) && Prune(Stuffed(node)) == node
    ensures node != EMPTY ==> Stuffed(node) != EMPTY
    decreases node, 0
  {
    var s := Stuffed(node);
    forall k | k in node.entries
      ensures s.entries[k] != EMPTY && NoEmptyDir(s.entries[k]) && Prune(s.entries[k]) == node.entries[k]
    {
      StuffedEntryIs(node.entries[k]);
    }
    assert Prune(s).entries == node.entries;
    if k :| k in node.entries {
      assert k in s.entries;
    }
  }

  lemma {:induction false} StuffedEntryIs(node: Node)
    requires Clean(node)
    ensures var s := StuffedEntry(node); s != EMPTY && NoEmptyDir(s) && Prune(s) == node
    decreases node, 1
  {
    if node == EMPTY {
      assert StuffedEntry(node).entries["data"] == File;
      assert Prune(StuffedEntry(node)).entries == map[];
    } else if node.Dir? {
      StuffedIs(node);
    }
  }

  /** Every clean tree is the printed tree of some tracked paths. */
  lemma {:induction false} CleanIsPrintable(node: Node) returns (files: seq<Path>)
    requires node.Dir? && Clean(node)
    ensures PrefixFree(PathSet(files)) && PrunedTree(files) == node
  {
    var s := Stuffed(node);
    StuffedIs(node);
    RootPath(s);
    files := ListPaths(PathsOf(s));
    forall p, q | p in PathSet(files) && q in PathSet(files) ensures !Clash(p, q) {
      TreeIsPrefixFree(s, p, q);
    }
    BuildStandsForPaths(files);
    PathsDetermineTree(Dir(Build(files).value), s);
  }

  // -------------------------------------------------------------------- the theorem

  /** Other paths that print the same lines but are not the same visible paths. */
  ghost predicate Twins(files: seq<Path>, others: seq<Path>) {
    PrefixFree(PathSet(others)) && Render(others) == Render(files) && VisiblePaths(others) != VisiblePaths(files)
  }

  /** A listing can be printed for other visible paths exactly when its tree is ambiguous. */
  lemma {:induction false} ListingHasTwin(files: seq<Path>)
    requires PrefixFree(PathSet(files))
    ensures (exists others :: Twins(files, others)) <==> Ambiguous(PrunedTree(files))
  {
    hide Render, VisiblePaths, Ambiguous;
    var t := PrunedTree(files);
    RenderIs(files);
    PrunedIsVisible(files);
    if Ambiguous(t) {
      BuildStandsForPaths(files);
      PrunedIsClean(Dir(Build(files).value));
      var u := AmbiguousHasTwin(t);
      var others := CleanIsPrintable(u);
      SameListing(files, others);
      PrunedIsVisible(others);
      assert Twins(files, others);
    }
    if others :| Twins(files, others) {
      SameListing(files, others);
      RenderIs(others);
      PrunedIsVisible(others);
      TwinsAreAmbiguous(t, PrunedTree(others));
    }
  }
}
