/** The listing of the project map. */
module ProjectMap {
  // The listing that `scripts/generate_project_map.py` prints for a tree, and why `--check` can
  // trust it: the listing depends on nothing but the visible paths, and it gives them back.

  import opened Wrappers
  import opened ProjectTree

  // -------------------------------------------------------------- string order

  /** Python's order on strings, code point by code point. */
  predicate Less(a: Name, b: Name) {
    if b == [] then false
    else if a == [] then true
    else a[0] < b[0] || (a[0] == b[0] && Less(a[1..], b[1..]))
  }

  lemma {:induction false} LessIsTotal(a: Name, b: Name)
    ensures Less(a, b) || a == b || Less(b, a)
  {
    if a != [] && b != [] && a[0] == b[0] {
      LessIsTotal(a[1..], b[1..]);
      assert a == [a[0]] + a[1..] && b == [b[0]] + b[1..];
    }
  }

  lemma {:induction false} LessIsStrict(a: Name, b: Name)
    requires Less(a, b)
    ensures !Less(b, a) && a != b
  {
    if a != [] && a[0] == b[0] {
      LessIsStrict(a[1..], b[1..]);
    }
  }

  lemma {:induction false} LessIsTransitive(a: Name, b: Name, c: Name)
    requires Less(a, b) && Less(b, c)
    ensures Less(a, c)
  {
    if a != [] && a[0] == b[0] == c[0] {
      LessIsTransitive(a[1..], b[1..], c[1..]);
    }
  }

  /** How many characters two names share at the front. */
  function Common(a: Name, b: Name): (n: nat)
    ensures n <= |a| && n <= |b| && a[..n] == b[..n]
    ensures n < |a| && n < |b| ==> a[n] != b[n]
  {
    if a == [] || b == [] || a[0] != b[0] then 0 else Common(a[1..], b[1..]) + 1
  }

  /** The order without its recursion: a proper prefix comes first, and otherwise the first
      characters that differ decide. */
  lemma {:induction false} LessIs(a: Name, b: Name)
    ensures var n := Common(a, b);
            Less(a, b) <==> n < |b| && (n == |a| || a[n] < b[n])
  {
    if a != [] && b != [] && a[0] == b[0] {
      LessIs(a[1..], b[1..]);
    }
  }

  /** The same, at any index: two names that agree before it compare as their characters there do. */
  lemma {:induction false} LessDecides(a: Name, b: Name, n: nat)
    requires n <= |a| && n <= |b| && a[..n] == b[..n]
    ensures n == |a| < |b| ==> Less(a, b)
    ensures n == |b| ==> !Less(a, b)
    ensures n < |a| && n < |b| && a[n] != b[n] ==> (Less(a, b) <==> a[n] < b[n])
  {
    if n > 0 {
      assert a[0] == a[..n][0] == b[..n][0] == b[0];
      assert a[1..][..n - 1] == a[..n][1..] == b[..n][1..] == b[1..][..n - 1];
      LessDecides(a[1..], b[1..], n - 1);
    }
  }


  // ------------------------------------------------------------ order of entries

  type Entries = map<Name, Node>

  /** The sort key (is a file, name): directories first, then by name. */
  predicate Before(e: Entries, a: Name, b: Name)
    requires a in e && b in e
  {
    if e[a].File? != e[b].File? then e[a].Dir? else Less(a, b)
  }

  ghost predicate Sorted(e: Entries, names: seq<Name>) {
    && (forall n :: n in names ==> n in e)
    && forall i, j :: 0 <= i < j < |names| ==> Before(e, names[i], names[j])
  }

  /** The names of a directory in print order. */
  ghost predicate IsOrder(e: Entries, names: seq<Name>) {
    Sorted(e, names) && forall n :: n in e ==> n in names
  }

  lemma {:induction false} BeforeIsStrict(e: Entries, a: Name, b: Name)
    requires a in e && b in e && Before(e, a, b)
    ensures !Before(e, b, a) && a != b
  {
    if e[a].File? == e[b].File? {
      LessIsStrict(a, b);
    }
  }

  lemma {:induction false} BeforeIsTransitive(e: Entries, a: Name, b: Name, c: Name)
    requires a in e && b in e && c in e && Before(e, a, b) && Before(e, b, c)
    ensures Before(e, a, c)
  {
    if e[a].File? == e[b].File? == e[c].File? {
      LessIsTransitive(a, b, c);
    }
  }

  function InsertName(e: Entries, names: seq<Name>, k: Name): seq<Name>
    requires k in e && forall n :: n in names ==> n in e
  {
    if names == [] || Before(e, names[|names| - 1], k) then names + [k]
    else InsertName(e, names[..|names| - 1], k) + [names[|names| - 1]]
  }

  lemma {:induction false} InsertKeepsSorted(e: Entries, names: seq<Name>, k: Name)
    requires k in e && k !in names && Sorted(e, names)
    ensures Sorted(e, InsertName(e, names, k)) && forall n :: n in InsertName(e, names, k) <==> n in names || n == k
  {
    if names == [] || Before(e, names[|names| - 1], k) {
      forall j | 0 <= j < |names| - 1 ensures Before(e, names[j], k) {
        BeforeIsTransitive(e, names[j], names[|names| - 1], k);
      }
    } else {
      var front, last := names[..|names| - 1], names[|names| - 1];
      LessIsTotal(last, k);
      InsertKeepsSorted(e, front, k);
      forall n | n in InsertName(e, front, k) ensures Before(e, n, last) {
        if n != k {
          var j :| 0 <= j < |front| && front[j] == n;
        }
      }
      assert names == front + [last];
    }
  }

  /** `sorted(node.items(), ...)`, whatever order the dictionary yields its items in. */
  method SortEntries(e: Entries) returns (names: seq<Name>)
    ensures IsOrder(e, names)
  {
    var rest := e.Keys;
    names := [];
    while rest != {}
      invariant Sorted(e, names)
      invariant rest <= e.Keys && forall n :: n in e <==> n in names || n in rest
      invariant forall n :: n in names ==> n !in rest
      decreases |rest|
    {
      var k :| k in rest;
      InsertKeepsSorted(e, names, k);
      names := InsertName(e, names, k);
      rest := rest - {k};
    }
  }

  lemma {:induction false} OrderIsUnique(e: Entries, a: seq<Name>, b: seq<Name>)
    requires IsOrder(e, a) && IsOrder(e, b)
    ensures a == b
  {
    SortedIsUnique(e, a, b);
  }

  lemma {:induction false} SortedIsUnique(e: Entries, a: seq<Name>, b: seq<Name>)
    requires Sorted(e, a) && Sorted(e, b) && forall n :: n in a <==> n in b
    ensures a == b
  {
    assert a != [] ==> a[0] in b;
    assert b != [] ==> b[0] in a;
    if a != [] && b != [] {
      FirstAgrees(e, a, b);
      TailMembers(e, a);
      TailMembers(e, b);
      SortedIsUnique(e, a[1..], b[1..]);
    }
  }

  lemma {:induction false} FirstAgrees(e: Entries, a: seq<Name>, b: seq<Name>)
    requires Sorted(e, a) && Sorted(e, b) && a != [] && b != [] && forall n :: n in a <==> n in b
    ensures a[0] == b[0]
  {
    if a[0] != b[0] {
      assert a[0] in b && b[0] in a;
      var i :| 0 <= i < |a| && a[i] == b[0];
      var j :| 0 <= j < |b| && b[j] == a[0];
      BeforeIsStrict(e, a[0], a[i]);
      assert false;
    }
  }

  lemma {:induction false} TailMembers(e: Entries, a: seq<Name>)
    requires Sorted(e, a) && a != []
    ensures Sorted(e, a[1..]) && forall n :: n in a[1..] <==> n in a && n != a[0]
  {
    forall i | 0 < i < |a| ensures a[i] != a[0] {
      BeforeIsStrict(e, a[0], a[i]);
    }
    assert forall n :: n in a ==> n == a[0] || n in a[1..];
  }

  lemma {:induction false} OrderExists(e: Entries, keys: set<Name>)
    requires keys <= e.Keys
    ensures exists names :: Sorted(e, names) && forall n :: n in names <==> n in keys
    decreases |keys|
  {
    if keys == {} {
      assert Sorted(e, []) && forall n :: n in [] <==> n in keys;
    } else {
      var k :| k in keys;
      OrderExists(e, keys - {k});
      var rest :| Sorted(e, rest) && forall n :: n in rest <==> n in keys - {k};
      InsertKeepsSorted(e, rest, k);
      var names := InsertName(e, rest, k);
      assert Sorted(e, names) && forall n :: n in names <==> n in keys;
    }
  }

  ghost function Order(e: Entries): (names: seq<Name>)
    ensures IsOrder(e, names)
  {
    assert exists names :: IsOrder(e, names) by {
      OrderExists(e, e.Keys);
      var names :| Sorted(e, names) && forall n :: n in names <==> n in e.Keys;
      assert IsOrder(e, names);
    }
    var names :| IsOrder(e, names);
    names
  }

  // ------------------------------------------------------------------- the listing

  /** The listing without its drawing: names in print order, each with what is below it. */
  datatype Shape = Shape(name: Name, below: seq<Shape>)

  ghost function ShapeOf(node: Node): seq<Shape>
    decreases node, 1, 0
  {
    match node
    case File => []
    case Dir(entries) => ShapesOf(node, Order(entries))
  }

  ghost function ShapesOf(node: Node, names: seq<Name>): (r: seq<Shape>)
    requires node.Dir? && forall n :: n in names ==> n in node.entries
    ensures |r| == |names| && forall i :: 0 <= i < |r| ==> r[i].name == names[i]
    decreases node, 0, |names|
  {
    if names == [] then []
    else [Shape(names[0], ShapeOf(node.entries[names[0]]))] + ShapesOf(node, names[1..])
  }

  const TEE := "├── "
  const ELBOW := "└── "
  const BAR := "│   "
  const BLANK := "    "

  function Print(shapes: seq<Shape>, prefix: string): seq<string> {
    if shapes == [] then []
    else
      var last := |shapes| == 1;
      [prefix + (if last then ELBOW else TEE) + shapes[0].name]
      + Print(shapes[0].below, prefix + if last then BLANK else BAR)
      + Print(shapes[1..], prefix)
  }

  /** The lines for a list of files; None when the trie cannot be built. */
  ghost function Render(files: seq<Path>): Option<seq<string>> {
    match Build(files)
    case None => None
    case Some(entries) => Some(Print(ShapeOf(Prune(Dir(entries))), ""))
  }

  // The drawing, entry by entry.

  /** The lines of one entry; the last of its directory gets the elbow, and nothing is drawn below
      it. */
  function Block(s: Shape, prefix: string, last: bool): seq<string> {
    if last then [prefix + "└── " + s.name] + Print(s.below, prefix + "    ")
    else [prefix + "├── " + s.name] + Print(s.below, prefix + "│   ")
  }

  function Joined(blocks: seq<seq<string>>): seq<string> {
    if blocks == [] then [] else Joined(blocks[..|blocks| - 1]) + blocks[|blocks| - 1]
  }

  lemma {:induction false} JoinedFirst(first: seq<string>, blocks: seq<seq<string>>)
    ensures Joined([first] + blocks) == first + Joined(blocks)
  {
    if blocks == [] {
      assert [first] + blocks == [first];
      assert Joined([first]) == Joined([]) + first;
    } else {
      JoinedFirst(first, blocks[..|blocks| - 1]);
      assert ([first] + blocks)[..|blocks|] == [first] + blocks[..|blocks| - 1];
    }
  }

  lemma {:induction false} FirstBlock(shapes: seq<Shape>, prefix: string)
    requires shapes != []
    ensures Print(shapes, prefix) == Block(shapes[0], prefix, |shapes| == 1) + Print(shapes[1..], prefix)
  {
  }

  /** The printed lines are those of the entries, one after the other. */
  lemma {:induction false} PrintIsBlocks(shapes: seq<Shape>, prefix: string)
    ensures Print(shapes, prefix) ==
            Joined(seq(|shapes|, i requires 0 <= i < |shapes| => Block(shapes[i], prefix, i == |shapes| - 1)))
  {
    if shapes != [] {
      var rest := shapes[1..];
      var blocks := seq(|shapes|, i requires 0 <= i < |shapes| => Block(shapes[i], prefix, i == |shapes| - 1));
      var later := seq(|rest|, i requires 0 <= i < |rest| => Block(rest[i], prefix, i == |rest| - 1));
      PrintIsBlocks(rest, prefix);
      assert blocks == [blocks[0]] + later;
      JoinedFirst(blocks[0], later);
      FirstBlock(shapes, prefix);
    }
  }

  lemma {:induction false} OrderNames(node: Node)
    requires node.Dir?
    ensures var names, shapes := Order(node.entries), ShapeOf(node);
            && |shapes| == |names| && (forall i :: 0 <= i < |names| ==> shapes[i].name == names[i])
            && forall k :: k in node.entries ==> exists i :: 0 <= i < |shapes| && shapes[i].name == k
  {
    var names, shapes := Order(node.entries), ShapeOf(node);
    forall k | k in node.entries ensures exists i :: 0 <= i < |shapes| && shapes[i].name == k {
      var i :| 0 <= i < |names| && names[i] == k;
      assert shapes[i].name == k;
    }
  }

  /** What a directory prints, in order: each entry once with what is below it, directories before
      files, and names of a kind ascending, by the first characters that differ or as a prefix. */
  lemma {:induction false} ListingAscends(node: Node)
    requires node.Dir?
    ensures var e, shapes := node.entries, ShapeOf(node);
            && (forall i :: 0 <= i < |shapes| ==>
                      shapes[i].name in e && shapes[i].below == ShapeOf(e[shapes[i].name]))
            && (forall k :: k in e ==> exists i :: 0 <= i < |shapes| && shapes[i].name == k)
            && forall i, j :: 0 <= i < j < |shapes| ==>
                 var a, b := shapes[i].name, shapes[j].name;
                 var n := Common(a, b);
                 (e[a].Dir? && e[b].File?) || (e[a].Dir? == e[b].Dir? && n < |b| && (n == |a| || a[n] < b[n]))
  {
    hide Less, Common, Order, ShapesOf;
    var e, shapes, names := node.entries, ShapeOf(node), Order(node.entries);
    ShapesAt(node, names);
    OrderNames(node);
    forall i, j | 0 <= i < j < |shapes|
      ensures var a, b := shapes[i].name, shapes[j].name;
              var n := Common(a, b);
              (e[a].Dir? && e[b].File?) || (e[a].Dir? == e[b].Dir? && n < |b| && (n == |a| || a[n] < b[n]))
    {
      assert Before(e, names[i], names[j]);
      LessIs(names[i], names[j]);
    }
  }

  lemma {:induction false} ShapesAt(node: Node, names: seq<Name>)
    requires node.Dir? && forall n :: n in names ==> n in node.entries
    ensures forall i :: 0 <= i < |names| ==> ShapesOf(node, names)[i].below == ShapeOf(node.entries[names[i]])
  {
    if names != [] {
      ShapesAt(node, names[1..]);
    }
  }

  lemma {:induction false} PrintEntries(node: Node, names: seq<Name>, prefix: string, head: string, deeper: string)
    requires node.Dir? && names != [] && forall n :: n in names ==> n in node.entries
    requires var last := |names| == 1;
             && head == prefix + (if last then ELBOW else TEE) + names[0]
             && deeper == prefix + if last then BLANK else BAR
    ensures Print(ShapesOf(node, names), prefix) ==
            [head] + Print(ShapeOf(node.entries[names[0]]), deeper) + Print(ShapesOf(node, names[1..]), prefix)
    ensures node.entries[names[0]].File? ==> Print(ShapeOf(node.entries[names[0]]), deeper) == []
  {
  }

  lemma {:induction false} PrintNothing(node: Node, prefix: string)
    requires node.Dir?
    ensures Print(ShapesOf(node, []), prefix) == []
  {
  }

  lemma {:induction false} Regroup(a: seq<string>, head: string, b: seq<string>, c: seq<string>)
    ensures a + [head] + b + c == a + ([head] + b + c)
    ensures b == [] ==> a + [head] + c == a + ([head] + b + c)
  {
  }

  /** `render_tree`'s state: the lines written so far. */
  class Listing {
    var lines: seq<string>

    constructor ()
      ensures lines == []
    {
      lines := [];
    }

    /** `walk`. */
    method Walk(node: Node, prefix: string)
      requires node.Dir?
      modifies this
      ensures lines == old(lines) + Print(ShapeOf(node), prefix)
      decreases node, 1, 0
    {
      var names := SortEntries(node.entries);
      OrderIsUnique(node.entries, names, Order(node.entries));
      WalkEntries(node, names, prefix);
    }

    /** The loop of `walk` over the remaining entries. */
    method WalkEntries(node: Node, names: seq<Name>, prefix: string)
      requires node.Dir? && forall n :: n in names ==> n in node.entries
      modifies this
      ensures lines == old(lines) + Print(ShapesOf(node, names), prefix)
      decreases node, 0, |names|
    {
      hide Print, ShapeOf, ShapesOf;
      if names != [] {
        var child, last := node.entries[names[0]], |names| == 1;
        ghost var before := lines;
        var head, deeper := prefix + (if last then ELBOW else TEE) + names[0], prefix + if last then BLANK else BAR;
        PrintEntries(node, names, prefix, head, deeper);
        lines := lines + [head];
        if child.Dir? {
          Walk(child, deeper);
        }
        WalkEntries(node, names[1..], prefix);
        Regroup(before, head, Print(ShapeOf(child), deeper), Print(ShapesOf(node, names[1..]), prefix));
      } else {
        PrintNothing(node, prefix);
      }
    }
  }

  method RenderTree(files: seq<Path>) returns (r: Option<seq<string>>)
    ensures r == Render(files)
  {
    hide Print, ShapeOf, Insert;
    var root: map<Name, Node> := map[];
    for i := 0 to |files|
      invariant Build(files[..i]) == Some(root)
    {
      BuildStep(files, i);
      var grown := Insert(root, files[i]);
      if grown.None? {
        BuildStuck(files, i + 1);
        return None;
      }
      root := grown.value;
    }
    assert files[..|files|] == files;
    var listing := new Listing();
    listing.Walk(Prune(Dir(root)), "");
    assert listing.lines == Print(ShapeOf(Prune(Dir(root))), "");
    r := Some(listing.lines);
  }

  lemma {:induction false} BuildStep(files: seq<Path>, i: nat)
    requires i < |files| && Build(files[..i]).Some?
    ensures Build(files[..i + 1]) == Insert(Build(files[..i]).value, files[i])
  {
    assert files[..i + 1][..i] == files[..i];
  }

  lemma {:induction false} BuildStuck(files: seq<Path>, i: nat)
    requires i <= |files| && Build(files[..i]).None?
    ensures Build(files).None?
    decreases |files| - i
  {
    if i < |files| {
      assert files[..i + 1][..i] == files[..i];
      BuildStuck(files, i + 1);
    } else {
      assert files[..i] == files;
    }
  }

  // ------------------------------------------------------------------ reading it back

  /** Does a line start an entry at this depth (rather than belong below one)? */
  predicate StartsEntry(line: string, depth: nat) {
    depth < |line| && (line[depth] == TEE[0] || line[depth] == ELBOW[0])
  }

  /** How many of the first lines belong below the entry before them. */
  function Below(lines: seq<string>, depth: nat): (n: nat)
    ensures n <= |lines|
  {
    if lines == [] || StartsEntry(lines[0], depth) then 0 else Below(lines[1..], depth) + 1
  }

  function Parse(lines: seq<string>, depth: nat): seq<Shape>
    decreases |lines|
  {
    if lines == [] then []
    else
      var n := Below(lines[1..], depth);
      var name := if depth + 4 <= |lines[0]| then lines[0][depth + 4..] else [];
      [Shape(name, Parse(lines[1..n + 1], depth + 4))] + Parse(lines[n + 1..], depth)
  }

  ghost predicate AllExtend(lines: seq<string>, prefix: string) {
    forall i :: 0 <= i < |lines| ==> prefix <= lines[i]
  }

  lemma {:induction false} ExtendTrans(lines: seq<string>, longer: string, prefix: string)
    requires AllExtend(lines, longer) && prefix <= longer
    ensures AllExtend(lines, prefix)
  {
  }

  lemma {:induction false} PrintExtends(shapes: seq<Shape>, prefix: string)
    ensures AllExtend(Print(shapes, prefix), prefix)
    ensures shapes != [] ==> Print(shapes, prefix) != [] && StartsEntry(Print(shapes, prefix)[0], |prefix|)
  {
    if shapes != [] {
      var deeper := prefix + if |shapes| == 1 then BLANK else BAR;
      PrintExtends(shapes[0].below, deeper);
      ExtendTrans(Print(shapes[0].below, deeper), deeper, prefix);
      PrintExtends(shapes[1..], prefix);
    }
  }

  /** Lines drawn deeper are skipped, up to the next entry. */
  lemma {:induction false} BelowSkips(deep: seq<string>, rest: seq<string>, prefix: string, bar: string)
    requires bar == BAR || bar == BLANK
    requires AllExtend(deep, prefix + bar)
    requires rest == [] || StartsEntry(rest[0], |prefix|)
    ensures Below(deep + rest, |prefix|) == |deep|
  {
    if deep == [] {
      assert deep + rest == rest;
    } else {
      assert (deep + rest)[1..] == deep[1..] + rest;
      assert deep[0][|prefix|] == (prefix + bar)[|prefix|] == bar[0];
      BelowSkips(deep[1..], rest, prefix, bar);
    }
  }

  /** The lines give the shape back. */
  lemma {:induction false} ParsePrint(shapes: seq<Shape>, prefix: string)
    ensures Parse(Print(shapes, prefix), |prefix|) == shapes
  {
    if shapes != [] {
      var last := |shapes| == 1;
      var head := prefix + (if last then ELBOW else TEE) + shapes[0].name;
      var bar := if last then BLANK else BAR;
      var deep, rest := Print(shapes[0].below, prefix + bar), Print(shapes[1..], prefix);
      var lines := Print(shapes, prefix);
      assert lines == [head] + (deep + rest);
      PrintExtends(shapes[0].below, prefix + bar);
      PrintExtends(shapes[1..], prefix);
      BelowSkips(deep, rest, prefix, bar);
      assert lines[1..] == deep + rest;
      assert lines[1..|deep| + 1] == deep;
      assert lines[|deep| + 1..] == rest;
      assert head[|prefix| + 4..] == shapes[0].name;
      ParsePrint(shapes[0].below, prefix + bar);
      ParsePrint(shapes[1..], prefix);
    }
  }

  // ---------------------------------------------------------------- main theorems

  /** The entries a forest stands for, reading a name with nothing below it as a file. */
  function Rebuild(shapes: seq<Shape>): map<Name, Node> {
    if shapes == [] then map[]
    else Rebuild(shapes[1..])[shapes[0].name := if shapes[0].below == [] then File else Dir(Rebuild(shapes[0].below))]
  }

  /** A directory below the root prints at least one line. */
  lemma {:induction false} ChildIsFull(node: Node, k: Name)
    requires node.Dir? && NoEmptyDir(node) && k in node.entries
    ensures NoEmptyDir(node.entries[k])
    ensures ShapeOf(node.entries[k]) == [] <==> node.entries[k].File?
  {
    hide ShapesOf;
    var child := node.entries[k];
    if child.Dir? {
      var j :| j in child.entries;
      assert j in Order(child.entries);
    }
  }

  lemma {:induction false} RebuildFirst(first: Shape, rest: seq<Shape>)
    ensures Rebuild([first] + rest) ==
            Rebuild(rest)[first.name := if first.below == [] then File else Dir(Rebuild(first.below))]
  {
    assert ([first] + rest)[1..] == rest;
  }

  lemma {:induction false} FirstEntry(node: Node, names: seq<Name>)
    requires node.Dir? && Sorted(node.entries, names) && names != []
    ensures Sorted(node.entries, names[1..]) && names[0] in node.entries
    ensures ShapesOf(node, names) == [Shape(names[0], ShapeOf(node.entries[names[0]]))] + ShapesOf(node, names[1..])
    ensures (map n | n in names :: node.entries[n]) ==
            (map n | n in names[1..] :: node.entries[n])[names[0] := node.entries[names[0]]]
  {
    hide ShapeOf;
    TailMembers(node.entries, names);
  }

  lemma {:induction false} RebuildEntries(node: Node, names: seq<Name>)
    requires node.Dir? && Sorted(node.entries, names) && NoEmptyDir(node)
    ensures Rebuild(ShapesOf(node, names)) == map n | n in names :: node.entries[n]
    decreases node, 0, |names|
  {
    if names != [] {
      hide NoEmptyDir, Sorted, Rebuild, Order, ShapesOf, ShapeOf;
      FirstEntry(node, names);
      var child := node.entries[names[0]];
      ChildIsFull(node, names[0]);
      RebuildEntries(node, names[1..]);
      RebuildFirst(Shape(names[0], ShapeOf(child)), ShapesOf(node, names[1..]));
      if child.Dir? {
        RebuildTree(child);
      }
    }
  }

  /** A tree without empty directories can be read off its listing. */
  lemma {:induction false} RebuildTree(node: Node)
    requires node.Dir? && NoEmptyDir(node)
    ensures Dir(Rebuild(ShapeOf(node))) == node
    decreases node, 1, 0
  {
    hide Rebuild, ShapesOf, NoEmptyDir;
    var names := Order(node.entries);
    RebuildEntries(node, names);
    assert (map n | n in names :: node.entries[n]) == node.entries;
  }

  ghost function VisiblePaths(files: seq<Path>): set<seq<Name>> {
    set p | p in PathSet(files) && Visible(p)
  }

  /** Every directory that survives pruning still has a visible file somewhere below it. */
  ghost predicate NothingEmptied(paths: set<seq<Name>>) {
    forall p, n :: p in paths && 0 < n < |p| && Visible(p[..n]) ==> HasVisibleBelow(paths, p[..n])
  }

  ghost predicate HasVisibleBelow(paths: set<seq<Name>>, d: seq<Name>) {
    exists q :: q in paths && Visible(q) && d < q
  }

  lemma {:induction false} NothingEmptiedBelow(node: Node, k: Name)
    requires node.Dir? && k in node.entries && k !in EXCLUDED && NothingEmptied(PathsOf(node))
    ensures NothingEmptied(PathsOf(node.entries[k]))
    ensures node.entries[k].Dir? && PathsOf(node.entries[k]) != {} ==> HasVisibleBelow(PathsOf(node.entries[k]), [])
  {
    var child := node.entries[k];
    forall p, n | p in PathsOf(child) && 0 < n < |p| && Visible(p[..n])
      ensures HasVisibleBelow(PathsOf(child), p[..n])
    {
      PathIn(node.entries, k, p);
      assert ([k] + p)[..n + 1] == [k] + p[..n];
      VisibleParts([k] + p[..n]);
      VisibleBelowChild(node, k, p[..n]);
    }
    if child.Dir? && PathsOf(child) != {} {
      var p :| p in PathsOf(child);
      RootPath(child);
      PathIn(node.entries, k, p);
      assert ([k] + p)[..1] == [k] + [];
      VisibleBelowChild(node, k, []);
    }
  }

  lemma {:induction false} VisibleBelowChild(node: Node, k: Name, d: seq<Name>)
    requires node.Dir? && k in node.entries && HasVisibleBelow(PathsOf(node), [k] + d)
    ensures HasVisibleBelow(PathsOf(node.entries[k]), d)
  {
    var q :| q in PathsOf(node) && Visible(q) && [k] + d < q;
    SplitPath(node.entries, q);
    assert q[0] == ([k] + d)[0] == k;
    assert q[1..][..|d|] == q[..|d| + 1][1..] == d;
    VisibleParts(q);
    assert q[1..] in PathsOf(node.entries[k]) && Visible(q[1..]) && d < q[1..];
  }

  lemma {:induction false} PruningLeavesNoEmptyDir(node: Node)
    requires NoEmptyDir(node) && NothingEmptied(PathsOf(node))
    ensures NoEmptyDir(Prune(node))
    decreases node
  {
    if node.Dir? {
      forall k | k in node.entries && k !in EXCLUDED
        ensures Prune(node.entries[k]) != Dir(map[]) && NoEmptyDir(Prune(node.entries[k]))
      {
        NothingEmptiedBelow(node, k);
        PruningLeavesNoEmptyDir(node.entries[k]);
        StaysNonEmpty(node.entries[k]);
      }
    }
  }

  lemma {:induction false} StaysNonEmpty(child: Node)
    requires NoEmptyDir(child) && child != Dir(map[])
    requires child.Dir? && PathsOf(child) != {} ==> HasVisibleBelow(PathsOf(child), [])
    ensures Prune(child) != Dir(map[])
  {
    if child.Dir? {
      SomePath(child);
      var q :| q in PathsOf(child) && Visible(q);
      PruneKeepsVisible(child, q);
      SplitPath(Prune(child).entries, q);
    }
  }

  /** Any two orders, with any repetitions, of the same prefix-free paths give the same lines. */
  lemma {:induction false} ListingIsCanonical(files: seq<Path>, others: seq<Path>)
    requires PrefixFree(PathSet(files)) && PathSet(files) == PathSet(others)
    ensures Render(files).Some? && Render(files) == Render(others)
  {
    BuildStandsForPaths(files);
    BuildStandsForPaths(others);
    PathsDetermineTree(Dir(Build(files).value), Dir(Build(others).value));
  }

  lemma {:induction false} PrunedPaths(files: seq<Path>)
    requires PrefixFree(PathSet(files)) && NothingEmptied(PathSet(files))
    ensures Build(files).Some?
    ensures var t := Prune(Dir(Build(files).value)); NoEmptyDir(t) && PathsOf(t) == VisiblePaths(files)
  {
    BuildStandsForPaths(files);
    var tree := Dir(Build(files).value);
    PruningLeavesNoEmptyDir(tree);
    forall p ensures p in PathsOf(Prune(tree)) <==> p in VisiblePaths(files) {
      PruneKeepsVisible(tree, p);
    }
  }

  /** `--check` compares listings: they agree exactly when the visible paths do. */
  lemma {:induction false} ListingIsFaithful(files: seq<Path>, others: seq<Path>)
    requires PrefixFree(PathSet(files)) && NothingEmptied(PathSet(files))
    requires PrefixFree(PathSet(others)) && NothingEmptied(PathSet(others))
    ensures Render(files) == Render(others) <==> VisiblePaths(files) == VisiblePaths(others)
  {
    PrunedPaths(files);
    PrunedPaths(others);
    var t, u := Prune(Dir(Build(files).value)), Prune(Dir(Build(others).value));
    if Render(files) == Render(others) {
      ParsePrint(ShapeOf(t), "");
      ParsePrint(ShapeOf(u), "");
      RebuildTree(t);
      RebuildTree(u);
    } else if VisiblePaths(files) == VisiblePaths(others) {
      PathsDetermineTree(t, u);
    }
  }

  const BURIED: Path := ["src", "logs", "x"]
  const PLAIN: Path := ["src"]

  lemma {:induction false} BuriedTree()
    ensures var files: seq<Path> := [BURIED];
            Build(files).Some? && Prune(Dir(Build(files).value)) == Dir(map["src" := Dir(map[])])
  {
  }

  lemma {:induction false} PlainTree()
    ensures var files: seq<Path> := [PLAIN];
            Build(files).Some? && Prune(Dir(Build(files).value)) == Dir(map["src" := File])
  {
  }

  /** Where pruning empties a directory, the listing cannot tell it from a file. */
  lemma {:induction false} EmptiedDirectoryLooksLikeAFile()
    ensures Render([BURIED]) == Render([PLAIN]) == Some([ELBOW + "src"])
    ensures VisiblePaths([BURIED]) != VisiblePaths([PLAIN])
  {
    hide Build, Prune, Print, ShapeOf;
    BuriedTree();
    PlainTree();
    OneEntry(Dir(map["src" := Dir(map[])]));
    OneEntry(Dir(map["src" := File]));
    PlainIsVisible();
  }

  lemma {:induction false} PlainIsVisible()
    ensures PLAIN in VisiblePaths([PLAIN]) && PLAIN !in VisiblePaths([BURIED])
  {
    var plain: seq<Path> := [PLAIN];
    assert plain[0] == PLAIN;
  }

  lemma {:induction false} OneEntry(node: Node)
    requires node == Dir(map["src" := Dir(map[])]) || node == Dir(map["src" := File])
    ensures Print(ShapeOf(node), "") == [ELBOW + "src"]
  {
    var names := Order(node.entries);
    OrderIsUnique(node.entries, names, ["src"]);
    assert ShapeOf(node.entries["src"]) == [] by {
      if node.entries["src"].Dir? {
        OrderIsUnique(map[], Order(map[]), []);
      }
    }
    assert ["src"][1..] == [];
    assert ShapesOf(node, ["src"]) == [Shape("src", [])];
    assert "" + ELBOW + "src" == ELBOW + "src";
  }
}
