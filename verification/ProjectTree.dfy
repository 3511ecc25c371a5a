/** The trie of the project map. */
module ProjectTree {
  // The trie of `scripts/generate_project_map.py`: a nested dictionary in which a file is None and
  // a directory is a dictionary. Paths are given as their parts.

  import opened Wrappers

  type Name = string

  type Path = p: seq<Name> | p != [] witness ["README.md"]

  datatype Node = File | Dir(entries: map<Name, Node>)

  const EXCLUDED: set<Name> := {"data", "logs", "media", "backup", "backups", "node_modules",
                                "poetry.lock", "package-lock.json", "tsconfig.tsbuildinfo"}

  /** One path put into the tree. A file in the way of a directory raises (None); a directory in
      the way of a file is overwritten. */
  function Insert(entries: map<Name, Node>, path: Path): Option<map<Name, Node>>
    decreases |path|
  {
    var name := path[0];
    if |path| == 1 then Some(entries[name := File])
    else
      var child := if name in entries then entries[name] else Dir(map[]);
      match child
      case File => None
      case Dir(inner) =>
        match Insert(inner, path[1..])
        case None => None
        case Some(grown) => Some(entries[name := Dir(grown)])
  }

  function Build(files: seq<Path>): Option<map<Name, Node>> {
    if files == [] then Some(map[])
    else
      match Build(files[..|files| - 1])
      case None => None
      case Some(entries) => Insert(entries, files[|files| - 1])
  }

  /** Drop excluded entries at every level. */
  function Prune(node: Node): Node {
    match node
    case File => File
    case Dir(entries) => Dir(map k | k in entries && k !in EXCLUDED :: Prune(entries[k]))
  }

  // --------------------------------------------------------- what a tree stands for

  ghost function PathsOf(node: Node): set<seq<Name>> {
    match node
    case File => {[]}
    case Dir(entries) => set k, p | k in entries && p in PathsOf(entries[k]) :: [k] + p
  }

  /** Every directory below the root holds something. */
  ghost predicate NoEmptyDir(node: Node) {
    match node
    case File => true
    case Dir(entries) => forall k :: k in entries ==> entries[k] != Dir(map[]) && NoEmptyDir(entries[k])
  }

  lemma {:induction false} PathIn(entries: map<Name, Node>, k: Name, p: seq<Name>)
    ensures [k] + p in PathsOf(Dir(entries)) <==> k in entries && p in PathsOf(entries[k])
  {
    if [k] + p in PathsOf(Dir(entries)) {
      var j, q :| j in entries && q in PathsOf(entries[j]) && [j] + q == [k] + p;
      assert ([j] + q)[0] == j && ([j] + q)[1..] == q && ([k] + p)[0] == k && ([k] + p)[1..] == p;
    }
  }

  lemma {:induction false} SplitPath(entries: map<Name, Node>, p: seq<Name>)
    requires p in PathsOf(Dir(entries))
    ensures p != [] && p == [p[0]] + p[1..] && p[0] in entries && p[1..] in PathsOf(entries[p[0]])
  {
  }

  lemma {:induction false} SomePath(node: Node)
    requires NoEmptyDir(node) && node != Dir(map[])
    ensures PathsOf(node) != {}
  {
    match node
    case File =>
    case Dir(entries) =>
      var k :| k in entries;
      SomePath(entries[k]);
      var p :| p in PathsOf(entries[k]);
      PathIn(entries, k, p);
  }

  /** Trees without empty directories are the same when they stand for the same paths. */
  lemma {:induction false} PathsDetermineTree(a: Node, b: Node)
    requires NoEmptyDir(a) && NoEmptyDir(b) && PathsOf(a) == PathsOf(b)
    requires a.Dir? <==> b.Dir?
    ensures a == b
    decreases a
  {
    if a.Dir? {
      forall k | k in a.entries ensures k in b.entries && a.entries[k] == b.entries[k] {
        KeysAgree(a, b, k);
        SubtreesAgree(a, b, k);
        PathsDetermineTree(a.entries[k], b.entries[k]);
      }
      forall k | k in b.entries ensures k in a.entries {
        KeysAgree(b, a, k);
      }
    }
  }

  lemma {:induction false} KeysAgree(a: Node, b: Node, k: Name)
    requires a.Dir? && b.Dir? && NoEmptyDir(a) && PathsOf(a) == PathsOf(b) && k in a.entries
    ensures k in b.entries
  {
    SomePath(a.entries[k]);
    var p :| p in PathsOf(a.entries[k]);
    PathIn(a.entries, k, p);
    PathIn(b.entries, k, p);
  }

  lemma {:induction false} SubtreesAgree(a: Node, b: Node, k: Name)
    requires a.Dir? && b.Dir? && PathsOf(a) == PathsOf(b) && k in a.entries && k in b.entries
    ensures PathsOf(a.entries[k]) == PathsOf(b.entries[k])
    ensures a.entries[k].Dir? <==> b.entries[k].Dir?
  {
    forall p ensures p in PathsOf(a.entries[k]) <==> p in PathsOf(b.entries[k]) {
      PathIn(a.entries, k, p);
      PathIn(b.entries, k, p);
    }
    RootPath(a.entries[k]);
    RootPath(b.entries[k]);
  }

  lemma {:induction false} RootPath(node: Node)
    ensures [] in PathsOf(node) <==> node.File?
  {
  }

  // ------------------------------------------------------------- building the tree

  ghost predicate Clash(p: seq<Name>, q: seq<Name>) {
    p < q || q < p
  }

  /** No file is also a directory: what git guarantees for the tracked paths. */
  ghost predicate PrefixFree(paths: set<seq<Name>>) {
    forall p, q :: p in paths && q in paths ==> !Clash(p, q)
  }

  lemma {:induction false} ClashBelow(k: Name, p: seq<Name>, q: seq<Name>)
    ensures Clash([k] + p, [k] + q) <==> Clash(p, q)
  {
    if p < q {
      assert ([k] + q)[..|p| + 1] == [k] + q[..|p|];
    }
    if [k] + p < [k] + q {
      assert ([k] + q)[..|p| + 1] == [k] + q[..|p|];
      assert ([k] + p)[1..] == p;
    }
    if q < p {
      assert ([k] + p)[..|q| + 1] == [k] + p[..|q|];
    }
    if [k] + q < [k] + p {
      assert ([k] + p)[..|q| + 1] == [k] + p[..|q|];
      assert ([k] + q)[1..] == q;
    }
  }

  /** Replacing one entry replaces the paths below it. */
  lemma {:induction false} PathsAfterUpdate(entries: map<Name, Node>, k: Name, child: Node, p: seq<Name>)
    ensures p in PathsOf(Dir(entries[k := child])) <==>
            p != [] && (if p[0] == k then p[1..] in PathsOf(child) else p in PathsOf(Dir(entries)))
  {
    if p != [] {
      assert p == [p[0]] + p[1..];
      PathIn(entries[k := child], p[0], p[1..]);
      PathIn(entries, p[0], p[1..]);
    } else {
      RootPath(Dir(entries[k := child]));
    }
  }

  lemma {:induction false} FileAtName(entries: map<Name, Node>, path: Path)
    requires |path| == 1
    ensures Insert(entries, path).Some?
    ensures forall q :: q in PathsOf(Dir(Insert(entries, path).value)) <==>
                        q == path || (q in PathsOf(Dir(entries)) && !(path < q))
  {
    forall q ensures q in PathsOf(Dir(entries[path[0] := File])) <==>
                     q == path || (q in PathsOf(Dir(entries)) && !(path < q))
    {
      PathsAfterUpdate(entries, path[0], File, q);
      RootPath(File);
      RootPath(Dir(entries));
      StartsWith(path, q);
    }
  }

  lemma {:induction false} InsertUnfolds(entries: map<Name, Node>, path: Path, child: Node)
    requires |path| > 1 && child == if path[0] in entries then entries[path[0]] else Dir(map[])
    ensures child.File? ==> Insert(entries, path).None?
    ensures child.Dir? ==>
              Insert(entries, path) ==
              match Insert(child.entries, path[1..])
              case None => None
              case Some(grown) => Some(entries[path[0] := Dir(grown)])
  {
  }

  /** What the child's new entries make of the whole. */
  lemma {:induction false} ChildGrows(entries: map<Name, Node>, path: Path, child: Node, grown: map<Name, Node>)
    requires |path| > 1 && child == if path[0] in entries then entries[path[0]] else Dir(map[])
    requires forall p :: p in PathsOf(Dir(grown)) <==> p == path[1..] || (p in PathsOf(child) && !(path[1..] < p))
    ensures forall q :: q in PathsOf(Dir(entries[path[0] := Dir(grown)])) <==>
                        q == path || (q in PathsOf(Dir(entries)) && !(path < q))
  {
    var next := entries[path[0] := Dir(grown)];
    forall q ensures q in PathsOf(Dir(next)) <==> q == path || (q in PathsOf(Dir(entries)) && !(path < q)) {
      PathsAfterUpdate(entries, path[0], Dir(grown), q);
      RootPath(Dir(entries));
      StartsWith(path, q);
      BelowName(entries, path[0], child, q);
      if q != [] && q[0] == path[0] {
        assert q in PathsOf(Dir(next)) <==> q[1..] in PathsOf(Dir(grown));
      }
    }
  }

  /** Putting in any path: it fails exactly if a file is on the way; otherwise the path is added and
      whatever was below it is gone. */
  lemma {:induction false} InsertIsExact(entries: map<Name, Node>, path: Path)
    ensures Insert(entries, path).None? <==> exists n :: 0 < n < |path| && path[..n] in PathsOf(Dir(entries))
    ensures Insert(entries, path).Some? ==>
              forall q :: q in PathsOf(Dir(Insert(entries, path).value)) <==>
                          q == path || (q in PathsOf(Dir(entries)) && !(path < q))
    decreases |path|
  {
    var name := path[0];
    if |path| == 1 {
      FileAtName(entries, path);
    } else {
      var child := if name in entries then entries[name] else Dir(map[]);
      RootPath(child);
      forall p ensures [name] + p in PathsOf(Dir(entries)) <==> p in PathsOf(child) {
        BelowName(entries, name, child, p);
      }
      FilesOnTheWay(PathsOf(Dir(entries)), PathsOf(child), path);
      if child.Dir? {
        InsertIsExact(child.entries, path[1..]);
        InsertUnfolds(entries, path, child);
        if Insert(child.entries, path[1..]).Some? {
          ChildGrows(entries, path, child, Insert(child.entries, path[1..]).value);
        }
      } else {
        InsertUnfolds(entries, path, child);
      }
    }
  }

  /** Equal or longer, part by part. */
  lemma {:induction false} StartsWith(path: Path, q: seq<Name>)
    ensures q != [] && q[0] == path[0] ==>
              q == [q[0]] + q[1..] && (path < q <==> path[1..] < q[1..]) && (q == path <==> q[1..] == path[1..])
    ensures q == [] || q[0] != path[0] ==> !(path < q) && q != path
  {
    assert path == [path[0]] + path[1..];
    if q != [] {
      assert q == [q[0]] + q[1..];
    }
    if path < q {
      assert q[..|path|] == path;
      assert q[1..][..|path| - 1] == path[1..];
    }
    if q != [] && q[0] == path[0] && path[1..] < q[1..] {
      assert q[..|path|] == [q[0]] + q[1..][..|path| - 1] == path;
    }
  }

  /** The front parts of a path, seen from its first directory. */
  lemma {:induction false} FilesOnTheWay(above: set<seq<Name>>, below: set<seq<Name>>, path: Path)
    requires |path| > 1 && forall p :: [path[0]] + p in above <==> p in below
    ensures (exists n :: 0 < n < |path| && path[..n] in above) <==>
            [] in below || exists n :: 0 < n < |path[1..]| && path[1..][..n] in below
  {
    if n :| 0 < n < |path| && path[..n] in above {
      FrontPart(above, below, path, n);
      assert n > 1 ==> path[1..][..n - 1] in below;
      assert path[1..][..0] == [];
    }
    if [] in below {
      FrontPart(above, below, path, 1);
      assert path[1..][..0] == [];
    }
    if n :| 0 < n < |path[1..]| && path[1..][..n] in below {
      FrontPart(above, below, path, n + 1);
    }
  }

  lemma {:induction false} FrontPart(above: set<seq<Name>>, below: set<seq<Name>>, path: Path, n: nat)
    requires 0 < n < |path| && forall p :: [path[0]] + p in above <==> p in below
    ensures path[..n] in above <==> path[1..][..n - 1] in below
  {
    assert path[..n] == [path[0]] + path[1..][..n - 1];
  }

  /** A path of the tree that begins with this name is one of the child's. */
  lemma {:induction false} BelowName(entries: map<Name, Node>, name: Name, child: Node, q: seq<Name>)
    requires child == if name in entries then entries[name] else Dir(map[])
    ensures [name] + q in PathsOf(Dir(entries)) <==> q in PathsOf(child)
    ensures q != [] && q[0] == name ==> (q in PathsOf(Dir(entries)) <==> q[1..] in PathsOf(child))
  {
    PathIn(entries, name, q);
    if q != [] && q[0] == name {
      assert q == [name] + q[1..];
      PathIn(entries, name, q[1..]);
    }
  }

  lemma {:induction false} InsertLeavesNoEmptyDir(entries: map<Name, Node>, path: Path)
    requires NoEmptyDir(Dir(entries)) && Insert(entries, path).Some?
    ensures Insert(entries, path).value != map[] && NoEmptyDir(Dir(Insert(entries, path).value))
    decreases |path|
  {
    var r := Insert(entries, path).value;
    assert path[0] in r;
    if |path| > 1 {
      var child := if path[0] in entries then entries[path[0]] else Dir(map[]);
      InsertUnfolds(entries, path, child);
      InsertLeavesNoEmptyDir(child.entries, path[1..]);
    }
  }

  lemma {:induction false} InsertAddsPath(entries: map<Name, Node>, path: Path)
    requires NoEmptyDir(Dir(entries))
    requires forall q :: q in PathsOf(Dir(entries)) ==> !Clash(q, path)
    ensures var r := Insert(entries, path);
            r.Some? && PathsOf(Dir(r.value)) == PathsOf(Dir(entries)) + {path} && NoEmptyDir(Dir(r.value))
  {
    InsertIsExact(entries, path);
    if n :| 0 < n < |path| && path[..n] in PathsOf(Dir(entries)) {
      assert Clash(path[..n], path);
    }
    InsertLeavesNoEmptyDir(entries, path);
  }

  ghost function PathSet(files: seq<Path>): set<seq<Name>> {
    set i | 0 <= i < |files| :: files[i]
  }

  /** Building from prefix-free paths never fails, and the tree stands for exactly those paths. */
  lemma {:induction false} BuildStandsForPaths(files: seq<Path>)
    requires PrefixFree(PathSet(files))
    ensures var r := Build(files); r.Some? && PathsOf(Dir(r.value)) == PathSet(files) && NoEmptyDir(Dir(r.value))
  {
    if files != [] {
      var front, last := files[..|files| - 1], files[|files| - 1];
      assert PathSet(files) == PathSet(front) + {last} by {
        forall p | p in PathSet(files) ensures p in PathSet(front) + {last} {
          var i :| 0 <= i < |files| && files[i] == p;
          if i < |front| {
            assert front[i] == p;
          }
        }
        forall p | p in PathSet(front) ensures p in PathSet(files) {
          var i :| 0 <= i < |front| && front[i] == p;
          assert files[i] == p;
        }
      }
      BuildStandsForPaths(front);
      InsertAddsPath(Build(front).value, last);
    }
  }

  /** A path that pruning keeps: no part of it is excluded. */
  predicate Visible(p: seq<Name>) {
    forall i :: 0 <= i < |p| ==> p[i] !in EXCLUDED
  }

  /** The nine names that hide whatever they are part of. */
  lemma {:induction false} HiddenNames(n: Name)
    ensures n in EXCLUDED <==>
            n == "data" || n == "logs" || n == "media" || n == "backup" || n == "backups" || n == "node_modules" ||
            n == "poetry.lock" || n == "package-lock.json" || n == "tsconfig.tsbuildinfo"
  {
  }

  lemma {:induction false} PruneKeepsVisible(node: Node, p: seq<Name>)
    ensures p in PathsOf(Prune(node)) <==> p in PathsOf(node) && Visible(p)
    decreases node
  {
    if node.Dir? {
      var pruned := Prune(node);
      if p == [] {
        RootPath(node);
        RootPath(pruned);
      } else {
        assert p == [p[0]] + p[1..];
        PathIn(node.entries, p[0], p[1..]);
        PathIn(pruned.entries, p[0], p[1..]);
        VisibleParts(p);
        if p[0] in node.entries {
          PruneKeepsVisible(node.entries[p[0]], p[1..]);
        }
      }
    }
  }

  lemma {:induction false} VisibleParts(p: seq<Name>)
    requires p != []
    ensures Visible(p) <==> p[0] !in EXCLUDED && Visible(p[1..])
  {
  }
}
