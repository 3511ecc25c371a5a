/** Switches and champion tenure. */
module Tenure {
  // Switch count and champion tenure of `scripts/audit_report.py`.

  import opened Wrappers

  type Champion = string

  /** The entries that chose a strategy, in order. */
  function Sequence(entries: seq<Option<Champion>>): seq<Champion> {
    if entries == [] then []
    else
      var front, last := entries[..|entries| - 1], entries[|entries| - 1];
      if last.None? then Sequence(front) else Sequence(front) + [last.value]
  }

  /** The choices keep their order, and none is left out or added. */
  lemma {:induction false} SequenceKeepsChoices(entries: seq<Option<Champion>>) returns (at: seq<nat>)
    ensures var s := Sequence(entries);
            && |at| == |s| && (forall i :: 0 <= i < |at| ==> at[i] < |entries| && entries[at[i]] == Some(s[i]))
            && (forall i, j :: 0 <= i < j < |at| ==> at[i] < at[j])
            && (forall k :: 0 <= k < |entries| ==> (entries[k].Some? <==> k in at))
  {
    at := [];
    if entries != [] {
      var n := |entries| - 1;
      at := SequenceKeepsChoices(entries[..n]);
      assert forall k :: 0 <= k < n ==> entries[..n][k] == entries[k];
      assert n !in at;
      if entries[n].Some? {
        at := at + [n];
      }
    }
  }

  function Longer(a: nat, b: nat): nat {
    if a >= b then a else b
  }

  /** Length of the block of equal champions that ends the sequence. */
  function Trail(s: seq<Champion>): (t: nat)
    ensures t <= |s| && (s != [] ==> t > 0)
  {
    if s == [] then 0
    else if |s| > 1 && s[|s| - 2] == s[|s| - 1] then Trail(s[..|s| - 1]) + 1
    else 1
  }

  /** Longest block of champion c so far. */
  function Longest(s: seq<Champion>, c: Champion): nat {
    if s == [] then 0
    else if s[|s| - 1] == c then Longer(Longest(s[..|s| - 1], c), Trail(s))
    else Longest(s[..|s| - 1], c)
  }

  function Get(m: map<Champion, nat>, c: Champion): nat {
    if c in m then m[c] else 0
  }

  // ------------------------------------------------------------ what longest means

  /** s[a..b] holds nothing but c. */
  ghost predicate Constant(s: seq<Champion>, a: nat, b: nat, c: Champion) {
    a <= b <= |s| && forall i :: a <= i < b ==> s[i] == c
  }

  lemma {:induction false} TrailIsMaximal(s: seq<Champion>, a: nat)
    requires s != [] && a <= |s|
    ensures Constant(s, a, |s|, s[|s| - 1]) <==> |s| - a <= Trail(s)
  {
    var n := |s| - 1;
    if n > 0 && s[n - 1] == s[n] && a <= n {
      TrailIsMaximal(s[..n], a);
      assert Constant(s[..n], a, n, s[n]) <==> Constant(s, a, n + 1, s[n]);
    } else if a < n {
      assert s[n - 1] != s[n];
    }
  }

  /** `Longest` is the length of a longest contiguous block. */
  lemma {:induction false} LongestIsLongest(s: seq<Champion>, c: Champion)
    ensures forall a, b :: 0 <= a <= b && Constant(s, a, b, c) ==> b - a <= Longest(s, c)
    ensures exists a, b :: 0 <= a <= b && Constant(s, a, b, c) && b - a == Longest(s, c)
  {
    if s == [] {
      assert Constant(s, 0, 0, c);
    } else {
      var n := |s| - 1;
      LongestIsLongest(s[..n], c);
      forall a, b | 0 <= a <= b && Constant(s, a, b, c) ensures b - a <= Longest(s, c) {
        if b <= n {
          assert Constant(s[..n], a, b, c);
        } else if a < b {
          assert s[n] == c;
          TrailIsMaximal(s, a);
        }
      }
      var a, b :| 0 <= a <= b && Constant(s[..n], a, b, c) && b - a == Longest(s[..n], c);
      assert Constant(s, a, b, c);
      if s[n] == c {
        TrailIsMaximal(s, |s| - Trail(s));
      }
    }
  }

  // --------------------------------------------------------------------- the loop

  /** Everything before the trailing block has been tallied. */
  ghost predicate Tallied(s: seq<Champion>, m: map<Champion, nat>) {
    forall c :: Get(m, c) == Longest(s, c) && (c in m <==> c in s)
  }

  lemma {:induction false} TrailLongest(s: seq<Champion>, c: Champion)
    requires s != []
    ensures var before := s[..|s| - Trail(s)];
            Longest(s, c) == if c == s[|s| - 1] then Longer(Longest(before, c), Trail(s)) else Longest(before, c)
  {
    var n := |s| - 1;
    if n > 0 && s[n - 1] == s[n] {
      TrailLongest(s[..n], c);
      assert s[..n][..n - Trail(s[..n])] == s[..|s| - Trail(s)];
    }
  }

  lemma {:induction false} TrailMembers(s: seq<Champion>, c: Champion)
    requires s != []
    ensures c in s <==> c in s[..|s| - Trail(s)] || c == s[|s| - 1]
  {
    TrailIsMaximal(s, |s| - Trail(s));
    var k := |s| - Trail(s);
    assert s == s[..k] + s[k..];
    if c in s && c !in s[..k] {
      var i :| 0 <= i < |s| && s[i] == c;
      assert i >= k;
    }
  }

  /** Closing the trailing block. */
  lemma {:induction false} CloseBlock(s: seq<Champion>, m: map<Champion, nat>)
    requires s != [] && Tallied(s[..|s| - Trail(s)], m)
    ensures var cur := s[|s| - 1]; Tallied(s, m[cur := Longer(Get(m, cur), Trail(s))])
  {
    var cur := s[|s| - 1];
    var closed := m[cur := Longer(Get(m, cur), Trail(s))];
    forall c ensures Get(closed, c) == Longest(s, c) && (c in closed <==> c in s) {
      TrailLongest(s, c);
      TrailMembers(s, c);
    }
  }

  /** The tenure loop: the counter of a champion is raised when its block ends. */
  method ChampionTenure(entries: seq<Option<Champion>>) returns (tenure: map<Champion, nat>)
    ensures var s := Sequence(entries); tenure.Keys == (set c | c in s) && forall c :: c in tenure ==>
            tenure[c] == Longest(s, c)
  {
    var s := Sequence(entries);
    tenure := map[];
    var current: Option<Champion>, length := None, 0;
    for i := 0 to |s|
      invariant length == Trail(s[..i])
      invariant current == if i == 0 then None else Some(s[i - 1])
      invariant Tallied(s[..i - length], tenure)
    {
      assert s[..i + 1][..i] == s[..i];
      if current != Some(s[i]) {
        if current.Some? {
          assert s[..i][..i - length] == s[..i - length];
          CloseBlock(s[..i], tenure);
          tenure := tenure[current.value := Longer(Get(tenure, current.value), length)];
        }
        current, length := Some(s[i]), 1;
      } else {
        length := length + 1;
      }
    }
    assert s[..|s|] == s;
    if current.Some? {
      CloseBlock(s, tenure);
      tenure := tenure[current.value := Longer(Get(tenure, current.value), length)];
    }
  }

  // ------------------------------------------------------------------- switches

  function Switches(s: seq<Champion>): nat {
    if |s| <= 1 then 0
    else Switches(s[..|s| - 1]) + if s[|s| - 1] != s[|s| - 2] then 1 else 0
  }

  /** The maximal blocks, each as a pair of champion and length. */
  function Blocks(s: seq<Champion>): seq<(Champion, nat)> {
    if s == [] then []
    else
      var k := |s| - Trail(s);
      Blocks(s[..k]) + [(s[|s| - 1], Trail(s))]
  }

  function Expand(blocks: seq<(Champion, nat)>): seq<Champion> {
    if blocks == [] then []
    else Expand(blocks[..|blocks| - 1]) + seq(blocks[|blocks| - 1].1, _ => blocks[|blocks| - 1].0)
  }

  /** The blocks make up the sequence, and neighbours differ. */
  lemma {:induction false} LastBlock(s: seq<Champion>)
    requires s != []
    ensures var k := |s| - Trail(s);
            && s == s[..k] + seq(Trail(s), _ => s[|s| - 1])
            && (k > 0 ==> s[k - 1] != s[|s| - 1])
  {
    var k := |s| - Trail(s);
    TrailIsMaximal(s, k);
    if k > 0 {
      TrailIsMaximal(s, k - 1);
    }
  }

  lemma {:induction false} BlocksPartition(s: seq<Champion>)
    ensures Expand(Blocks(s)) == s
    ensures forall i :: 0 < i < |Blocks(s)| ==> Blocks(s)[i].0 != Blocks(s)[i - 1].0
    ensures s != [] ==> Blocks(s) != [] && Blocks(s)[|Blocks(s)| - 1].0 == s[|s| - 1]
  {
    hide Trail;
    if s != [] {
      var k := |s| - Trail(s);
      BlocksPartition(s[..k]);
      LastBlock(s);
      assert Blocks(s)[..|Blocks(s)| - 1] == Blocks(s[..k]);
    }
  }

  lemma {:induction false} SwitchesInTrail(s: seq<Champion>)
    requires s != []
    ensures var k := |s| - Trail(s); Switches(s) == if k == 0 then 0 else Switches(s[..k]) + 1
  {
    var n := |s| - 1;
    if n > 0 && s[n - 1] == s[n] {
      SwitchesInTrail(s[..n]);
      assert s[..n][..n - Trail(s[..n])] == s[..|s| - Trail(s)];
    }
  }

  /** One more block than switches, for any non-empty sequence. */
  lemma {:induction false} SwitchesCountBlocks(s: seq<Champion>)
    requires s != []
    ensures |Blocks(s)| == Switches(s) + 1
  {
    var k := |s| - Trail(s);
    SwitchesInTrail(s);
    if k > 0 {
      SwitchesCountBlocks(s[..k]);
    }
  }
}
