/** Dependents and dependencies: reachability over import edges. */
module Reach {
  import opened Types
  import opened Assembly
  import opened Sorting

  function FileIds(g: CodeGraph): set<nat> { set f | f in g.files :: f.id }

  predicate Joins(e: CodeEdge, reverse: bool, x: nat, y: nat) {
    e.kind.Import? && if reverse then e.to == x && e.from == y else e.from == x && e.to == y
  }

  predicate SomeJoins(edges: seq<CodeEdge>, reverse: bool, x: nat, y: nat) {
    exists e :: e in edges && Joins(e, reverse, x, y)
  }

  /** One import edge between known files, followed forwards or backwards. */
  predicate Linked(g: CodeGraph, reverse: bool, x: nat, y: nat) {
    x in FileIds(g) && y in FileIds(g) && SomeJoins(g.edges, reverse, x, y)
  }

  predicate Walk(g: CodeGraph, reverse: bool, p: seq<nat>) {
    |p| > 1 && forall i :: 0 <= i < |p| - 1 ==> Linked(g, reverse, p[i], p[i + 1])
  }

  predicate WalkBetween(g: CodeGraph, reverse: bool, p: seq<nat>, x: nat, y: nat) {
    Walk(g, reverse, p) && p[0] == x && p[|p| - 1] == y
  }

  ghost predicate Reachable(g: CodeGraph, reverse: bool, x: nat, y: nat) {
    exists p :: WalkBetween(g, reverse, p, x, y)
  }

  // ------------------------------------------------------------ sorted sets

  /** Insertion into an ascending list of distinct numbers. */
  function InsertAsc(s: seq<nat>, x: nat): (r: seq<nat>)
    requires Ascending(s)
    ensures Ascending(r) && forall y: nat :: y in r <==> y in s || y == x
  {
    if s == [] then [x]
    else if x < s[0] then [x] + s
    else if x == s[0] then s
    else
      var t := InsertAsc(s[1..], x);
      assert s == [s[0]] + s[1..];
      TailAbove(s);
      ConsAscending(s[0], t);
      [s[0]] + t
  }

  lemma TailAbove(s: seq<nat>)
    requires Ascending(s) && s != []
    ensures forall y: nat :: y in s[1..] ==> s[0] < y
  {}

  lemma ConsAscending(h: nat, t: seq<nat>)
    requires Ascending(t) && forall y: nat :: y in t ==> h < y
    ensures Ascending([h] + t)
  {
    assert forall k :: 0 <= k < |t| ==> t[k] in t;
  }

  type Adjacency = map<nat, seq<nat>>

  predicate Lists(a: Adjacency, x: nat, y: nat) { x in a && y in a[x] }

  ghost predicate AdjacencyOf(a: Adjacency, g: CodeGraph, reverse: bool, edges: seq<CodeEdge>) {
    (forall x :: x in a ==> Ascending(a[x]))
    && forall x: nat, y: nat :: Lists(a, x, y) <==>
        x in FileIds(g) && y in FileIds(g) && SomeJoins(edges, reverse, x, y)
  }

  /** The adjacency after one more edge. */
  function WithEdge(a: Adjacency, known: set<nat>, reverse: bool, e: CodeEdge): Adjacency
    requires forall x :: x in a ==> Ascending(a[x])
  {
    var x, y := if reverse then e.to else e.from, if reverse then e.from else e.to;
    if e.kind.Import? && x in known && y in known then a[x := InsertAsc(if x in a then a[x] else [], y)] else a
  }

  lemma AdjacencyGrows(a: Adjacency, g: CodeGraph, reverse: bool, edges: seq<CodeEdge>, e: CodeEdge)
    requires AdjacencyOf(a, g, reverse, edges)
    ensures AdjacencyOf(WithEdge(a, FileIds(g), reverse, e), g, reverse, edges + [e])
  {
    var b := WithEdge(a, FileIds(g), reverse, e);
    forall x: nat, y: nat ensures Lists(b, x, y) <==>
        x in FileIds(g) && y in FileIds(g) && SomeJoins(edges + [e], reverse, x, y)
    {
      JoinsAppend(edges, e, reverse, x, y);
      assert Lists(a, x, y) <==> x in FileIds(g) && y in FileIds(g) && SomeJoins(edges, reverse, x, y);
      assert Joins(e, reverse, x, y) <==>
        e.kind.Import? && x == (if reverse then e.to else e.from) && y == (if reverse then e.from else e.to);
    }
  }

  lemma JoinsAppend(edges: seq<CodeEdge>, e: CodeEdge, reverse: bool, x: nat, y: nat)
    ensures SomeJoins(edges + [e], reverse, x, y) <==> SomeJoins(edges, reverse, x, y) || Joins(e, reverse, x, y)
  {
    if SomeJoins(edges, reverse, x, y) {
      var f :| f in edges && Joins(f, reverse, x, y);
      assert f in edges + [e];
    }
    if Joins(e, reverse, x, y) { assert e in edges + [e]; }
  }

  method BuildAdjacency(g: CodeGraph, known: set<nat>, reverse: bool) returns (a: Adjacency)
    requires known == FileIds(g)
    ensures AdjacencyOf(a, g, reverse, g.edges)
  {
    a := map[];
    for i := 0 to |g.edges|
      invariant AdjacencyOf(a, g, reverse, g.edges[..i])
    {
      var e := g.edges[i];
      assert g.edges[..i + 1] == g.edges[..i] + [e];
      AdjacencyGrows(a, g, reverse, g.edges[..i], e);
      if e.kind.Import? && e.from in known && e.to in known {
        var source, destination := if reverse then e.to else e.from, if reverse then e.from else e.to;
        a := a[source := InsertAsc(if source in a then a[source] else [], destination)];
      }
    }
    assert g.edges[..|g.edges|] == g.edges;
  }

  // ------------------------------------------------------------- traversal

  function Members(s: seq<nat>): set<nat> { set x | x in s }

  /** Everything seen is reachable; what was seen and is no longer on the
      frontier has had all its neighbours seen. */
  ghost predicate Explored(g: CodeGraph, reverse: bool, target: nat, visited: seq<nat>, frontier: seq<nat>) {
    (forall y :: y in visited ==> y != target && Reachable(g, reverse, target, y))
    && (forall x :: x in frontier ==> x == target || x in visited)
    && forall x: nat, y: nat :: (x == target || x in visited) && x !in frontier && Linked(g, reverse, x, y) ==>
        y == target || y in visited
  }

  lemma ReachOne(g: CodeGraph, reverse: bool, target: nat, x: nat, y: nat)
    requires (x == target || Reachable(g, reverse, target, x)) && Linked(g, reverse, x, y)
    ensures Reachable(g, reverse, target, y)
  {
    if Reachable(g, reverse, target, x) {
      var p :| WalkBetween(g, reverse, p, target, x);
      assert WalkBetween(g, reverse, p + [y], target, y);
    } else {
      assert WalkBetween(g, reverse, [x, y], target, y);
    }
  }

  /** With an empty frontier nothing reachable is missing. */
  lemma {:induction false} AllFound(g: CodeGraph, reverse: bool, target: nat, visited: seq<nat>, p: seq<nat>)
    requires Explored(g, reverse, target, visited, []) && Walk(g, reverse, p) && p[0] == target
    ensures p[|p| - 1] == target || p[|p| - 1] in visited
    decreases |p|
  {
    var n := |p| - 1;
    if n > 1 { AllFound(g, reverse, target, visited, p[..n]); }
    assert Linked(g, reverse, p[n - 1], p[n]);
  }

  /** Pushes the neighbours not seen yet, largest first. */
  method Visit(
    g: CodeGraph, reverse: bool, target: nat, current: nat, next: seq<nat>, visited0: seq<nat>, frontier0: seq<nat>)
    returns (visited: seq<nat>, frontier: seq<nat>)
    requires Ascending(visited0) && Members(visited0) <= FileIds(g)
    requires current == target || current in visited0
    requires forall y: nat :: y in next <==> Linked(g, reverse, current, y)
    requires Explored(g, reverse, target, visited0, frontier0 + [current])
    ensures Ascending(visited) && Members(visited0) <= Members(visited) <= FileIds(g)
    ensures Explored(g, reverse, target, visited, frontier)
    ensures visited == visited0 ==> frontier == frontier0
    ensures visited != visited0 ==> Members(visited0) < Members(visited)
  {
    visited, frontier := visited0, frontier0;
    var i := |next|;
    while i > 0
      invariant 0 <= i <= |next| && Ascending(visited) && Members(visited0) <= Members(visited) <= FileIds(g)
      invariant Explored(g, reverse, target, visited, frontier + [current])
      invariant forall y: nat :: y in next[i..] ==> y == target || y in visited
      invariant visited == visited0 ==> frontier == frontier0
      invariant visited != visited0 ==> Members(visited0) < Members(visited)
    {
      i := i - 1;
      var file := next[i];
      assert next[i..] == [file] + next[i + 1..];
      if file != target && file !in visited {
        assert file in next && Linked(g, reverse, current, file);
        ExploredPush(g, reverse, target, visited, frontier, current, file);
        var more := InsertAsc(visited, file);
        assert file in Members(more) && file !in Members(visited);
        visited, frontier := more, frontier + [file];
      }
    }
    assert next[0..] == next;
    ExploredPop(g, reverse, target, visited, frontier, current);
  }

  lemma ExploredPush(
    g: CodeGraph, reverse: bool, target: nat, visited: seq<nat>, frontier: seq<nat>, current: nat, file: nat)
    requires Ascending(visited) && Explored(g, reverse, target, visited, frontier + [current])
    requires current == target || current in visited
    requires file != target && Linked(g, reverse, current, file)
    ensures Explored(g, reverse, target, InsertAsc(visited, file), (frontier + [file]) + [current])
  {
    ReachOne(g, reverse, target, current, file);
    var before, after := frontier + [current], (frontier + [file]) + [current];
    assert forall x :: x in after <==> x in before || x == file;
  }

  lemma ExploredPop(g: CodeGraph, reverse: bool, target: nat, visited: seq<nat>, frontier: seq<nat>, current: nat)
    requires Explored(g, reverse, target, visited, frontier + [current])
    requires forall y: nat :: Linked(g, reverse, current, y) ==> y == target || y in visited
    ensures Explored(g, reverse, target, visited, frontier)
  {
    assert forall x :: x in frontier + [current] <==> x in frontier || x == current;
  }

  method Traverse(g: CodeGraph, target: nat, reverse: bool) returns (visited: seq<nat>)
    requires target in FileIds(g)
    ensures Ascending(visited)
    ensures forall y: nat :: y in visited <==> y != target && Reachable(g, reverse, target, y)
  {
    var known := FileIds(g);
    var adjacency := BuildAdjacency(g, known, reverse);
    visited := [];
    var frontier := [target];
    while frontier != []
      invariant Ascending(visited) && Members(visited) <= known
      invariant Explored(g, reverse, target, visited, frontier)
      decreases known - Members(visited), |frontier|
    {
      var current := frontier[|frontier| - 1];
      var next := if current in adjacency then adjacency[current] else [];
      assert forall y: nat :: y in next <==> Lists(adjacency, current, y);
      assert frontier == frontier[..|frontier| - 1] + [current];
      visited, frontier := Visit(g, reverse, target, current, next, visited, frontier[..|frontier| - 1]);
    }
    forall y: nat ensures y in visited <==> y != target && Reachable(g, reverse, target, y) {
      if y != target && Reachable(g, reverse, target, y) {
        var p :| WalkBetween(g, reverse, p, target, y);
        AllFound(g, reverse, target, visited, p);
      }
    }
  }

  // -------------------------------------------------------------- the query

  /** What the answer is ordered by. */
  datatype Ranks = Ranks(score: map<nat, real>, path: map<nat, Text>, firstLine: map<nat, nat>)

  function ScoreOf(r: Ranks, f: nat): real { if f in r.score then r.score[f] else 0.0 }

  function PathOf(r: Ranks, f: nat): Text { if f in r.path then r.path[f] else [] }

  function LineOf(r: Ranks, f: nat): nat { if f in r.firstLine then r.firstLine[f] else 0 }

  /** Highest score first; path, first symbol line and id break ties. */
  predicate RankLe(r: Ranks, a: nat, b: nat) {
    if ScoreOf(r, a) != ScoreOf(r, b) then ScoreOf(r, a) > ScoreOf(r, b)
    else if PathOf(r, a) != PathOf(r, b) then TextLe(PathOf(r, a), PathOf(r, b))
    else if LineOf(r, a) != LineOf(r, b) then LineOf(r, a) < LineOf(r, b)
    else a <= b
  }

  lemma RankOrder(r: Ranks)
    ensures TotalPreorder((a, b) => RankLe(r, a, b))
    ensures forall a, b :: RankLe(r, a, b) && RankLe(r, b, a) ==> a == b
    ensures forall a, b :: RankLe(r, a, b) ==> ScoreOf(r, a) >= ScoreOf(r, b)
    ensures forall a, b :: RankLe(r, a, b) && ScoreOf(r, a) == ScoreOf(r, b) ==> TextLe(PathOf(r, a), PathOf(r, b))
    ensures forall a, b :: RankLe(r, a, b) && ScoreOf(r, a) == ScoreOf(r, b) && PathOf(r, a) == PathOf(r, b) ==>
      LineOf(r, a) < LineOf(r, b) || (LineOf(r, a) == LineOf(r, b) && a <= b)
  {
    TextOrder();
    var le := (a, b) => RankLe(r, a, b);
    forall a: nat, b: nat ensures le(a, b) || le(b, a) {
      assert TextLe(PathOf(r, a), PathOf(r, b)) || TextLe(PathOf(r, b), PathOf(r, a));
    }
    forall a: nat, b: nat, c: nat | le(a, b) && le(b, c) ensures le(a, c) {
      var (p, q, s) := (PathOf(r, a), PathOf(r, b), PathOf(r, c));
      if ScoreOf(r, a) == ScoreOf(r, b) == ScoreOf(r, c) && p != q && q != s {
        TextLeTransitive(p, q, s);
      }
    }
  }

  /** The files reachable over import edges, the target excepted, each once,
      in rank order; nothing for an unknown target. */
  method ReachableImports(g: CodeGraph, ranks: Ranks, target: nat, reverse: bool) returns (result: seq<nat>)
    ensures Distinct(result) && SortedBy(result, (a, b) => RankLe(ranks, a, b))
    ensures forall y: nat :: y in result <==> target in FileIds(g) && y != target && Reachable(g, reverse, target, y)
  {
    if target !in FileIds(g) { return []; }
    var visited := Traverse(g, target, reverse);
    var le := (a: nat, b: nat) => RankLe(ranks, a, b);
    RankOrder(ranks);
    result := Sort(visited, le);
    SortCorrect(visited, le);
    SortMembers(visited, le);
    DistinctPermutation(visited, result);
  }

  method Dependents(g: CodeGraph, ranks: Ranks, target: nat) returns (result: seq<nat>)
    ensures Distinct(result) && SortedBy(result, (a, b) => RankLe(ranks, a, b))
    ensures forall y: nat :: y in result <==> IsDependent(g, target, y)
  {
    result := ReachableImports(g, ranks, target, true);
  }

  method Dependencies(g: CodeGraph, ranks: Ranks, target: nat) returns (result: seq<nat>)
    ensures Distinct(result) && SortedBy(result, (a, b) => RankLe(ranks, a, b))
    ensures forall y: nat :: y in result <==> IsDependency(g, target, y)
  {
    result := ReachableImports(g, ranks, target, false);
  }

  ghost predicate IsDependent(g: CodeGraph, target: nat, y: nat) {
    target in FileIds(g) && y != target && Reachable(g, true, target, y)
  }

  ghost predicate IsDependency(g: CodeGraph, target: nat, y: nat) {
    target in FileIds(g) && y != target && Reachable(g, false, target, y)
  }

  // ---------------------------------------------------------------- duality

  function Backwards(p: seq<nat>): (r: seq<nat>)
    ensures |r| == |p| && forall i :: 0 <= i < |p| ==> r[i] == p[|p| - 1 - i]
  { seq(|p|, i requires 0 <= i < |p| => p[|p| - 1 - i]) }

  lemma LinkedBothWays(g: CodeGraph, reverse: bool, x: nat, y: nat)
    requires Linked(g, reverse, x, y)
    ensures Linked(g, !reverse, y, x)
  {
    var e :| e in g.edges && Joins(e, reverse, x, y);
    assert Joins(e, !reverse, y, x);
  }

  lemma ReachableBackwards(g: CodeGraph, reverse: bool, x: nat, y: nat)
    requires Reachable(g, reverse, x, y)
    ensures Reachable(g, !reverse, y, x) && x in FileIds(g) && y in FileIds(g)
  {
    var p :| WalkBetween(g, reverse, p, x, y);
    var q := Backwards(p);
    forall i | 0 <= i < |q| - 1 ensures Linked(g, !reverse, q[i], q[i + 1]) {
      LinkedBothWays(g, reverse, p[|p| - 2 - i], p[|p| - 1 - i]);
    }
    assert Linked(g, reverse, p[0], p[1]) && Linked(g, reverse, p[|p| - 2], p[|p| - 1]);
    assert WalkBetween(g, !reverse, q, y, x);
  }

  /** `b` depends on `a` exactly when `a` is a dependency of `b`. */
  lemma DependentsDependenciesDual(g: CodeGraph, a: nat, b: nat)
    ensures IsDependent(g, a, b) <==> IsDependency(g, b, a)
  {
    if IsDependent(g, a, b) { ReachableBackwards(g, true, a, b); }
    if IsDependency(g, b, a) { ReachableBackwards(g, false, b, a); }
  }
}
