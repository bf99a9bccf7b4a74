/** Import links aggregated from raw edges, and the two rankings built on them:
    static centrality and the task-specific one. */
module Centrality {
  import opened Types
  import opened Assembly
  import opened Sorting
  import Sums
  import opened PageRank

  const U64_MAX: nat := U64 - 1
  const CONTEXT_WEIGHT: nat := 50

  /** Saturating 64-bit arithmetic. */
  function Saturate(n: nat): nat { if n > U64_MAX then U64_MAX else n }

  predicate FileLe(a: CodeFile, b: CodeFile) {
    if a.path != b.path then TextLe(a.path, b.path) else a.id <= b.id
  }

  lemma FileOrder()
    ensures TotalPreorder(FileLe)
  {
    TextOrder();
    forall a: CodeFile, b: CodeFile, c: CodeFile | FileLe(a, b) && FileLe(b, c) ensures FileLe(a, c) {
      if a.path != b.path && b.path != c.path { TextLeTransitive(a.path, b.path, c.path); }
    }
  }

  predicate DistinctIds(files: seq<CodeFile>) {
    forall i, j :: 0 <= i < j < |files| ==> files[i].id != files[j].id
  }

  // ------------------------------------------------------------- adjacency

  /** Files already in the task's context count for more. */
  function EdgeWeight(e: CodeEdge, context: set<nat>): (w: nat)
    ensures w >= 1
  {
    Saturate((if e.weight > 1 then e.weight else 1) * (if e.from in context then CONTEXT_WEIGHT else 1))
  }

  /** What one edge adds to the link from one file to another: only imports add
      anything. */
  function Adds(from: nat, to: nat, context: set<nat>): CodeEdge -> nat {
    (e: CodeEdge) => if e.kind.Import? && e.from == from && e.to == to then EdgeWeight(e, context) else 0
  }

  /** The saturating total between two files, in any order of the edges. */
  function LinkWeight(edges: seq<CodeEdge>, from: nat, to: nat, context: set<nat>): nat {
    Saturate(Sums.Sum(edges, Adds(from, to, context)))
  }

  /** What an edge is worth to a link: at least one, and fifty times as much
      from a file in the task's context. */
  function WorthTo(from: nat, to: nat, factor: nat): CodeEdge -> nat {
    (e: CodeEdge) =>
      if e.kind == Import && e.from == from && e.to == to then (if e.weight < 1 then 1 else e.weight) * factor else 0
  }

  function AtMost(n: nat, most: nat): nat { if n < most then n else most }

  lemma EdgeWorth(e: CodeEdge, from: nat, to: nat, context: set<nat>, factor: nat)
    requires factor == if from in context then 50 else 1
    ensures Adds(from, to, context)(e) == AtMost(WorthTo(from, to, factor)(e), 18446744073709551615)
  {}

  lemma {:induction false} WorthSum(edges: seq<CodeEdge>, from: nat, to: nat, context: set<nat>, factor: nat)
    requires factor == if from in context then 50 else 1
    ensures AtMost(Sums.Sum(edges, Adds(from, to, context)), 18446744073709551615) ==
      AtMost(Sums.Sum(edges, WorthTo(from, to, factor)), 18446744073709551615)
  {
    if edges != [] {
      EdgeWorth(edges[0], from, to, context, factor);
      WorthSum(edges[1..], from, to, context, factor);
    }
  }

  /** A link weighs what its import edges are worth together, up to the largest
      64-bit number. */
  lemma {:induction false} LinkWeightCounts(edges: seq<CodeEdge>, from: nat, to: nat, context: set<nat>)
    ensures LinkWeight(edges, from, to, context) ==
      AtMost(Sums.Sum(edges, WorthTo(from, to, if from in context then 50 else 1)), 18446744073709551615)
  {
    WorthSum(edges, from, to, context, if from in context then 50 else 1);
  }

  lemma LinkWeightAppend(edges: seq<CodeEdge>, e: CodeEdge, from: nat, to: nat, context: set<nat>)
    ensures LinkWeight(edges + [e], from, to, context) ==
            Saturate(LinkWeight(edges, from, to, context) + Adds(from, to, context)(e))
  {
    Sums.SumConcat(edges, [e], Adds(from, to, context));
    assert [e][1..] == [];
  }

  lemma LinkWeightIgnoresOrder(a: seq<CodeEdge>, b: seq<CodeEdge>, from: nat, to: nat, context: set<nat>)
    requires multiset(a) == multiset(b)
    ensures LinkWeight(a, from, to, context) == LinkWeight(b, from, to, context)
  {
    Sums.SumPermutation(a, b, Adds(from, to, context));
  }

  /** Links of one file to the first `m` files, by position. */
  function RowLinks(edges: seq<CodeEdge>, files: seq<CodeFile>, context: set<nat>, i: nat, m: nat): (r: seq<Link>)
    requires i < |files| && m <= |files|
    ensures LinksInto(r, |files|)
  {
    if m == 0 then [] else
    var w := LinkWeight(edges, files[i].id, files[m - 1].id, context);
    RowLinks(edges, files, context, i, m - 1) + if w > 0 then [(m - 1, w as real)] else []
  }

  /** All links, for the files in this order. */
  function Links(edges: seq<CodeEdge>, files: seq<CodeFile>, context: set<nat>): (r: seq<seq<Link>>)
    ensures Network(r, |files|)
  {
    seq(|files|, i requires 0 <= i < |files| => RowLinks(edges, files, context, i, |files|))
  }

  lemma {:induction false} RowsAgree(
    a: seq<CodeEdge>, b: seq<CodeEdge>, files: seq<CodeFile>, context: set<nat>, i: nat, m: nat)
    requires i < |files| && m <= |files|
    requires forall j :: 0 <= j < m ==>
      LinkWeight(a, files[i].id, files[j].id, context) == LinkWeight(b, files[i].id, files[j].id, context)
    ensures RowLinks(a, files, context, i, m) == RowLinks(b, files, context, i, m)
  {
    if m > 0 { RowsAgree(a, b, files, context, i, m - 1); }
  }

  lemma {:induction false} RowIgnoresOrder(
    a: seq<CodeEdge>, b: seq<CodeEdge>, files: seq<CodeFile>, context: set<nat>, i: nat, m: nat)
    requires multiset(a) == multiset(b) && i < |files| && m <= |files|
    ensures RowLinks(a, files, context, i, m) == RowLinks(b, files, context, i, m)
  {
    forall j | 0 <= j < m
      ensures LinkWeight(a, files[i].id, files[j].id, context) == LinkWeight(b, files[i].id, files[j].id, context)
    {
      LinkWeightIgnoresOrder(a, b, files[i].id, files[j].id, context);
    }
    RowsAgree(a, b, files, context, i, m);
  }

  lemma LinksIgnoreOrder(a: seq<CodeEdge>, b: seq<CodeEdge>, files: seq<CodeFile>, context: set<nat>)
    requires multiset(a) == multiset(b)
    ensures Links(a, files, context) == Links(b, files, context)
  {
    forall i | 0 <= i < |files| ensures Links(a, files, context)[i] == Links(b, files, context)[i] {
      RowIgnoresOrder(a, b, files, context, i, |files|);
    }
  }

  type Slots = map<(nat, nat), nat>

  function SlotOf(slots: Slots, a: nat, b: nat): nat { if (a, b) in slots then slots[(a, b)] else 0 }

  /** The aggregate after some edges: a slot per linked pair of positions. */
  ghost predicate SlotsOf(slots: Slots, edges: seq<CodeEdge>, files: seq<CodeFile>, context: set<nat>) {
    forall a: nat, b: nat :: a < |files| && b < |files| ==>
      SlotOf(slots, a, b) == LinkWeight(edges, files[a].id, files[b].id, context)
  }

  ghost predicate PositionsOf(positions: map<nat, nat>, files: seq<CodeFile>) {
    (forall i :: 0 <= i < |files| ==> files[i].id in positions && positions[files[i].id] == i)
    && forall id :: id in positions ==> positions[id] < |files| && files[positions[id]].id == id
  }

  method FilePositions(files: seq<CodeFile>) returns (positions: map<nat, nat>)
    requires DistinctIds(files)
    ensures PositionsOf(positions, files)
  {
    positions := map[];
    for i := 0 to |files|
      invariant forall j :: 0 <= j < i ==> files[j].id in positions && positions[files[j].id] == j
      invariant forall id :: id in positions ==> positions[id] < i && files[positions[id]].id == id
    {
      positions := positions[files[i].id := i];
    }
  }

  lemma SlotsGrow(
    slots: Slots, edges: seq<CodeEdge>, e: CodeEdge, files: seq<CodeFile>, context: set<nat>, positions: map<nat, nat>)
    requires PositionsOf(positions, files) && SlotsOf(slots, edges, files, context)
    ensures SlotsOf(WithSlot(slots, e, context, positions), edges + [e], files, context)
  {
    var more := WithSlot(slots, e, context, positions);
    forall a: nat, b: nat | a < |files| && b < |files|
      ensures SlotOf(more, a, b) == LinkWeight(edges + [e], files[a].id, files[b].id, context)
    {
      LinkWeightAppend(edges, e, files[a].id, files[b].id, context);
      assert SlotOf(slots, a, b) == LinkWeight(edges, files[a].id, files[b].id, context);
    }
  }

  /** One more edge, if it is an import between known files. */
  function WithSlot(slots: Slots, e: CodeEdge, context: set<nat>, positions: map<nat, nat>): Slots {
    if e.kind.Import? && e.from in positions && e.to in positions then
      var a, b := positions[e.from], positions[e.to];
      slots[(a, b) := Saturate(SlotOf(slots, a, b) + EdgeWeight(e, context))]
    else slots
  }

  /** Aggregates the import edges and lists each file's links by position. */
  method ImportAdjacency(edges: seq<CodeEdge>, files: seq<CodeFile>, positions: map<nat, nat>, context: set<nat>)
    returns (outgoing: seq<seq<Link>>)
    requires PositionsOf(positions, files)
    ensures outgoing == Links(edges, files, context)
  {
    var aggregated: Slots := map[];
    NoSlots(files, context);
    for k := 0 to |edges|
      invariant SlotsOf(aggregated, edges[..k], files, context)
    {
      SlotsGrow(aggregated, edges[..k], edges[k], files, context, positions);
      assert edges[..k + 1] == edges[..k] + [edges[k]];
      aggregated := WithSlot(aggregated, edges[k], context, positions);
    }
    assert edges[..|edges|] == edges;
    outgoing := [];
    for from := 0 to |files|
      invariant |outgoing| == from
      invariant forall i :: 0 <= i < from ==> outgoing[i] == RowLinks(edges, files, context, i, |files|)
    {
      var row := ListRow(aggregated, edges, files, context, from);
      outgoing := outgoing + [row];
    }
  }

  /** One file's slots, in the order of the files they lead to. */
  method ListRow(slots: Slots, ghost edges: seq<CodeEdge>, files: seq<CodeFile>, ghost context: set<nat>, from: nat)
    returns (row: seq<Link>)
    requires from < |files| && SlotsOf(slots, edges, files, context)
    ensures row == RowLinks(edges, files, context, from, |files|)
  {
    row := [];
    for to := 0 to |files|
      invariant row == RowLinks(edges, files, context, from, to)
    {
      var weight := SlotOf(slots, from, to);
      if weight > 0 { row := row + [(to, weight as real)]; }
    }
  }

  lemma NoSlots(files: seq<CodeFile>, context: set<nat>)
    ensures SlotsOf(map[], [], files, context)
  {}

  // --------------------------------------------------------------- rankings

  function ByFile(files: seq<CodeFile>, scores: seq<real>): map<nat, real>
    requires |scores| == |files| && DistinctIds(files)
  {
    map i | 0 <= i < |files| :: files[i].id := scores[i]
  }

  function Uniform(n: nat): (r: seq<real>)
    ensures |r| == n
  { seq(n, _ => if n == 0 then 0.0 else 1.0 / (n as real)) }

  function StaticScores(g: CodeGraph): (r: seq<real>)
    ensures |r| == |g.files|
  {
    FileOrder();
    SortCorrect(g.files, FileLe);
    var start := Uniform(|g.files|);
    Rounds(Links(g.edges, Sort(g.files, FileLe), {}), start, start, ITERATIONS)
  }

  /** The scores add up to one over the files of the graph, none negative. */
  ghost predicate DistributionOver(byFile: map<nat, real>, files: seq<CodeFile>) {
    exists scores :: ScoresFor(byFile, files, scores) && Distribution(scores)
  }

  ghost predicate ScoresFor(byFile: map<nat, real>, files: seq<CodeFile>, scores: seq<real>) {
    |scores| == |files| && DistinctIds(files) && byFile == ByFile(files, scores)
  }

  lemma SortedIdsDistinct(files: seq<CodeFile>)
    requires DistinctIds(files)
    ensures DistinctIds(Sort(files, FileLe)) && |Sort(files, FileLe)| == |files|
  {
    FileOrder();
    SortCorrect(files, FileLe);
    SortMembers(files, FileLe);
    DistinctPermutation(files, Sort(files, FileLe));
    var s := Sort(files, FileLe);
    forall i, j | 0 <= i < j < |s| ensures s[i].id != s[j].id {
      assert s[i] in files && s[j] in files;
    }
  }

  lemma UniformDistribution(n: nat)
    requires n > 0
    ensures Distribution(Uniform(n))
  {
    var x := 1.0 / (n as real);
    UniformTotal(Uniform(n), x);
    assert (n as real) * x == 1.0;
  }

  lemma {:induction false} UniformTotal(s: seq<real>, x: real)
    requires forall i :: 0 <= i < |s| ==> s[i] == x
    ensures Total(s) == (|s| as real) * x
  {
    if s != [] {
      UniformTotal(s[..|s| - 1], x);
      assert |s| as real == (|s| - 1) as real + 1.0;
    }
  }

  /** The scores of forty rounds that restart in every file alike. */
  ghost predicate RankedEvenly(byFile: map<nat, real>, files: seq<CodeFile>, edges: seq<CodeEdge>) {
    exists restart: seq<real> :: |restart| == |files|
      && (forall i :: 0 <= i < |files| ==> restart[i] == 1.0 / (|files| as real))
      && ScoresFor(byFile, files, Rounds(Links(edges, files, {}), restart, restart, 40))
  }

  lemma StaticRestart(g: CodeGraph)
    requires DistinctIds(g.files) && g.files != []
    ensures DistinctIds(Sort(g.files, FileLe)) && |Sort(g.files, FileLe)| == |g.files|
    ensures RankedEvenly(ByFile(Sort(g.files, FileLe), StaticScores(g)), Sort(g.files, FileLe), g.edges)
  {
    SortedIdsDistinct(g.files);
    var files := Sort(g.files, FileLe);
    var restart := Uniform(|files|);
    assert forall i :: 0 <= i < |files| ==> restart[i] == 1.0 / (|files| as real);
    assert ScoresFor(ByFile(files, StaticScores(g)), files, Rounds(Links(g.edges, files, {}), restart, restart, 40));
  }

  /** Static centrality: scores form a distribution over the files. */
  method ComputeCentrality(g: CodeGraph) returns (byFile: map<nat, real>)
    requires DistinctIds(g.files)
    ensures DistinctIds(Sort(g.files, FileLe)) && |Sort(g.files, FileLe)| == |g.files|
    ensures byFile == ByFile(Sort(g.files, FileLe), StaticScores(g))
    ensures g.files != [] ==> DistributionOver(byFile, Sort(g.files, FileLe))
    ensures g.files != [] ==> RankedEvenly(byFile, Sort(g.files, FileLe), g.edges)
  {
    SortedIdsDistinct(g.files);
    var files := Sort(g.files, FileLe);
    if |files| == 0 { return map[]; }
    var positions := FilePositions(files);
    var outgoing := ImportAdjacency(g.edges, files, positions, {});
    var start := Uniform(|files|);
    UniformDistribution(|files|);
    var scores := RunPagerank(outgoing, start, start);
    byFile := ByFile(files, scores);
    StaticRestart(g);
    assert ScoresFor(byFile, files, scores);
  }

  /** Restart vector of a task: base score times the file's boost. */
  function Boosted(files: seq<CodeFile>, base: map<nat, real>, boost: map<nat, real>): (r: seq<real>)
    ensures |r| == |files|
  {
    seq(|files|, i requires 0 <= i < |files| =>
      (if files[i].id in base then base[files[i].id] else 1.0 / (|files| as real)) *
      (if files[i].id in boost then boost[files[i].id] else 1.0))
  }

  function TaskScores(g: CodeGraph, base: map<nat, real>, boost: map<nat, real>, context: set<nat>): (r: seq<real>)
    ensures |r| == |g.files|
  {
    FileOrder();
    SortCorrect(g.files, FileLe);
    var files := Sort(g.files, FileLe);
    var restart := NormalizedOf(Boosted(files, base, boost));
    Rounds(Links(g.edges, files, context), restart, restart, ITERATIONS)
  }

  /** Boosts are factors above zero; the base ranks some file above zero. */
  predicate Sensible(files: seq<CodeFile>, base: map<nat, real>, boost: map<nat, real>) {
    (forall f :: f in boost ==> boost[f] > 0.0) && (forall f :: f in base ==> base[f] >= 0.0)
    && exists f :: f in files && (f.id in base ==> base[f.id] > 0.0)
  }

  lemma BoostedPositive(files: seq<CodeFile>, base: map<nat, real>, boost: map<nat, real>)
    requires Sensible(files, base, boost)
    ensures NonNegative(Boosted(files, base, boost)) && SomePositive(Boosted(files, base, boost))
  {
    var r := Boosted(files, base, boost);
    forall i | 0 <= i < |r| ensures r[i] >= 0.0 && ((files[i].id in base ==> base[files[i].id] > 0.0) ==> r[i] > 0.0) {
      var x := if files[i].id in base then base[files[i].id] else 1.0 / (|files| as real);
      var y := if files[i].id in boost then boost[files[i].id] else 1.0;
      Product(x, y);
    }
    var f :| f in files && (f.id in base ==> base[f.id] > 0.0);
    var i :| 0 <= i < |files| && files[i] == f;
    assert r[i] > 0.0;
  }

  lemma {:induction false} TotalNotPositive(s: seq<real>)
    requires !SomePositive(s)
    ensures Total(s) <= 0.0
  {
    if s != [] {
      assert s[|s| - 1] <= 0.0;
      TotalNotPositive(s[..|s| - 1]);
    }
  }

  /** Any distribution over the files will do as a base. */
  lemma DistributionIsSensible(files: seq<CodeFile>, base: map<nat, real>, boost: map<nat, real>)
    requires DistributionOver(base, files) && forall f :: f in boost ==> boost[f] > 0.0
    ensures Sensible(files, base, boost)
  {
    var scores :| ScoresFor(base, files, scores) && Distribution(scores);
    if !SomePositive(scores) { TotalNotPositive(scores); }
    var i :| 0 <= i < |scores| && scores[i] > 0.0;
    assert files[i] in files && base[files[i].id] == scores[i];
  }

  lemma Product(x: real, y: real)
    requires x >= 0.0 && y > 0.0
    ensures x * y >= 0.0 && (x > 0.0 ==> x * y > 0.0)
  {}

  // ------------------------------------------------------------- restarts

  function Factor(values: map<nat, real>, id: nat, otherwise: real): real {
    if id in values then values[id] else otherwise
  }

  /** Each file's raw share of the restart: its base score, or an even part
      where it has none, times its boost, if it has one. */
  predicate RawShares(raw: seq<real>, files: seq<CodeFile>, base: map<nat, real>, boost: map<nat, real>) {
    |raw| == |files| && forall i :: 0 <= i < |files| ==>
      raw[i] == Factor(base, files[i].id, 1.0 / (|files| as real)) * Factor(boost, files[i].id, 1.0)
  }

  /** The restart is what the raw shares are of their sum. */
  ghost predicate Restarts(restart: seq<real>, files: seq<CodeFile>, base: map<nat, real>, boost: map<nat, real>) {
    exists raw :: RawShares(raw, files, base, boost) && IsPartOf(restart, raw)
  }

  predicate IsPartOf(restart: seq<real>, raw: seq<real>) {
    |restart| == |raw| && Total(raw) > 0.0 && forall i :: 0 <= i < |raw| ==> restart[i] == raw[i] / Total(raw)
  }

  lemma PartsOfWhole(raw: seq<real>)
    requires NonNegative(raw) && SomePositive(raw)
    ensures IsPartOf(NormalizedOf(raw), raw) && Total(NormalizedOf(raw)) == 1.0
  {
    PositiveTotal(raw);
    Normalized(NormalizedOf(raw), raw, Total(raw));
  }

  lemma BoostedShares(files: seq<CodeFile>, base: map<nat, real>, boost: map<nat, real>)
    ensures RawShares(Boosted(files, base, boost), files, base, boost)
  {}

  lemma RestartIs(files: seq<CodeFile>, base: map<nat, real>, boost: map<nat, real>)
    requires Sensible(files, base, boost)
    ensures var restart := NormalizedOf(Boosted(files, base, boost));
      Restarts(restart, files, base, boost) && Total(restart) == 1.0
  {
    var raw := Boosted(files, base, boost);
    BoostedPositive(files, base, boost);
    PartsOfWhole(raw);
    BoostedShares(files, base, boost);
  }

  lemma {:induction false} NoImportsNoLinks(
    edges: seq<CodeEdge>, files: seq<CodeFile>, context: set<nat>, i: nat, m: nat)
    requires i < |files| && m <= |files| && forall e :: e in edges ==> !e.kind.Import?
    ensures RowLinks(edges, files, context, i, m) == []
  {
    if m > 0 {
      NoImportsNoLinks(edges, files, context, i, m - 1);
      NothingAdded(edges, files[i].id, files[m - 1].id, context);
    }
  }

  lemma {:induction false} NothingAdded(edges: seq<CodeEdge>, from: nat, to: nat, context: set<nat>)
    requires forall e :: e in edges ==> !e.kind.Import?
    ensures Sums.Sum(edges, Adds(from, to, context)) == 0
  {
    if edges != [] { NothingAdded(edges[1..], from, to, context); }
  }

  /** Without imports the task ranking is the restart itself. */
  lemma UnlinkedRank(g: CodeGraph, base: map<nat, real>, boost: map<nat, real>, context: set<nat>)
    requires Sensible(g.files, base, boost) && forall e :: e in g.edges ==> !e.kind.Import?
    ensures Restarts(TaskScores(g, base, boost, context), Sort(g.files, FileLe), base, boost)
  {
    FileOrder();
    SortCorrect(g.files, FileLe);
    SortMembers(g.files, FileLe);
    var files := Sort(g.files, FileLe);
    RestartIs(files, base, boost);
    forall i | 0 <= i < |files| ensures Links(g.edges, files, context)[i] == [] {
      NoImportsNoLinks(g.edges, files, context, i, |files|);
    }
    RestartStays(Links(g.edges, files, context), NormalizedOf(Boosted(files, base, boost)), ITERATIONS);
  }

  lemma RawOnce(a: seq<real>, b: seq<real>, files: seq<CodeFile>, base: map<nat, real>, boost: map<nat, real>)
    requires RawShares(a, files, base, boost) && RawShares(b, files, base, boost)
    ensures a == b
  {}

  lemma {:induction false} OthersPositive(s: seq<real>, k: nat)
    requires NonNegative(s) && k < |s|
    ensures Total(s) > s[k] <==> exists j :: 0 <= j < |s| && j != k && s[j] > 0.0
  {
    var rest := s[k := 0.0];
    TotalUpdate(s, k, 0.0);
    if j :| 0 <= j < |s| && j != k && s[j] > 0.0 {
      TotalAtLeast(rest, j);
    }
    if Total(s) > s[k] && !SomePositive(rest) { TotalNotPositive(rest); }
    if j :| 0 <= j < |rest| && rest[j] > 0.0 { assert s[j] > 0.0 && j != k; }
  }

  lemma Times(x: real, total: real)
    requires total != 0.0
    ensures (x / total) * total == x
  {}

  lemma SignOf(a: real, b: real, c: real)
    requires a * b == c && b > 0.0
    ensures (a > 0.0 <==> c > 0.0) && (a >= 0.0 <==> c >= 0.0)
  {}

  lemma Raises(x: real, d: real, total: real)
    requires total > 0.0 && 0.0 <= x <= total && d >= 0.0
    ensures (x + d) / (total + d) >= x / total
    ensures (x + d) / (total + d) > x / total <==> d > 0.0 && x < total
  {
    var p, q := x / total, (x + d) / (total + d);
    Times(x, total);
    Times(x + d, total + d);
    SignOf(1.0 - p, total, total - x);
    var gain := d * (1.0 - p);
    assert (q - p) * (total + d) == gain;
    assert gain >= 0.0 && (gain > 0.0 <==> d > 0.0 && 1.0 - p > 0.0);
    SignOf(q - p, total + d, gain);
  }

  lemma Lowers(x: real, d: real, total: real)
    requires total > 0.0 && x >= 0.0 && d >= 0.0
    ensures x / (total + d) <= x / total
  {
    var p, q := x / total, x / (total + d);
    Times(x, total);
    Times(x, total + d);
    SignOf(q, total + d, x);
    var loss := q * d;
    assert loss >= 0.0 && (p - q) * total == loss;
    SignOf(p - q, total, loss);
  }

  /** What a higher boost of one file does to the raw shares. */
  lemma RaisedShares(
    files: seq<CodeFile>, base: map<nat, real>, boost: map<nat, real>, k: nat, more: real,
    raw: seq<real>, raised: seq<real>)
    returns (d: real)
    requires DistinctIds(files) && Sensible(files, base, boost) && k < |files|
    requires more > Factor(boost, files[k].id, 1.0)
    requires RawShares(raw, files, base, boost) && RawShares(raised, files, base, boost[files[k].id := more])
    ensures |raw| == |files| && raised == raw[k := raw[k] + d]
    ensures d >= 0.0 && (d > 0.0 <==> Factor(base, files[k].id, 1.0) > 0.0)
  {
    d := GrownShare(files, base, boost, k, more, raw, raised);
    forall j | 0 <= j < |files| && j != k ensures raised[j] == raw[j] {
      SameShare(files, base, boost, k, more, raw, raised, j);
    }
    assert raised == raw[k := raw[k] + d];
  }

  lemma GrownShare(
    files: seq<CodeFile>, base: map<nat, real>, boost: map<nat, real>, k: nat, more: real,
    raw: seq<real>, raised: seq<real>)
    returns (d: real)
    requires Sensible(files, base, boost) && k < |files| && more > Factor(boost, files[k].id, 1.0)
    requires RawShares(raw, files, base, boost) && RawShares(raised, files, base, boost[files[k].id := more])
    ensures raised[k] == raw[k] + d && d >= 0.0 && (d > 0.0 <==> Factor(base, files[k].id, 1.0) > 0.0)
  {
    var id, even := files[k].id, 1.0 / (|files| as real);
    BaseSign(files, base, id);
    ShareAt(raw, files, base, boost, k, even, Factor(boost, id, 1.0));
    ShareAt(raised, files, base, boost[id := more], k, even, more);
    d := GrownTo(Factor(base, id, even), Factor(boost, id, 1.0), more, raw[k], raised[k]);
  }

  predicate IsProduct(x: real, a: real, b: real) { x == a * b }

  lemma ShareAt(
    raw: seq<real>, files: seq<CodeFile>, base: map<nat, real>, boost: map<nat, real>, i: nat, even: real, f: real)
    requires RawShares(raw, files, base, boost) && i < |files| && even == 1.0 / (|files| as real)
    requires f == Factor(boost, files[i].id, 1.0)
    ensures IsProduct(raw[i], Factor(base, files[i].id, even), f)
  {}

  lemma GrownTo(b: real, f: real, more: real, x: real, y: real) returns (d: real)
    requires b >= 0.0 && more > f && IsProduct(x, b, f) && IsProduct(y, b, more)
    ensures y == x + d && d >= 0.0 && (d > 0.0 <==> b > 0.0)
  {
    d := Grown(b, f, more);
  }

  lemma BaseSign(files: seq<CodeFile>, base: map<nat, real>, id: nat)
    requires files != [] && forall f :: f in base ==> base[f] >= 0.0
    ensures var b := Factor(base, id, 1.0 / (|files| as real));
      b >= 0.0 && (b > 0.0 <==> Factor(base, id, 1.0) > 0.0)
  {
    assert 1.0 / (|files| as real) > 0.0;
  }

  lemma SameShare(
    files: seq<CodeFile>, base: map<nat, real>, boost: map<nat, real>, k: nat, more: real,
    raw: seq<real>, raised: seq<real>, j: nat)
    requires DistinctIds(files) && k < |files| && j < |files| && j != k
    requires RawShares(raw, files, base, boost) && RawShares(raised, files, base, boost[files[k].id := more])
    ensures raised[j] == raw[j]
  {
    OtherShare(files, base, boost, k, more, j);
  }

  lemma Grown(b: real, f: real, more: real) returns (d: real)
    requires b >= 0.0 && more > f
    ensures b * more == b * f + d && d >= 0.0 && (d > 0.0 <==> b > 0.0)
  {
    d := b * (more - f);
  }

  lemma OtherShare(
    files: seq<CodeFile>, base: map<nat, real>, boost: map<nat, real>, k: nat, more: real, j: nat)
    requires DistinctIds(files) && k < |files| && j < |files| && j != k
    ensures Factor(boost[files[k].id := more], files[j].id, 1.0) == Factor(boost, files[j].id, 1.0)
  {}

  /** A higher boost never lowers a file's share nor raises another's; it
      strictly raises its own exactly if the base ranks it and some other file
      above zero. */
  lemma RaisingBoost(
    files: seq<CodeFile>, base: map<nat, real>, boost: map<nat, real>, k: nat, more: real,
    before: seq<real>, after: seq<real>)
    requires DistinctIds(files) && Sensible(files, base, boost) && k < |files|
    requires more > Factor(boost, files[k].id, 1.0)
    requires Restarts(before, files, base, boost) && Restarts(after, files, base, boost[files[k].id := more])
    ensures after[k] >= before[k] && forall j :: 0 <= j < |files| && j != k ==> after[j] <= before[j]
    ensures after[k] > before[k] <==>
      Factor(base, files[k].id, 1.0) > 0.0
      && exists j :: 0 <= j < |files| && j != k && Factor(base, files[j].id, 1.0) > 0.0
  {
    var raw :| RawShares(raw, files, base, boost) && IsPartOf(before, raw);
    var raised :| RawShares(raised, files, base, boost[files[k].id := more]) && IsPartOf(after, raised);
    var d := RaisedShares(files, base, boost, k, more, raw, raised);
    SharesSigned(raw, files, base, boost);
    PartsMove(raw, k, d, before, after);
  }

  /** More of one part of a whole is less of every other. */
  lemma PartsMove(raw: seq<real>, k: nat, d: real, before: seq<real>, after: seq<real>)
    requires NonNegative(raw) && k < |raw| && d >= 0.0
    requires IsPartOf(before, raw) && IsPartOf(after, raw[k := raw[k] + d])
    ensures after[k] >= before[k] && forall j :: 0 <= j < |raw| && j != k ==> after[j] <= before[j]
    ensures after[k] > before[k] <==> d > 0.0 && exists j :: 0 <= j < |raw| && j != k && raw[j] > 0.0
  {
    TotalUpdate(raw, k, raw[k] + d);
    OthersPositive(raw, k);
    TotalAtLeast(raw, k);
    Raises(raw[k], d, Total(raw));
    forall j | 0 <= j < |raw| && j != k ensures after[j] <= before[j] { Lowers(raw[j], d, Total(raw)); }
  }

  lemma SharesSigned(raw: seq<real>, files: seq<CodeFile>, base: map<nat, real>, boost: map<nat, real>)
    requires Sensible(files, base, boost) && RawShares(raw, files, base, boost)
    ensures NonNegative(raw)
    ensures forall i :: 0 <= i < |files| ==> (raw[i] > 0.0 <==> Factor(base, files[i].id, 1.0) > 0.0)
  {
    forall i | 0 <= i < |files| ensures raw[i] >= 0.0 && (raw[i] > 0.0 <==> Factor(base, files[i].id, 1.0) > 0.0) {
      BaseSign(files, base, files[i].id);
      Product(Factor(base, files[i].id, 1.0 / (|files| as real)), Factor(boost, files[i].id, 1.0));
    }
  }

  /** Every file's score is its share of the restart. */
  ghost predicate RanksByRestart(
    byFile: map<nat, real>, files: seq<CodeFile>, base: map<nat, real>, boost: map<nat, real>) {
    exists raw :: RawShares(raw, files, base, boost) && Total(raw) > 0.0
      && forall i :: 0 <= i < |files| ==> files[i].id in byFile && byFile[files[i].id] == raw[i] / Total(raw)
  }

  /** The scores of forty rounds that restart in these shares. */
  ghost predicate RankedFrom(
    byFile: map<nat, real>, g: CodeGraph, base: map<nat, real>, boost: map<nat, real>, context: set<nat>) {
    var files := Sort(g.files, FileLe);
    exists restart :: Restarts(restart, files, base, boost)
      && ScoresFor(byFile, files, Rounds(Links(g.edges, files, context), restart, restart, 40))
  }

  lemma TaskScoresRestart(g: CodeGraph, base: map<nat, real>, boost: map<nat, real>, context: set<nat>)
    requires Sensible(g.files, base, boost) && DistinctIds(g.files)
    ensures DistinctIds(Sort(g.files, FileLe)) && |Sort(g.files, FileLe)| == |g.files|
    ensures RankedFrom(ByFile(Sort(g.files, FileLe), TaskScores(g, base, boost, context)), g, base, boost, context)
  {
    SortedIdsDistinct(g.files);
    FileOrder();
    SortMembers(g.files, FileLe);
    var files, scores := Sort(g.files, FileLe), TaskScores(g, base, boost, context);
    RestartIs(files, base, boost);
    assert ScoresFor(ByFile(files, scores), files, scores);
  }

  lemma ByFileAt(files: seq<CodeFile>, scores: seq<real>, i: nat)
    requires |scores| == |files| && DistinctIds(files) && i < |files|
    ensures files[i].id in ByFile(files, scores) && ByFile(files, scores)[files[i].id] == scores[i]
  {}

  lemma ScoresByRestart(files: seq<CodeFile>, base: map<nat, real>, boost: map<nat, real>, scores: seq<real>)
    requires DistinctIds(files) && |scores| == |files| && Restarts(scores, files, base, boost)
    ensures RanksByRestart(ByFile(files, scores), files, base, boost)
  {
    var raw :| RawShares(raw, files, base, boost) && IsPartOf(scores, raw);
    var byFile := ByFile(files, scores);
    forall i | 0 <= i < |files|
      ensures files[i].id in byFile && byFile[files[i].id] == raw[i] / Total(raw)
    {
      ByFileAt(files, scores, i);
    }
  }

  /** The task ranking is a distribution too, whatever the boosts. */
  method RankWithHits(g: CodeGraph, base: map<nat, real>, boost: map<nat, real>, context: set<nat>)
    returns (byFile: map<nat, real>)
    requires DistinctIds(g.files)
    ensures DistinctIds(Sort(g.files, FileLe)) && |Sort(g.files, FileLe)| == |g.files|
    ensures byFile == ByFile(Sort(g.files, FileLe), TaskScores(g, base, boost, context))
    ensures Sensible(g.files, base, boost) ==> DistributionOver(byFile, Sort(g.files, FileLe))
    ensures Sensible(g.files, base, boost) ==> RankedFrom(byFile, g, base, boost, context)
    ensures Sensible(g.files, base, boost) && (forall e :: e in g.edges ==> !e.kind.Import?) ==>
      RanksByRestart(byFile, Sort(g.files, FileLe), base, boost)
  {
    SortedIdsDistinct(g.files);
    var files := Sort(g.files, FileLe);
    if |files| == 0 { return map[]; }
    var positions := FilePositions(files);
    if Sensible(g.files, base, boost) { SortedBoosted(g.files, base, boost); }
    var outgoing := ImportAdjacency(g.edges, files, positions, context);
    var scores := RankFrom(outgoing, Boosted(files, base, boost));
    byFile := ByFile(files, scores);
    assert ScoresFor(byFile, files, scores);
    if Sensible(g.files, base, boost) {
      TaskScoresRestart(g, base, boost, context);
      if forall e :: e in g.edges ==> !e.kind.Import? {
        UnlinkedRank(g, base, boost, context);
        ScoresByRestart(files, base, boost, scores);
      }
    }
  }

  lemma SortedBoosted(files: seq<CodeFile>, base: map<nat, real>, boost: map<nat, real>)
    requires Sensible(files, base, boost)
    ensures var b := Boosted(Sort(files, FileLe), base, boost); NonNegative(b) && SomePositive(b)
  {
    FileOrder();
    SortMembers(files, FileLe);
    BoostedPositive(Sort(files, FileLe), base, boost);
  }

  method RankFrom(outgoing: seq<seq<Link>>, raw: seq<real>) returns (scores: seq<real>)
    requires Network(outgoing, |raw|)
    ensures scores == Rounds(outgoing, NormalizedOf(raw), NormalizedOf(raw), ITERATIONS)
    ensures NonNegative(raw) && SomePositive(raw) ==> Distribution(scores)
  {
    var restart := Normalize(raw);
    scores := RunPagerank(outgoing, restart, restart);
  }

  /** Neither ranking depends on the order of files or edges. */
  lemma RankingsIgnoreOrder(g: CodeGraph, h: CodeGraph, base: map<nat, real>, boost: map<nat, real>, context: set<nat>)
    requires multiset(g.files) == multiset(h.files) && multiset(g.edges) == multiset(h.edges) && DistinctIds(g.files)
    ensures Sort(g.files, FileLe) == Sort(h.files, FileLe)
    ensures StaticScores(g) == StaticScores(h)
    ensures TaskScores(g, base, boost, context) == TaskScores(h, base, boost, context)
  {
    FileOrder();
    TextOrder();
    SortIgnoresOrder(g.files, h.files, FileLe);
    SortCorrect(g.files, FileLe);
    SortCorrect(h.files, FileLe);
    LinksIgnoreOrder(g.edges, h.edges, Sort(g.files, FileLe), {});
    LinksIgnoreOrder(g.edges, h.edges, Sort(g.files, FileLe), context);
  }
}
