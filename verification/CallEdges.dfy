/** Call edges: each file emits its own run already ordered by `(from, to)`,
    and because symbol ids ascend with the files the runs only have to be
    concatenated. */
module CallEdges {
  import opened Types
  import opened Sorting
  import opened Sums
  import opened Edges

  /** A caller and the symbols one of its calls may mean. */
  type CallSite = (nat, seq<nat>)

  function CallEdge(from: nat, to: nat): CodeEdge { CodeEdge(from, to, Call, 1, Syntactic) }

  /** One edge of weight 1 for each target. */
  function Plain(from: nat, to: seq<nat>): (r: seq<CodeEdge>)
    ensures |r| == |to| && forall i :: 0 <= i < |to| ==> r[i] == CallEdge(from, to[i])
  { seq(|to|, i requires 0 <= i < |to| => CallEdge(from, to[i])) }

  /** A symbol is never its own target. */
  function Others(to: seq<nat>, from: nat): (r: seq<nat>)
    ensures from !in r
  {
    if to == [] then [] else (if to[0] == from then [] else [to[0]]) + Others(to[1..], from)
  }

  function RawSite(c: CallSite): seq<CodeEdge> { Plain(c.0, Others(c.1, c.0)) }

  /** The unfolded edges: one for each call and each of its targets. */
  function RawCalls(sites: seq<CallSite>): seq<CodeEdge> {
    if sites == [] then [] else RawSite(sites[0]) + RawCalls(sites[1..])
  }

  predicate CallerLe(a: CallSite, b: CallSite) { a.0 <= b.0 }

  predicate IdLe(a: nat, b: nat) { a <= b }

  lemma CallerOrder()
    ensures TotalPreorder(CallerLe) && TotalPreorder(IdLe)
  {}

  function SiteWeight(k: Key): CallSite -> nat { (c: CallSite) => Weight(RawSite(c), k) }

  lemma {:induction false} RawCallsWeight(sites: seq<CallSite>, k: Key)
    ensures Weight(RawCalls(sites), k) == Sum(sites, SiteWeight(k))
  {
    if sites != [] {
      WeightConcat(RawSite(sites[0]), RawCalls(sites[1..]), k);
      RawCallsWeight(sites[1..], k);
    }
  }

  lemma {:induction false} RawCallsUniform(sites: seq<CallSite>)
    ensures Uniform(RawCalls(sites))
    ensures forall e :: e in RawCalls(sites) ==> e.kind == Call && exists c :: c in sites && c.0 == e.from
  {
    if sites != [] {
      RawCallsUniform(sites[1..]);
      forall e | e in RawCalls(sites) && e !in RawCalls(sites[1..])
        ensures e.kind == Call && e.weight == 1 && e.confidence == Syntactic && e.from == sites[0].0 {
        assert e in RawSite(sites[0]);
      }
      assert sites[0] in sites && forall c :: c in sites[1..] ==> c in sites;
    }
  }

  lemma {:induction false} RawCallsConcat(a: seq<CallSite>, b: seq<CallSite>)
    ensures RawCalls(a + b) == RawCalls(a) + RawCalls(b)
  {
    if a == [] {
      assert a + b == b;
    } else {
      assert (a + b)[1..] == a[1..] + b;
      RawCallsConcat(a[1..], b);
    }
  }

  function TargetAt(from: nat, k: Key): nat -> nat { (t: nat) => if KeyOf(CallEdge(from, t)) == k then 1 else 0 }

  lemma {:induction false} PlainWeight(from: nat, to: seq<nat>, k: Key)
    ensures Weight(Plain(from, to), k) == Sum(to, TargetAt(from, k))
  {
    if to != [] {
      assert Plain(from, to)[1..] == Plain(from, to[1..]);
      PlainWeight(from, to[1..], k);
    }
  }

  lemma {:induction false} RunWeight(from: nat, to: seq<nat>, t: nat, k: Key)
    requires forall i :: 0 <= i < |to| ==> to[i] == t
    ensures Weight(Plain(from, to), k) == if k == KeyOf(CallEdge(from, t)) then |to| else 0
  {
    if to != [] {
      assert Plain(from, to)[1..] == Plain(from, to[1..]);
      RunWeight(from, to[1..], t, k);
    }
  }

  lemma RunWeights(from: nat, to: seq<nat>, k: nat, m: nat, before: seq<CodeEdge>, e: CodeEdge)
    requires k < m <= |to| && (forall j :: k <= j < m ==> to[j] == to[k])
    requires SameWeights(before, Plain(from, to[..k])) && e == CallEdge(from, to[k]).(weight := m - k)
    ensures SameWeights(before + [e], Plain(from, to[..m]))
  {
    forall key ensures Weight(before + [e], key) == Weight(Plain(from, to[..m]), key) {
      WeightConcat(before, [e], key);
      WeightOne(e, key);
      assert Plain(from, to[..m]) == Plain(from, to[..k]) + Plain(from, to[k..m]);
      WeightConcat(Plain(from, to[..k]), Plain(from, to[k..m]), key);
      RunWeight(from, to[k..m], to[k], key);
    }
  }

  /** Runs of equal target ids become weighted edges. */
  method FoldRuns(from: nat, to: seq<nat>) returns (out: seq<CodeEdge>)
    requires SortedBy(to, IdLe)
    ensures Canonical(out, Plain(from, to))
    ensures forall e :: e in out ==> e.from == from
  {
    out := [];
    var k := 0;
    while k < |to|
      invariant k <= |to|
      invariant Canonical(out, Plain(from, to[..k]))
      invariant forall e, j :: e in out && k <= j < |to| ==> e.from == from && e.kind == Call && e.to < to[j]
      invariant forall e :: e in out ==> e.from == from
    {
      var m := k;
      while m < |to| && to[m] == to[k]
        invariant k <= m <= |to| && forall j :: k <= j < m ==> to[j] == to[k]
        invariant m == k ==> m < |to| && to[m] == to[k]
      {
        m := m + 1;
      }
      ghost var before := out;
      var e := CallEdge(from, to[k]).(weight := m - k);
      out := out + [e];
      RunWeights(from, to, k, m, before, e);
      k := m;
    }
    assert to[..|to|] == to;
  }

  method SortIds(to: seq<nat>) returns (s: seq<nat>)
    ensures multiset(s) == multiset(to) && SortedBy(s, IdLe)
  {
    CallerOrder();
    SortCorrect(to, IdLe);
    s := Sort(to, IdLe);
  }

  /** The edges of one file's calls: sites sorted by caller, each caller's
      targets pooled, sorted and folded. */
  method FileCallEdges(sites: seq<CallSite>) returns (out: seq<CodeEdge>)
    ensures Canonical(out, RawCalls(sites))
    ensures forall e :: e in out ==> exists c :: c in sites && c.0 == e.from
  {
    var sorted := Sort(sites, CallerLe);
    CallerOrder();
    SortCorrect(sites, CallerLe);
    SortMembers(sites, CallerLe);
    out := [];
    var i := 0;
    while i < |sorted|
      invariant i <= |sorted|
      invariant Canonical(out, RawCalls(sorted[..i]))
      invariant forall e, j :: e in out && i <= j < |sorted| ==> e.from < sorted[j].0
      invariant forall e :: e in out ==> exists c :: c in sorted && c.0 == e.from
    {
      var from := sorted[i].0;
      var to, j := PoolTargets(sorted, i);
      var ids := SortIds(to);
      var group := FoldRuns(from, ids);
      ghost var before := out;
      out := out + group;
      GroupWeights(sorted, i, j, before, group, to, ids);
      assert sorted[i] in sorted;
      i := j;
    }
    assert sorted[..|sorted|] == sorted;
    forall k ensures Weight(out, k) == Weight(RawCalls(sites), k) {
      RawCallsWeight(sorted, k);
      RawCallsWeight(sites, k);
      SumPermutation(sorted, sites, SiteWeight(k));
    }
  }

  lemma GroupWeights(
    sorted: seq<CallSite>, i: nat, j: nat, before: seq<CodeEdge>, group: seq<CodeEdge>, to: seq<nat>, ids: seq<nat>)
    requires i < j <= |sorted|
    requires SameWeights(before, RawCalls(sorted[..i])) && SameWeights(group, Plain(sorted[i].0, ids))
    requires RawCalls(sorted[i..j]) == Plain(sorted[i].0, to) && multiset(ids) == multiset(to)
    ensures SameWeights(before + group, RawCalls(sorted[..j]))
  {
    forall k ensures Weight(before + group, k) == Weight(RawCalls(sorted[..j]), k) {
      GroupWeightAt(sorted, i, j, before, group, to, ids, k);
    }
  }

  lemma GroupWeightAt(
    sorted: seq<CallSite>, i: nat, j: nat, before: seq<CodeEdge>, group: seq<CodeEdge>, to: seq<nat>, ids: seq<nat>,
    k: Key)
    requires i < j <= |sorted|
    requires Weight(before, k) == Weight(RawCalls(sorted[..i]), k)
        && Weight(group, k) == Weight(Plain(sorted[i].0, ids), k)
    requires RawCalls(sorted[i..j]) == Plain(sorted[i].0, to) && multiset(ids) == multiset(to)
    ensures Weight(before + group, k) == Weight(RawCalls(sorted[..j]), k)
  {
    WeightConcat(before, group, k);
    PlainIgnoresOrder(sorted[i].0, ids, to, k);
    RawCallsSplit(sorted, i, j);
    WeightConcat(RawCalls(sorted[..i]), RawCalls(sorted[i..j]), k);
  }

  lemma RawCallsSplit(sorted: seq<CallSite>, i: nat, j: nat)
    requires i <= j <= |sorted|
    ensures RawCalls(sorted[..j]) == RawCalls(sorted[..i]) + RawCalls(sorted[i..j])
  {
    assert sorted[..j] == sorted[..i] + sorted[i..j];
    RawCallsConcat(sorted[..i], sorted[i..j]);
  }

  lemma PlainIgnoresOrder(from: nat, a: seq<nat>, b: seq<nat>, k: Key)
    requires multiset(a) == multiset(b)
    ensures Weight(Plain(from, a), k) == Weight(Plain(from, b), k)
  {
    PlainWeight(from, a, k);
    PlainWeight(from, b, k);
    SumPermutation(a, b, TargetAt(from, k));
  }

  lemma PoolStep(sorted: seq<CallSite>, i: nat, j: nat, from: nat, to: seq<nat>)
    requires i <= j < |sorted| && sorted[j].0 == from && RawCalls(sorted[i..j]) == Plain(from, to)
    ensures RawCalls(sorted[i..j + 1]) == Plain(from, to + Others(sorted[j].1, from))
  {
    var more := Others(sorted[j].1, from);
    assert sorted[i..j + 1] == sorted[i..j] + [sorted[j]];
    RawCallsConcat(sorted[i..j], [sorted[j]]);
    assert RawCalls([sorted[j]]) == RawSite(sorted[j]) + RawCalls([sorted[j]][1..]);
    assert Plain(from, to + more) == Plain(from, to) + Plain(from, more);
  }

  method PoolTargets(sorted: seq<CallSite>, i: nat) returns (to: seq<nat>, j: nat)
    requires i < |sorted| && SortedBy(sorted, CallerLe)
    ensures i < j <= |sorted|
    ensures RawCalls(sorted[i..j]) == Plain(sorted[i].0, to)
    ensures forall m :: i <= m < j ==> sorted[m].0 == sorted[i].0
    ensures forall m :: j <= m < |sorted| ==> sorted[i].0 < sorted[m].0
  {
    var from := sorted[i].0;
    to, j := [], i;
    while j < |sorted| && sorted[j].0 == from
      invariant i <= j <= |sorted| && forall m :: i <= m < j ==> sorted[m].0 == from
      invariant RawCalls(sorted[i..j]) == Plain(from, to)
      invariant j == i ==> sorted[j].0 == from
    {
      PoolStep(sorted, i, j, from, to);
      to := to + Others(sorted[j].1, from);
      j := j + 1;
    }
    if j < |sorted| {
      forall m | j <= m < |sorted| ensures from < sorted[m].0 {
        assert CallerLe(sorted[i], sorted[j]);
        assert m == j || CallerLe(sorted[j], sorted[m]);
      }
    }
  }

  function AllRawCalls(files: seq<seq<CallSite>>): seq<CodeEdge> {
    if files == [] then [] else AllRawCalls(files[..|files| - 1]) + RawCalls(files[|files| - 1])
  }

  /** File `f` only has callers among its own symbols `bounds[f]..bounds[f+1]`. */
  ghost predicate CallersWithin(files: seq<seq<CallSite>>, bounds: seq<nat>) {
    && |bounds| == |files| + 1
    && (forall f, g :: 0 <= f <= g < |bounds| ==> bounds[f] <= bounds[g])
    && (forall f, c :: 0 <= f < |files| && c in files[f] ==> bounds[f] <= c.0 < bounds[f + 1])
  }

  /** No global sort: the concatenated runs are already canonical. */
  method AllCallEdges(files: seq<seq<CallSite>>, ghost bounds: seq<nat>) returns (out: seq<CodeEdge>)
    requires CallersWithin(files, bounds)
    ensures Canonical(out, AllRawCalls(files))
  {
    out := [];
    for f := 0 to |files|
      invariant Canonical(out, AllRawCalls(files[..f]))
      invariant forall e :: e in out ==> e.from < bounds[f]
    {
      var run := FileCallEdges(files[f]);
      ghost var before := out;
      out := out + run;
      assert files[..f + 1][..f] == files[..f];
      assert forall e :: e in run ==> bounds[f] <= e.from < bounds[f + 1];
      forall k ensures Weight(out, k) == Weight(AllRawCalls(files[..f + 1]), k) {
        WeightConcat(before, run, k);
        WeightConcat(AllRawCalls(files[..f]), RawCalls(files[f]), k);
      }
    }
    assert files[..|files|] == files;
  }

  /** The whole pipeline: whatever order raw edges arrive in, the result is
      their one canonical form. */
  method BuildEdges(others: seq<CodeEdge>, files: seq<seq<CallSite>>, ghost bounds: seq<nat>)
    returns (out: seq<CodeEdge>)
    requires Uniform(others) && CallersWithin(files, bounds)
    ensures Canonical(out, others + AllRawCalls(files))
  {
    var folded := SortAndMerge(others);
    var calls := AllCallEdges(files, bounds);
    out := MergeSortedEdges(folded, calls);
    forall k ensures Weight(out, k) == Weight(others + AllRawCalls(files), k) {
      WeightConcat(folded, calls, k);
      WeightConcat(others, AllRawCalls(files), k);
    }
  }
}
