/** The edge list of a graph: duplicates folded into weights, ordered by
    `(from, to, kind)`, and built from sorted runs without a global sort. */
module Edges {
  import opened Types
  import opened Sorting
  import opened Sums

  type Key = (nat, nat, nat)

  function KindTag(k: EdgeKind): nat {
    match k case Import => 0 case Call => 1 case Inherit => 2 case Namespace => 3 case Pair => 4
  }

  function KeyOf(e: CodeEdge): Key { (e.from, e.to, KindTag(e.kind)) }

  predicate KeyLe(a: Key, b: Key) {
    a.0 < b.0 || (a.0 == b.0 && (a.1 < b.1 || (a.1 == b.1 && a.2 <= b.2)))
  }

  predicate KeyLess(a: Key, b: Key) { KeyLe(a, b) && a != b }

  predicate EdgeLe(a: CodeEdge, b: CodeEdge) { KeyLe(KeyOf(a), KeyOf(b)) }

  ghost predicate Strict(s: seq<CodeEdge>) {
    forall i, j :: 0 <= i < j < |s| ==> KeyLess(KeyOf(s[i]), KeyOf(s[j]))
  }

  /** Every edge kind carries one confidence, and no edge is weightless. */
  function ConfidenceOf(k: EdgeKind): Confidence {
    match k case Import => Scoped case Namespace => Scoped case _ => Syntactic
  }

  ghost predicate Uniform(s: seq<CodeEdge>) {
    forall e :: e in s ==> e.weight > 0 && e.confidence == ConfidenceOf(e.kind)
  }

  function WeightAt(k: Key): CodeEdge -> nat { (e: CodeEdge) => if KeyOf(e) == k then e.weight else 0 }

  /** Total weight an edge list gives to a key. */
  function Weight(s: seq<CodeEdge>, k: Key): nat { Sum(s, WeightAt(k)) }

  ghost predicate SameWeights(a: seq<CodeEdge>, b: seq<CodeEdge>) {
    forall k :: Weight(a, k) == Weight(b, k)
  }

  /** The canonical form of a raw edge list. */
  ghost predicate Canonical(out: seq<CodeEdge>, raw: seq<CodeEdge>) {
    Strict(out) && Uniform(out) && SameWeights(out, raw)
  }

  lemma EdgeOrder()
    ensures TotalPreorder(EdgeLe)
  {}

  lemma WeightConcat(a: seq<CodeEdge>, b: seq<CodeEdge>, k: Key)
    ensures Weight(a + b, k) == Weight(a, k) + Weight(b, k)
  {
    SumConcat(a, b, WeightAt(k));
  }

  lemma WeightOne(e: CodeEdge, k: Key)
    ensures Weight([e], k) == if KeyOf(e) == k then e.weight else 0
  {
    assert Sum([e][1..], WeightAt(k)) == 0;
  }

  /** In a strict list each key has one edge, which holds its whole weight. */
  lemma {:induction false} StrictWeight(s: seq<CodeEdge>, i: int)
    requires Strict(s) && 0 <= i < |s|
    ensures Weight(s, KeyOf(s[i])) == s[i].weight
  {
    var k := KeyOf(s[i]);
    assert s == s[..i] + ([s[i]] + s[i + 1..]);
    WeightConcat(s[..i], [s[i]] + s[i + 1..], k);
    WeightConcat([s[i]], s[i + 1..], k);
    WeightOne(s[i], k);
    SumZero(s[..i], WeightAt(k));
    SumZero(s[i + 1..], WeightAt(k));
  }

  lemma {:induction false} AbsentWeight(s: seq<CodeEdge>, k: Key)
    requires forall e :: e in s ==> KeyOf(e) != k
    ensures Weight(s, k) == 0
  {
    SumZero(s, WeightAt(k));
  }

  lemma PresentWeight(s: seq<CodeEdge>, k: Key) returns (i: nat)
    requires Weight(s, k) > 0
    ensures i < |s| && KeyOf(s[i]) == k
  {
    if forall e :: e in s ==> KeyOf(e) != k { AbsentWeight(s, k); }
    var e :| e in s && KeyOf(e) == k;
    i :| 0 <= i < |s| && s[i] == e;
  }

  lemma SameKeyEdge(a: seq<CodeEdge>, b: seq<CodeEdge>, i: nat) returns (j: nat)
    requires Strict(a) && Strict(b) && Uniform(a) && Uniform(b) && SameWeights(a, b) && i < |a|
    ensures j < |b| && b[j] == a[i]
  {
    StrictWeight(a, i);
    assert a[i] in a;
    j := PresentWeight(b, KeyOf(a[i]));
    StrictWeight(b, j);
    assert b[j] in b;
  }

  /** A raw edge list has at most one canonical form. */
  lemma {:induction false} CanonicalUnique(a: seq<CodeEdge>, b: seq<CodeEdge>)
    requires Strict(a) && Strict(b) && Uniform(a) && Uniform(b) && SameWeights(a, b)
    ensures a == b
  {
    if a == [] {
      if b != [] { var j := SameKeyEdge(b, a, 0); }
    } else {
      var j := SameKeyEdge(a, b, 0);
      var i := SameKeyEdge(b, a, 0);
      assert i == 0 && j == 0;
      assert a == [a[0]] + a[1..] && b == [b[0]] + b[1..];
      forall k ensures Weight(a[1..], k) == Weight(b[1..], k) {
        WeightConcat([a[0]], a[1..], k);
        WeightConcat([b[0]], b[1..], k);
      }
      assert forall e :: e in a[1..] ==> e in a;
      assert forall e :: e in b[1..] ==> e in b;
      CanonicalUnique(a[1..], b[1..]);
    }
  }

  // ------------------------------------------------- sort, fold, merge

  /** Any order among equal keys will do. */
  method SortUnstable(edges: seq<CodeEdge>) returns (s: seq<CodeEdge>)
    ensures multiset(s) == multiset(edges) && SortedBy(s, EdgeLe)
  {
    EdgeOrder();
    SortCorrect(edges, EdgeLe);
    s := Sort(edges, EdgeLe);
  }

  lemma SameMultiset(a: seq<CodeEdge>, b: seq<CodeEdge>)
    requires multiset(a) == multiset(b)
    ensures SameWeights(a, b)
    ensures Uniform(a) ==> Uniform(b)
  {
    forall k ensures Weight(a, k) == Weight(b, k) { SumPermutation(a, b, WeightAt(k)); }
    if Uniform(a) {
      forall e | e in b ensures e in a { assert e in multiset(a); }
    }
  }

  method SortAndMerge(edges: seq<CodeEdge>) returns (out: seq<CodeEdge>)
    requires Uniform(edges)
    ensures Canonical(out, edges)
  {
    var s := SortUnstable(edges);
    SameMultiset(edges, s);
    out := [];
    for i := 0 to |s|
      invariant Canonical(out, s[..i])
      invariant forall e, j :: e in out && i <= j < |s| ==> KeyLe(KeyOf(e), KeyOf(s[j]))
    {
      assert s[..i + 1] == s[..i] + [s[i]];
      ghost var before := out;
      assert s[i] in s;
      if out != [] && KeyOf(out[|out| - 1]) == KeyOf(s[i]) {
        var last := out[|out| - 1];
        assert last in out;
        var folded := last.(weight := last.weight + s[i].weight);
        out := out[..|out| - 1] + [folded];
        FoldWeights(before, s[i], folded);
      } else {
        if out != [] { assert out[|out| - 1] in out; }
        out := out + [s[i]];
      }
      forall k ensures Weight(out, k) == Weight(s[..i + 1], k) {
        WeightConcat(before, [s[i]], k);
        WeightConcat(s[..i], [s[i]], k);
      }
    }
    assert s[..|s|] == s;
  }

  lemma FoldWeights(s: seq<CodeEdge>, e: CodeEdge, folded: CodeEdge)
    requires s != [] && KeyOf(s[|s| - 1]) == KeyOf(e) == KeyOf(folded)
    requires folded.weight == s[|s| - 1].weight + e.weight
    ensures SameWeights(s[..|s| - 1] + [folded], s + [e])
  {
    var n := |s| - 1;
    assert s == s[..n] + [s[n]];
    forall k ensures Weight(s[..n] + [folded], k) == Weight(s + [e], k) {
      WeightConcat(s[..n], [folded], k);
      WeightConcat(s[..n], [s[n]], k);
      WeightConcat(s, [e], k);
      WeightOne(folded, k);
      WeightOne(s[n], k);
      WeightOne(e, k);
    }
  }

  method MergeSortedEdges(a: seq<CodeEdge>, b: seq<CodeEdge>) returns (out: seq<CodeEdge>)
    requires Strict(a) && Strict(b) && Uniform(a) && Uniform(b)
    ensures Canonical(out, a + b)
  {
    if b == [] { assert a + b == a; return a; }
    if a == [] { assert a + b == b; return b; }
    out := [];
    var i: nat, j: nat := 0, 0;
    while i < |a| || j < |b|
      invariant i <= |a| && j <= |b|
      invariant Strict(out) && Uniform(out) && SameWeights(out, a[..i] + b[..j])
      invariant Before(out, a, i) && Before(out, b, j)
      decreases |a| - i + |b| - j
    {
      var e;
      ghost var i0, j0 := i, j;
      ghost var taken: seq<CodeEdge>;
      if j == |b| || (i < |a| && KeyLess(KeyOf(a[i]), KeyOf(b[j]))) {
        e, i, taken := a[i], i + 1, [a[i]];
      } else if i == |a| || KeyLess(KeyOf(b[j]), KeyOf(a[i])) {
        e, j, taken := b[j], j + 1, [b[j]];
      } else {
        e, i, j, taken := a[i].(weight := a[i].weight + b[j].weight), i + 1, j + 1, [a[i]] + [b[j]];
      }
      assert taken == a[i0..i] + b[j0..j];
      MergeWeights(a, b, i0, j0, i, j, out, e, taken);
      StrictAppend(out, e);
      out := out + [e];
    }
    assert a[..i] == a && b[..j] == b;
  }

  /** Everything emitted comes before what is left of a list. */
  predicate Before(out: seq<CodeEdge>, s: seq<CodeEdge>, i: nat) {
    out == [] || i >= |s| || KeyLess(KeyOf(out[|out| - 1]), KeyOf(s[i]))
  }

  lemma StrictAppend(out: seq<CodeEdge>, e: CodeEdge)
    requires Strict(out) && (out == [] || KeyLess(KeyOf(out[|out| - 1]), KeyOf(e)))
    ensures Strict(out + [e])
  {}

  lemma MergeWeights(
    a: seq<CodeEdge>, b: seq<CodeEdge>, i0: nat, j0: nat, i: nat, j: nat,
    before: seq<CodeEdge>, e: CodeEdge, taken: seq<CodeEdge>)
    requires i0 <= i <= |a| && j0 <= j <= |b|
    requires SameWeights(before, a[..i0] + b[..j0])
    requires taken == a[i0..i] + b[j0..j]
    requires forall x :: x in taken ==> KeyOf(x) == KeyOf(e)
    requires 1 <= |taken| <= 2
    requires e.weight == taken[0].weight + if |taken| == 2 then taken[1].weight else 0
    ensures SameWeights(before + [e], a[..i] + b[..j])
  {
    forall k ensures Weight(before + [e], k) == Weight(a[..i] + b[..j], k) {
      WeightConcat(before, [e], k);
      WeightOne(e, k);
      WeightConcat(a[..i0], b[..j0], k);
      WeightConcat(a[..i], b[..j], k);
      assert a[..i] == a[..i0] + a[i0..i] && b[..j] == b[..j0] + b[j0..j];
      WeightConcat(a[..i0], a[i0..i], k);
      WeightConcat(b[..j0], b[j0..j], k);
      WeightConcat(a[i0..i], b[j0..j], k);
      WeightOne(taken[0], k);
      if |taken| == 2 {
        assert taken == [taken[0]] + [taken[1]];
        WeightConcat([taken[0]], [taken[1]], k);
        WeightOne(taken[1], k);
      } else {
        assert taken == [taken[0]];
      }
    }
  }
}
