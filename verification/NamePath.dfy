/** Hierarchical symbol paths over a flat symbol table: line-range containment,
    its covering relation, depth expansion, and ancestor matching. */
module NamePath {
  import opened Types
  import opened Sorting

  predicate IsContainerKind(k: SymbolKind) {
    k.Class? || k.Interface? || k.Struct? || k.Enum? || k.Trait? || k.Module?
  }

  /** Range containment in one file; on equal ranges a container kind contains
      the other kinds. */
  predicate StrictlyContains(o: CodeSymbol, i: CodeSymbol) {
    && o.file == i.file && o.startLine <= i.startLine && o.endLine >= i.endLine
    && ((o.startLine, o.endLine) != (i.startLine, i.endLine) || (IsContainerKind(o.kind) && !IsContainerKind(i.kind)))
  }

  /** Containment is a strict partial order, reversed spans included. */
  lemma ContainmentOrder(a: CodeSymbol, b: CodeSymbol, c: CodeSymbol)
    ensures !StrictlyContains(a, a)
    ensures StrictlyContains(a, b) ==> !StrictlyContains(b, a)
    ensures StrictlyContains(a, b) && StrictlyContains(b, c) ==> StrictlyContains(a, c)
  {}

  predicate HasLine(s: CodeSymbol, line: u32) { s.startLine <= line <= s.endLine }

  /** Containment by lines: all lines of the inner symbol belong to the outer
      one, which has more of them or, of the two, alone is a class, interface,
      struct, enum, trait or module. */
  lemma ContainsByLines(o: CodeSymbol, i: CodeSymbol)
    requires i.startLine <= i.endLine
    ensures StrictlyContains(o, i) <==>
      && o.file == i.file && (forall line :: HasLine(i, line) ==> HasLine(o, line))
      && ((exists line :: HasLine(o, line) && !HasLine(i, line))
          || (o.kind in [Class, Interface, Struct, Enum, Trait, Module]
              && i.kind !in [Class, Interface, Struct, Enum, Trait, Module]))
  {
    assert HasLine(i, i.startLine) && HasLine(i, i.endLine);
    if o.startLine < i.startLine <= i.endLine <= o.endLine { assert HasLine(o, o.startLine); }
    if o.startLine <= i.startLine <= i.endLine < o.endLine { assert HasLine(o, o.endLine); }
  }

  predicate Inside(syms: seq<CodeSymbol>, o: nat, i: nat) {
    o < |syms| && i < |syms| && StrictlyContains(syms[o], syms[i])
  }

  /** `o` contains `i` with nothing in between. */
  predicate Covers(syms: seq<CodeSymbol>, o: nat, i: nat) {
    Inside(syms, o, i) && forall m :: 0 <= m < |syms| ==> !(Inside(syms, o, m) && Inside(syms, m, i))
  }

  /** The direct children of a symbol, by position. */
  method DirectChildren(syms: seq<CodeSymbol>, bucket: seq<nat>, parent: nat) returns (r: seq<nat>)
    requires parent < |syms|
    requires forall i: nat :: i in bucket <==> i < |syms| && syms[i].file == syms[parent].file
    ensures forall c :: c in r <==> Covers(syms, parent, c)
  {
    var inside := [];
    for k := 0 to |bucket|
      invariant forall i :: i in inside <==> i in bucket[..k] && Inside(syms, parent, i)
    {
      assert bucket[..k + 1] == bucket[..k] + [bucket[k]];
      assert bucket[k] in bucket;
      if StrictlyContains(syms[parent], syms[bucket[k]]) { inside := inside + [bucket[k]]; }
    }
    assert bucket[..|bucket|] == bucket;
    r := [];
    for k := 0 to |inside|
      invariant forall c :: c in r <==> c in inside[..k] && Covers(syms, parent, c)
    {
      var s := inside[k];
      assert inside[..k + 1] == inside[..k] + [s];
      assert s in inside;
      if forall m :: m in inside ==> !StrictlyContains(syms[m], syms[s]) {
        assert Covers(syms, parent, s);
        r := r + [s];
      } else {
        var m :| m in inside && StrictlyContains(syms[m], syms[s]);
        assert Inside(syms, parent, m) && Inside(syms, m, s);
      }
    }
    assert inside[..|inside|] == inside;
  }

  // --------------------------------------------------- covering chains

  /** A chain of `d` covering steps leads from `m` down to `x`. */
  ghost predicate Chain(syms: seq<CodeSymbol>, m: nat, x: nat, d: nat)
    decreases d
  {
    if d == 0 then m == x && m < |syms|
    else exists y :: 0 <= y < |syms| && Chain(syms, m, y, d - 1) && Covers(syms, y, x)
  }

  lemma {:induction false} ChainContains(syms: seq<CodeSymbol>, m: nat, x: nat, d: nat)
    requires Chain(syms, m, x, d) && d > 0
    ensures Inside(syms, m, x)
    decreases d
  {
    var y :| 0 <= y < |syms| && Chain(syms, m, y, d - 1) && Covers(syms, y, x);
    if d > 1 {
      ChainContains(syms, m, y, d - 1);
      ContainmentOrder(syms[m], syms[y], syms[x]);
    }
  }

  lemma {:induction false} ChainJoin(syms: seq<CodeSymbol>, a: nat, b: nat, c: nat, d: nat, e: nat)
    requires Chain(syms, a, b, d) && Chain(syms, b, c, e)
    ensures Chain(syms, a, c, d + e)
    decreases e
  {
    if e > 0 {
      var y :| 0 <= y < |syms| && Chain(syms, b, y, e - 1) && Covers(syms, y, c);
      ChainJoin(syms, a, b, y, d, e - 1);
      assert Chain(syms, a, y, d + e - 1);
    }
  }

  ghost function Between(syms: seq<CodeSymbol>, o: nat, i: nat): set<nat> {
    set m | 0 <= m < |syms| && Inside(syms, o, m) && Inside(syms, m, i)
  }

  /** Whatever is inside is reached by covering steps, at most one more than
      there are symbols in between. */
  lemma {:induction false} ContainedIsReached(syms: seq<CodeSymbol>, o: nat, i: nat) returns (d: nat)
    requires Inside(syms, o, i)
    ensures 1 <= d <= |Between(syms, o, i)| + 1 && Chain(syms, o, i, d)
    decreases |Between(syms, o, i)|
  {
    var all := Between(syms, o, i);
    if all == {} {
      assert Covers(syms, o, i) by {
        forall m | 0 <= m < |syms| ensures !(Inside(syms, o, m) && Inside(syms, m, i)) { assert m !in all; }
      }
      assert Chain(syms, o, o, 0);
      d := 1;
    } else {
      var m :| m in all;
      var upper, lower := Between(syms, o, m), Between(syms, m, i);
      SplitBetween(syms, o, m, i);
      var d1 := ContainedIsReached(syms, o, m);
      var d2 := ContainedIsReached(syms, m, i);
      ChainJoin(syms, o, m, i, d1, d2);
      d := d1 + d2;
    }
  }

  lemma SplitBetween(syms: seq<CodeSymbol>, o: nat, m: nat, i: nat)
    requires Inside(syms, o, m) && Inside(syms, m, i)
    ensures |Between(syms, o, m)| + |Between(syms, m, i)| + 1 <= |Between(syms, o, i)|
  {
    var upper, lower, all := Between(syms, o, m), Between(syms, m, i), Between(syms, o, i);
    forall x | x in upper ensures x in all && x !in lower && x != m {
      ContainmentOrder(syms[x], syms[m], syms[i]);
      ContainmentOrder(syms[m], syms[x], syms[m]);
    }
    forall x | x in lower ensures x in all && x != m {
      ContainmentOrder(syms[o], syms[m], syms[x]);
      ContainmentOrder(syms[m], syms[m], syms[m]);
    }
    assert upper !! lower && m !in upper + lower && m in all;
    assert upper + lower + {m} <= all;
    SubsetSize(upper + lower + {m}, all);
    assert |upper + lower| == |upper| + |lower|;
  }

  lemma {:induction false} SubsetSize<T>(a: set<T>, b: set<T>)
    requires a <= b
    ensures |a| <= |b|
  {
    assert |b| == |a| + |b - a| by { assert b == a + (b - a); }
  }

  lemma RangeSize(s: set<nat>, n: nat)
    requires forall x :: x in s ==> x < n
    ensures |s| <= n
    decreases n
  {
    if n > 0 {
      RangeSize(s - {n - 1}, n - 1);
    } else {
      assert s == {};
    }
  }

  // --------------------------------------------------- depth expansion

  /** `x` lies `d` covering steps below one of the matchers. */
  ghost predicate Below(syms: seq<CodeSymbol>, matched: seq<nat>, x: nat, d: nat) {
    exists m :: m in matched && Chain(syms, m, x, d)
  }

  /** Each symbol is reported with its least chain length up to `depth`. */
  ghost predicate LeastDepths(syms: seq<CodeSymbol>, matched: seq<nat>, lo: nat, depth: nat, out: map<nat, nat>) {
    && (forall x :: x in out ==> lo <= out[x] <= depth && Below(syms, matched, x, out[x]))
    && (forall x, d :: lo <= d <= depth && Below(syms, matched, x, d) ==> x in out && out[x] <= d)
  }

  /** Positions below `n` in a file, in table order. */
  function InFile(syms: seq<CodeSymbol>, n: nat, file: nat): (r: seq<nat>)
    requires n <= |syms|
    ensures forall i: nat :: i in r <==> i < n && syms[i].file == file
  {
    if n == 0 then []
    else InFile(syms, n - 1, file) + (if syms[n - 1].file == file then [n - 1] else [])
  }

  predicate Bucketed(syms: seq<CodeSymbol>, buckets: map<nat, seq<nat>>) {
    forall k :: 0 <= k < |syms| ==>
      syms[k].file in buckets && buckets[syms[k].file] == InFile(syms, |syms|, syms[k].file)
  }

  /** Depth 0 reports the matchers; a positive depth their first to `depth`-th
      layers of descendants. */
  method Expand(syms: seq<CodeSymbol>, buckets: map<nat, seq<nat>>, matched: seq<nat>, depth: nat)
    returns (out: map<nat, nat>)
    requires Bucketed(syms, buckets) && forall m :: m in matched ==> m < |syms|
    ensures LeastDepths(syms, matched, if depth == 0 then 0 else 1, depth, out)
  {
    out := map[];
    ghost var lo := if depth == 0 then 0 else 1;
    for k := 0 to |matched|
      invariant LeastDepths(syms, matched[..k], lo, depth, out)
    {
      assert matched[..k + 1] == matched[..k] + [matched[k]];
      assert matched[k] in matched;
      ghost var before := out;
      if depth == 0 {
        out := out[matched[k] := 0];
      } else {
        out := ExpandOne(syms, buckets, matched[k], depth, out);
      }
      JoinDepths(syms, matched[..k], matched[k], lo, depth, before, out);
    }
    assert matched[..|matched|] == matched;
  }

  /** `out` is `before` improved by the chains from `m` of length `lo..d`. */
  ghost predicate Improved(syms: seq<CodeSymbol>, m: nat, lo: nat, d: nat, before: map<nat, nat>, out: map<nat, nat>) {
    && (forall x :: x in before ==> x in out && out[x] <= before[x])
    && (forall x :: x in out ==>
          (x in before && out[x] == before[x]) || (lo <= out[x] <= d && Chain(syms, m, x, out[x])))
    && (forall x, e :: lo <= e <= d && Chain(syms, m, x, e) ==> x in out && out[x] <= e)
  }

  lemma JoinDepths(
    syms: seq<CodeSymbol>, earlier: seq<nat>, m: nat, lo: nat, depth: nat, before: map<nat, nat>, out: map<nat, nat>)
    requires LeastDepths(syms, earlier, lo, depth, before) && Improved(syms, m, lo, depth, before, out)
    ensures LeastDepths(syms, earlier + [m], lo, depth, out)
  {
    forall x | x in out ensures lo <= out[x] <= depth && Below(syms, earlier + [m], x, out[x]) {
      if x in before && out[x] == before[x] {
        var e :| e in earlier && Chain(syms, e, x, out[x]);
        assert e in earlier + [m];
      } else {
        assert m in earlier + [m];
      }
    }
    forall x, d | lo <= d <= depth && Below(syms, earlier + [m], x, d) ensures x in out && out[x] <= d {
      var e :| e in earlier + [m] && Chain(syms, e, x, d);
      if e in earlier { assert Below(syms, earlier, x, d); }
    }
  }

  /** One more layer: its symbols get depth `d` unless they have a smaller one. */
  method Deepen(
    syms: seq<CodeSymbol>, buckets: map<nat, seq<nat>>, ghost m: nat, d: nat, ghost before: map<nat, nat>,
    layer: seq<nat>, was: map<nat, nat>)
    returns (next: seq<nat>, out: map<nat, nat>)
    requires Bucketed(syms, buckets) && d >= 1
    requires IsLayer(syms, m, d - 1, layer) && Improved(syms, m, 1, d - 1, before, was)
    ensures IsLayer(syms, m, d, next) && Improved(syms, m, 1, d, before, out)
  {
    next := NextLayer(syms, buckets, layer);
    LayerChains(syms, m, d, layer, next);
    out := LowerDepths(was, next, d);
    ImproveLayer(syms, m, d, before, was, next, out);
  }

  method ExpandOne(syms: seq<CodeSymbol>, buckets: map<nat, seq<nat>>, m: nat, depth: nat, before: map<nat, nat>)
    returns (out: map<nat, nat>)
    requires Bucketed(syms, buckets) && m < |syms| && depth >= 1
    ensures Improved(syms, m, 1, depth, before, out)
  {
    out := before;
    var layer: seq<nat> := [m];
    var d: nat := 0;
    FirstLayer(syms, m, before);
    while d < depth
      invariant d <= depth
      invariant IsLayer(syms, m, d, layer) && Improved(syms, m, 1, d, before, out)
    {
      d := d + 1;
      layer, out := Deepen(syms, buckets, m, d, before, layer, out);
      if layer == [] {
        LastLayer(syms, m, d, depth, before, out);
        return;
      }
    }
  }

  lemma FirstLayer(syms: seq<CodeSymbol>, m: nat, before: map<nat, nat>)
    requires m < |syms|
    ensures IsLayer(syms, m, 0, [m]) && Improved(syms, m, 1, 0, before, before)
  {}

  lemma LastLayer(syms: seq<CodeSymbol>, m: nat, d: nat, depth: nat, before: map<nat, nat>, out: map<nat, nat>)
    requires d <= depth && IsLayer(syms, m, d, []) && Improved(syms, m, 1, d, before, out)
    ensures Improved(syms, m, 1, depth, before, out)
  {
    NoMoreLayers(syms, m, d, depth);
  }

  /** Every symbol of a layer gets its depth unless it has a smaller one. */
  method LowerDepths(was: map<nat, nat>, next: seq<nat>, d: nat) returns (out: map<nat, nat>)
    ensures forall x :: x in out <==> x in was || x in next
    ensures forall x :: x in out ==>
      out[x] == if x in next then (if x in was && was[x] <= d then was[x] else d) else was[x]
  {
    out := was;
    for k := 0 to |next|
      invariant forall x :: x in out <==> x in was || x in next[..k]
      invariant forall x :: x in out ==>
        out[x] == if x in next[..k] then (if x in was && was[x] <= d then was[x] else d) else was[x]
    {
      var child := next[k];
      assert next[..k + 1] == next[..k] + [child];
      if child !in out || d < out[child] { out := out[child := d]; }
    }
    assert next[..|next|] == next;
  }

  method NextLayer(syms: seq<CodeSymbol>, buckets: map<nat, seq<nat>>, layer: seq<nat>) returns (next: seq<nat>)
    requires Bucketed(syms, buckets) && forall x :: x in layer ==> x < |syms|
    ensures forall c :: c in next <==> exists y :: y in layer && Covers(syms, y, c)
  {
    next := [];
    for k := 0 to |layer|
      invariant forall c :: c in next <==> exists y :: y in layer[..k] && Covers(syms, y, c)
    {
      assert layer[..k + 1] == layer[..k] + [layer[k]];
      assert layer[k] in layer;
      var more := DirectChildren(syms, buckets[syms[layer[k]].file], layer[k]);
      ghost var was := next;
      next := next + more;
      forall c ensures c in next <==> exists y :: y in layer[..k + 1] && Covers(syms, y, c) {
        if c in more { assert layer[k] in layer[..k + 1] && Covers(syms, layer[k], c); }
        if c in was { var y :| y in layer[..k] && Covers(syms, y, c); assert y in layer[..k + 1]; }
        if y :| y in layer[..k + 1] && Covers(syms, y, c) { assert y in layer[..k] || y == layer[k]; }
      }
    }
    assert layer[..|layer|] == layer;
  }

  /** `layer` is what chains of length `d` from `m` reach. */
  ghost predicate IsLayer(syms: seq<CodeSymbol>, m: nat, d: nat, layer: seq<nat>) {
    (forall x :: x in layer <==> Chain(syms, m, x, d)) && forall x :: x in layer ==> x < |syms|
  }

  lemma LayerChains(syms: seq<CodeSymbol>, m: nat, d: nat, layer: seq<nat>, next: seq<nat>)
    requires d >= 1 && IsLayer(syms, m, d - 1, layer)
    requires forall c :: c in next <==> exists y :: y in layer && Covers(syms, y, c)
    ensures IsLayer(syms, m, d, next)
  {
    forall x ensures x in next <==> Chain(syms, m, x, d) {
      if x in next { var y :| y in layer && Covers(syms, y, x); assert 0 <= y < |syms| && Chain(syms, m, y, d - 1); }
      if Chain(syms, m, x, d) {
        var y :| 0 <= y < |syms| && Chain(syms, m, y, d - 1) && Covers(syms, y, x);
        assert y in layer;
      }
    }
  }

  lemma ImproveLayer(
    syms: seq<CodeSymbol>, m: nat, d: nat, before: map<nat, nat>, was: map<nat, nat>, next: seq<nat>,
    out: map<nat, nat>)
    requires d >= 1 && Improved(syms, m, 1, d - 1, before, was)
    requires forall x :: x in next <==> Chain(syms, m, x, d)
    requires forall x :: x in out <==> x in was || x in next
    requires forall x :: x in out ==>
      out[x] == if x in next then (if x in was && was[x] <= d then was[x] else d) else was[x]
    ensures Improved(syms, m, 1, d, before, out)
  {
    forall x, e | 1 <= e <= d && Chain(syms, m, x, e) ensures x in out && out[x] <= e {
      if e == d { assert x in next; } else { assert x in was && was[x] <= e; }
    }
  }

  lemma {:induction false} NoMoreLayers(syms: seq<CodeSymbol>, m: nat, d: nat, depth: nat)
    requires forall x :: !Chain(syms, m, x, d)
    ensures forall x, e :: d <= e <= depth ==> !Chain(syms, m, x, e)
    decreases depth
  {
    if depth > d {
      NoMoreLayers(syms, m, d, depth - 1);
      forall x ensures !Chain(syms, m, x, depth) {}
    }
  }

  /** With at least as much depth as there are symbols, everything strictly
      inside a matcher is reported, and nothing else. */
  lemma DeepEnough(syms: seq<CodeSymbol>, matched: seq<nat>, depth: nat, out: map<nat, nat>, x: nat)
    requires depth >= 1 && depth >= |syms| && LeastDepths(syms, matched, 1, depth, out)
    ensures x in out <==> exists m :: m in matched && Inside(syms, m, x)
  {
    if x in out {
      var m :| m in matched && Chain(syms, m, x, out[x]);
      ChainContains(syms, m, x, out[x]);
    }
    if m :| m in matched && Inside(syms, m, x) {
      var d := ContainedIsReached(syms, m, x);
      var b := Between(syms, m, x);
      assert m !in b by { ContainmentOrder(syms[m], syms[m], syms[m]); }
      RangeSize(b + {m}, |syms|);
      assert Below(syms, matched, x, d);
    }
  }
}
