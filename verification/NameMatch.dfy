/** Matching `outer/…/name` paths: the ancestor chain of a symbol and greedy
    matching of segments along it. */
module NameMatch {
  import opened Types
  import opened Sorting
  import opened NamePath

  /** Inner to outer: later start first, then shorter; on equal ranges the
      containers come last. */
  predicate AncestorLe(a: CodeSymbol, b: CodeSymbol) {
    if a.startLine != b.startLine then a.startLine > b.startLine
    else if a.endLine != b.endLine then a.endLine < b.endLine
    else !IsContainerKind(a.kind) || IsContainerKind(b.kind)
  }

  lemma AncestorOrder()
    ensures TotalPreorder(AncestorLe)
  {}

  ghost predicate IsAncestorChain(syms: seq<CodeSymbol>, target: CodeSymbol, chain: seq<CodeSymbol>) {
    && SortedBy(chain, AncestorLe)
    && (forall s :: s in chain <==> s in syms && StrictlyContains(s, target))
  }

  function Containers(syms: seq<CodeSymbol>, n: nat, target: CodeSymbol): seq<CodeSymbol>
    requires n <= |syms|
  {
    if n == 0 then [] else
    Containers(syms, n - 1, target) + (if StrictlyContains(syms[n - 1], target) then [syms[n - 1]] else [])
  }

  /** The containers of a symbol, inner to outer, ties in table order. */
  function AncestorChain(syms: seq<CodeSymbol>, target: CodeSymbol): seq<CodeSymbol> {
    Sort(Containers(syms, |syms|, target), AncestorLe)
  }

  lemma {:induction false} ContainersMembers(syms: seq<CodeSymbol>, n: nat, target: CodeSymbol)
    requires n <= |syms|
    ensures forall s :: s in Containers(syms, n, target) <==> s in syms[..n] && StrictlyContains(s, target)
  {
    if n > 0 {
      ContainersMembers(syms, n - 1, target);
      assert syms[..n] == syms[..n - 1] + [syms[n - 1]];
    }
  }

  lemma ChainIsAncestorChain(syms: seq<CodeSymbol>, target: CodeSymbol)
    ensures IsAncestorChain(syms, target, AncestorChain(syms, target))
  {
    var found := Containers(syms, |syms|, target);
    AncestorOrder();
    ContainersMembers(syms, |syms|, target);
    assert syms[..|syms|] == syms;
    SortCorrect(found, AncestorLe);
    SortMembers(found, AncestorLe);
  }

  method AncestorsWithinFile(syms: seq<CodeSymbol>, target: CodeSymbol) returns (chain: seq<CodeSymbol>)
    ensures chain == AncestorChain(syms, target) && IsAncestorChain(syms, target, chain)
  {
    var found := [];
    for i := 0 to |syms|
      invariant found == Containers(syms, i, target)
    {
      if StrictlyContains(syms[i], target) { found := found + [syms[i]]; }
    }
    ChainIsAncestorChain(syms, target);
    chain := Sort(found, AncestorLe);
  }

  /** The last ancestor is at file level: no symbol contains it. */
  lemma LastIsTopLevel(syms: seq<CodeSymbol>, target: CodeSymbol, chain: seq<CodeSymbol>, s: CodeSymbol)
    requires IsAncestorChain(syms, target, chain) && chain != [] && s in syms
    ensures !StrictlyContains(s, chain[|chain| - 1])
  {
    var last := chain[|chain| - 1];
    assert last in chain;
    if StrictlyContains(s, last) {
      ContainmentOrder(s, last, target);
      var k :| 0 <= k < |chain| && chain[k] == s;
    }
  }

  // ------------------------------------------------------ greedy matching

  function NamesOf(chain: seq<CodeSymbol>, lower: Text -> Text): (r: seq<Text>)
    ensures |r| == |chain|
  { seq(|chain|, i requires 0 <= i < |chain| => lower(chain[i].name)) }

  function Reversed(segs: seq<Text>): (r: seq<Text>)
    ensures |r| == |segs| && forall i :: 0 <= i < |segs| ==> r[i] == segs[|segs| - 1 - i]
  { seq(|segs|, i requires 0 <= i < |segs| => segs[|segs| - 1 - i]) }

  /** Increasing positions at which the names read as the segments. */
  ghost predicate Embeds(names: seq<Text>, segs: seq<Text>, pos: seq<nat>) {
    && |pos| == |segs|
    && (forall j :: 0 <= j < |pos| ==> pos[j] < |names| && names[pos[j]] == segs[j])
    && (forall i, j :: 0 <= i < j < |pos| ==> pos[i] < pos[j])
  }

  /** What a path asks of an ancestor chain (both inner to outer): the segments
      embed in order, skipping levels freely; an absolute path must also end on
      the outermost ancestor. */
  ghost predicate Accepts(names: seq<Text>, segs: seq<Text>, absolute: bool) {
    segs != [] && exists pos :: Embeds(names, segs, pos) && (absolute ==> pos[|pos| - 1] == |names| - 1)
  }

  /** The nearest usable match from `from` on. */
  method NextMatch(names: seq<Text>, from: nat, seg: Text, onlyLast: bool) returns (r: Option<nat>)
    requires from <= |names|
    ensures r.Some? ==> from <= r.value < |names| && names[r.value] == seg && (onlyLast ==> r.value == |names| - 1)
    ensures forall i :: from <= i < (if r.Some? then r.value else |names|) ==>
      names[i] != seg || (onlyLast && i != |names| - 1)
  {
    var idx := from;
    while idx < |names|
      invariant from <= idx <= |names|
      invariant forall i :: from <= i < idx ==> names[i] != seg || (onlyLast && i != |names| - 1)
    {
      idx := idx + 1;
      if names[idx - 1] == seg && !(onlyLast && idx != |names|) { return Some(idx - 1); }
    }
    return None;
  }

  /** Greedy matching from the inside out accepts whenever any embedding does. */
  method ChainMatches(
    chain: seq<CodeSymbol>, lower: Text -> Text, ancestorSegs: seq<Text>, absolute: bool) returns (r: bool)
    ensures r <==> Accepts(NamesOf(chain, lower), Reversed(ancestorSegs), absolute)
  {
    var names, segs := NamesOf(chain, lower), Reversed(ancestorSegs);
    var idx: nat, outermost: Option<nat> := 0, None;
    ghost var greedy: seq<nat> := [];
    for k := 0 to |segs|
      invariant idx <= |names| && Embeds(names, segs[..k], greedy)
      invariant if k == 0 then idx == 0 && outermost == None
                else idx == greedy[k - 1] + 1 && outermost == Some(greedy[k - 1])
      invariant k < |segs| || !absolute ==> NoEarlier(names, segs[..k], greedy)
      invariant absolute && k == |segs| > 0 ==> greedy[k - 1] == |names| - 1
    {
      var m := NextMatch(names, idx, segs[k], absolute && k == |segs| - 1);
      GreedyStep(names, segs, k, greedy, idx, m, absolute);
      if m == None { return false; }
      outermost := m;
      idx := m.value + 1;
      greedy := greedy + [m.value];
    }
    assert segs[..|segs|] == segs;
    match outermost
    case Some(i) => return !absolute || i + 1 == |chain|;
    case None => return false;
  }

  /** No embedding of the same segments ends earlier. */
  ghost predicate NoEarlier(names: seq<Text>, segs: seq<Text>, greedy: seq<nat>)
    requires |greedy| == |segs|
  {
    segs != [] ==> forall pos :: Embeds(names, segs, pos) ==> greedy[|segs| - 1] <= pos[|segs| - 1]
  }

  lemma PrefixEmbeds(names: seq<Text>, segs: seq<Text>, pos: seq<nat>, k: nat)
    requires Embeds(names, segs, pos) && k <= |segs|
    ensures Embeds(names, segs[..k], pos[..k])
  {}

  lemma GreedyStep(
    names: seq<Text>, segs: seq<Text>, k: nat, greedy: seq<nat>, idx: nat, m: Option<nat>, absolute: bool)
    requires k < |segs| && Embeds(names, segs[..k], greedy) && NoEarlier(names, segs[..k], greedy)
    requires idx == if k == 0 then 0 else greedy[k - 1] + 1
    requires m.Some? ==> idx <= m.value < |names| && names[m.value] == segs[k]
    requires forall i :: idx <= i < (if m.Some? then m.value else |names|) ==>
      names[i] != segs[k] || (absolute && k == |segs| - 1 && i != |names| - 1)
    ensures m == None ==> !Accepts(names, segs, absolute)
    ensures m.Some? ==> Embeds(names, segs[..k + 1], greedy + [m.value])
    ensures m.Some? && (k + 1 < |segs| || !absolute) ==> NoEarlier(names, segs[..k + 1], greedy + [m.value])
  {
    assert segs[..k + 1][..k] == segs[..k];
    forall pos | Embeds(names, segs[..k + 1], pos) ensures idx <= pos[k] {
      PrefixEmbeds(names, segs[..k + 1], pos, k);
      if k > 0 { assert greedy[k - 1] <= pos[..k][k - 1] < pos[k]; }
    }
    if m == None {
      forall pos | Embeds(names, segs, pos) ensures absolute && pos[|pos| - 1] != |names| - 1 {
        PrefixEmbeds(names, segs, pos, k + 1);
        assert idx <= pos[..k + 1][k];
      }
    }
  }

  // ------------------------------------------------------- the matcher

  /** A parsed path: outer segments, last segment, and its flags. */
  datatype Query = Query(ancestors: seq<Text>, last: Text, absolute: bool, trailingSlash: bool, substring: bool)

  predicate OccursAt(name: Text, seg: Text, i: nat) { i + |seg| <= |name| && name[i..i + |seg|] == seg }

  predicate ContainsText(name: Text, seg: Text) { exists i :: 0 <= i <= |name| && OccursAt(name, seg, i) }

  predicate NameMatches(name: Text, seg: Text, substring: bool) {
    if substring then ContainsText(name, seg) else name == seg
  }

  /** With substrings allowed, a name matches if it holds the segment. */
  lemma NameMatchesIff(name: Text, seg: Text, substring: bool)
    ensures NameMatches(name, seg, substring) <==>
      if substring then exists before, after :: name == before + seg + after else name == seg
  {
    if substring {
      if ContainsText(name, seg) {
        var i :| 0 <= i <= |name| && OccursAt(name, seg, i);
        assert name == name[..i] + seg + name[i + |seg|..];
      }
      if before, after :| name == before + seg + after { assert OccursAt(name, seg, |before|); }
    }
  }

  /** What a path asks of a symbol besides its name. */
  ghost predicate Placed(syms: seq<CodeSymbol>, lower: Text -> Text, q: Query, x: nat) {
    && x < |syms|
    && (if q.ancestors == [] then q.absolute ==> IsTop(syms, syms[x])
        else Accepts(NamesOf(AncestorChain(syms, syms[x]), lower), Reversed(q.ancestors), q.absolute))
    && (q.trailingSlash ==> exists i :: 0 <= i < |syms| && Inside(syms, x, i))
  }

  /** What makes a symbol a match of the path itself. */
  ghost predicate Matches(syms: seq<CodeSymbol>, lower: Text -> Text, q: Query, x: nat) {
    Placed(syms, lower, q, x) && NameMatches(lower(syms[x].name), q.last, q.substring)
  }

  method MatchOne(syms: seq<CodeSymbol>, lower: Text -> Text, q: Query, x: nat) returns (r: bool)
    requires x < |syms|
    ensures r <==> Placed(syms, lower, q, x)
  {
    var chain := AncestorsWithinFile(syms, syms[x]);
    if q.ancestors == [] {
      assert chain == [] <==> IsTop(syms, syms[x]) by {
        if chain != [] { assert chain[0] in chain; }
      }
      if q.absolute && chain != [] { return false; }
    } else {
      var ok := ChainMatches(chain, lower, q.ancestors, q.absolute);
      if !ok { return false; }
    }
    if q.trailingSlash && !(exists i :: 0 <= i < |syms| && StrictlyContains(syms[x], syms[i])) {
      assert forall i :: 0 <= i < |syms| ==> !Inside(syms, x, i);
      return false;
    }
    if q.trailingSlash {
      var i :| 0 <= i < |syms| && StrictlyContains(syms[x], syms[i]);
      assert Inside(syms, x, i);
    }
    return true;
  }

  /** Filters the candidates, which are the symbols the last segment names. */
  method MatchAll(syms: seq<CodeSymbol>, lower: Text -> Text, q: Query, cands: seq<nat>) returns (matched: seq<nat>)
    requires forall x: nat :: x in cands <==> x < |syms| && NameMatches(lower(syms[x].name), q.last, q.substring)
    ensures forall x: nat :: x in matched <==> Matches(syms, lower, q, x)
  {
    matched := [];
    for i := 0 to |cands|
      invariant forall x: nat :: x in matched <==> x in cands[..i] && Placed(syms, lower, q, x)
    {
      assert cands[i] in cands && cands[..i + 1] == cands[..i] + [cands[i]];
      var ok := MatchOne(syms, lower, q, cands[i]);
      if ok { matched := matched + [cands[i]]; }
    }
    assert cands[..|cands|] == cands;
  }

  ghost predicate BucketMap(syms: seq<CodeSymbol>, n: nat, buckets: map<nat, seq<nat>>)
    requires n <= |syms|
  {
    forall f :: (f in buckets <==> InFile(syms, n, f) != []) && (f in buckets ==> buckets[f] == InFile(syms, n, f))
  }

  function AddToBucket(buckets: map<nat, seq<nat>>, file: nat, i: nat): map<nat, seq<nat>> {
    buckets[file := (if file in buckets then buckets[file] else []) + [i]]
  }

  lemma BucketStep(syms: seq<CodeSymbol>, n: nat, buckets: map<nat, seq<nat>>)
    requires n < |syms| && BucketMap(syms, n, buckets)
    ensures BucketMap(syms, n + 1, AddToBucket(buckets, syms[n].file, n))
  {}

  lemma BucketsDone(syms: seq<CodeSymbol>, buckets: map<nat, seq<nat>>)
    requires BucketMap(syms, |syms|, buckets)
    ensures Bucketed(syms, buckets)
  {
    forall k: nat | k < |syms| ensures InFile(syms, |syms|, syms[k].file) != [] {
      assert k in InFile(syms, |syms|, syms[k].file);
    }
  }

  method BucketByFile(syms: seq<CodeSymbol>) returns (buckets: map<nat, seq<nat>>)
    ensures Bucketed(syms, buckets)
  {
    buckets := map[];
    for i := 0 to |syms|
      invariant BucketMap(syms, i, buckets)
    {
      BucketStep(syms, i, buckets);
      buckets := AddToBucket(buckets, syms[i].file, i);
    }
    BucketsDone(syms, buckets);
  }

  // --------------------------------- absolute paths and crossing ranges

  /** The documented reading of an absolute path: some embedding ends on an
      ancestor that nothing contains. */
  ghost predicate AcceptsTopLevel(syms: seq<CodeSymbol>, chain: seq<CodeSymbol>, lower: Text -> Text, segs: seq<Text>) {
    segs != [] && exists pos :: Embeds(NamesOf(chain, lower), segs, pos) && IsTop(syms, chain[pos[|pos| - 1]])
  }

  ghost predicate IsTop(syms: seq<CodeSymbol>, s: CodeSymbol) { forall o :: o in syms ==> !StrictlyContains(o, s) }

  /** The two readings agree on every path exactly if all top-level ancestors
      carry the name of the last one; ranges that cross can break this. */
  lemma AbsoluteMeansTopLevel(syms: seq<CodeSymbol>, target: CodeSymbol, chain: seq<CodeSymbol>, lower: Text -> Text)
    requires IsAncestorChain(syms, target, chain) && chain != []
    ensures (forall segs :: AcceptsTopLevel(syms, chain, lower, segs) <==> Accepts(NamesOf(chain, lower), segs, true))
      <==> (forall s :: s in chain && IsTop(syms, s) ==> lower(s.name) == lower(chain[|chain| - 1].name))
  {
    var last := chain[|chain| - 1];
    forall o | o in syms ensures !StrictlyContains(o, last) { LastIsTopLevel(syms, target, chain, o); }
    if forall s :: s in chain && IsTop(syms, s) ==> lower(s.name) == lower(last.name) {
      forall segs ensures AcceptsTopLevel(syms, chain, lower, segs) <==> Accepts(NamesOf(chain, lower), segs, true) {
        LastMeansTop(syms, chain, lower, segs);
        if AcceptsTopLevel(syms, chain, lower, segs) { TopMeansLast(syms, chain, lower, segs); }
      }
    } else {
      var s :| s in chain && IsTop(syms, s) && lower(s.name) != lower(last.name);
      OtherTop(syms, chain, lower, s);
    }
  }

  lemma LastMeansTop(syms: seq<CodeSymbol>, chain: seq<CodeSymbol>, lower: Text -> Text, segs: seq<Text>)
    requires chain != [] && IsTop(syms, chain[|chain| - 1])
    ensures Accepts(NamesOf(chain, lower), segs, true) ==> AcceptsTopLevel(syms, chain, lower, segs)
  {}

  lemma TopMeansLast(syms: seq<CodeSymbol>, chain: seq<CodeSymbol>, lower: Text -> Text, segs: seq<Text>)
    requires chain != [] && AcceptsTopLevel(syms, chain, lower, segs)
    requires forall s :: s in chain && IsTop(syms, s) ==> lower(s.name) == lower(chain[|chain| - 1].name)
    ensures Accepts(NamesOf(chain, lower), segs, true)
  {
    var names, last := NamesOf(chain, lower), |chain| - 1;
    var pos :| Embeds(names, segs, pos) && IsTop(syms, chain[pos[|pos| - 1]]);
    var n := |pos| - 1;
    assert chain[pos[n]] in chain;
    MoveLast(names, segs, pos, last);
  }

  lemma MoveLast(names: seq<Text>, segs: seq<Text>, pos: seq<nat>, last: nat)
    requires segs != [] && Embeds(names, segs, pos)
    requires pos[|pos| - 1] <= last < |names| && names[last] == segs[|segs| - 1]
    requires last == |names| - 1
    ensures Accepts(names, segs, true)
  {
    var moved := pos[|pos| - 1 := last];
    assert Embeds(names, segs, moved) && moved[|moved| - 1] == |names| - 1;
  }

  lemma OtherTop(syms: seq<CodeSymbol>, chain: seq<CodeSymbol>, lower: Text -> Text, s: CodeSymbol)
    requires chain != [] && s in chain && IsTop(syms, s) && lower(s.name) != lower(chain[|chain| - 1].name)
    ensures AcceptsTopLevel(syms, chain, lower, [lower(s.name)])
    ensures !Accepts(NamesOf(chain, lower), [lower(s.name)], true)
  {
    var j :| 0 <= j < |chain| && chain[j] == s;
    var names, segs := NamesOf(chain, lower), [lower(s.name)];
    assert Embeds(names, segs, [j]);
    forall pos | Embeds(names, segs, pos) ensures pos[|pos| - 1] != |chain| - 1 {}
  }

  function Line(name: byte, start: u32, end: u32): CodeSymbol {
    CodeSymbol(0, 0, [name], Class, [], start, end, true)
  }

  /** Lines 1-10 and 5-20 cross; both contain line 7 and nothing contains them.
      `/b/t` is refused although `b` is at file level. */
  lemma CrossingRefused()
    ensures var a, b, t := Line(97, 1, 10), Line(98, 5, 20), Line(116, 7, 7);
      && IsAncestorChain([a, b, t], t, [b, a]) && IsTop([a, b, t], b)
      && AcceptsTopLevel([a, b, t], [b, a], x => x, [[98]])
      && !Accepts(NamesOf([b, a], x => x), [[98]], true)
  {
    var a, b, t := Line(97, 1, 10), Line(98, 5, 20), Line(116, 7, 7);
    var syms, chain, lower := [a, b, t], [b, a], (x: Text) => x;
    forall s ensures s in chain <==> s in syms && StrictlyContains(s, t) {}
    assert Embeds(NamesOf(chain, lower), [[98]], [0]);
    forall pos | Embeds(NamesOf(chain, lower), [[98]], pos) ensures pos[|pos| - 1] != 1 {}
  }
}
