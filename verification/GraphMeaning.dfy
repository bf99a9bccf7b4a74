/** What the edges of a graph say: each weight counted from the rows, the
    resolutions and the calls, with no edge list in sight. */
module GraphMeaning {
  import opened Types
  import opened Sorting
  import opened Sums
  import opened Edges
  import opened CallEdges
  import opened Enclosing
  import opened Assembly

  // -------------------------------------------------------------- meaning

  /** Files an import stands for. */
  function ImportTargets(r: ImportResolution): seq<Text> {
    match r case ToFile(p) => [p] case ToFiles(ps) => ps case _ => []
  }

  /** Files that declare an imported namespace. */
  function NamespaceTargets(r: ImportResolution): seq<Text> {
    match r case ToNamespace(_, ps) => ps case _ => []
  }

  /** The language whose resolver answers for one of its dialects. */
  function AnswersFor(l: Language): Language {
    if l in [Tsx, JavaScript, Vue] then TypeScript else if l == ObjCpp then ObjC else l
  }

  /** What an import of a row resolves to now, asked in the language of its path
      or else of its content. */
  function ResolvesTo(env: Foreign, row: ParsedRow, spec: Text, index: set<Text>, metas: Metas): ImportResolution {
    var lang := match env.langOfPath(row.path) case Some(l) => l case None => row.language;
    var owner := AnswersFor(lang);
    if owner in metas then env.resolve(owner, row.path, spec, index, metas[owner]) else Unresolved
  }

  function ImportHits(env: Foreign, row: ParsedRow, to: Text, index: set<Text>, metas: Metas): Text -> nat {
    (spec: Text) => multiset(ImportTargets(ResolvesTo(env, row, spec, index, metas)))[to]
  }

  function NamespaceHits(env: Foreign, row: ParsedRow, to: Text, index: set<Text>, metas: Metas): Text -> nat {
    (spec: Text) => multiset(NamespaceTargets(ResolvesTo(env, row, spec, index, metas)))[to]
  }

  /** Project references a language's configuration declares between two files. */
  function RefHits(metas: Metas, from: Text, to: Text): Language -> nat {
    (l: Language) => if l in metas then multiset(metas[l].projectRefs)[(from, to)] else 0
  }

  /** The symbol is the narrowest of its file around the line, the earliest one
      on ties. */
  predicate Encloses(symbols: seq<CodeSymbol>, a: nat, line: u32) {
    && a < |symbols| && Holds(symbols[a], line)
    && forall b :: 0 <= b < |symbols| && symbols[b].file == symbols[a].file && Holds(symbols[b], line) ==>
         Narrower(symbols[a], a, symbols[b], b)
  }

  predicate Holds(s: CodeSymbol, line: u32) { s.startLine <= line <= s.endLine }

  predicate Narrower(s: CodeSymbol, a: nat, t: CodeSymbol, b: nat) {
    var v, w := s.endLine - s.startLine, t.endLine - t.startLine;
    v < w || (v == w && a <= b)
  }

  function Namesakes(symbols: seq<CodeSymbol>, name: Text): set<nat> {
    set b: nat | b < |symbols| && symbols[b].name == name
  }

  /** Is this a call from symbol `a` to symbol `b`, as far as names tell? */
  function CallHits(symbols: seq<CodeSymbol>, a: nat, b: nat): ((Text, u32)) -> nat {
    (call: (Text, u32)) =>
      if Encloses(symbols, a, call.1) && b in Namesakes(symbols, ShortName(call.0))
         && |Namesakes(symbols, ShortName(call.0))| <= 50
      then 1 else 0
  }

  /** The edges between two different files of a kind, of imports or of pairs. */
  function FileWeight(
    env: Foreign, rows: seq<ParsedRow>, index: set<Text>, metas: Metas, kind: EdgeKind, f: nat, t: nat): nat {
    if kind.Pair? then multiset(env.pairs(FilesOf(rows)))[(f, t)]
    else if f >= |rows| || t >= |rows| || f == t then 0
    else match kind
      case Import =>
        Sum(rows[f].parsed.imports, ImportHits(env, rows[f], rows[t].path, index, metas))
        + Sum(env.languages, RefHits(metas, rows[f].path, rows[t].path))
      case Namespace => Sum(rows[f].parsed.imports, NamespaceHits(env, rows[f], rows[t].path, index, metas))
      case _ => 0
  }

  function CallWeight(rows: seq<ParsedRow>, a: nat, b: nat): nat {
    var symbols := SymbolsOf(rows);
    if a >= |symbols| || a == b || symbols[a].file >= |rows| then 0
    else Sum(rows[symbols[a].file].parsed.calls, CallHits(symbols, a, b))
  }

  /** How often something joins `from` to `to`.  `fileLevel` is what interface
      satisfaction was computed from. */
  function Weighs(
    env: Foreign, rows: seq<ParsedRow>, index: set<Text>, metas: Metas, callEdges: bool, fileLevel: seq<CodeEdge>,
    kind: EdgeKind, from: nat, to: nat): nat
  {
    match kind
    case Call => if callEdges then CallWeight(rows, from, to) else 0
    case Inherit =>
      if callEdges then multiset(env.implements(FilesOf(rows), SymbolsOf(rows), fileLevel))[(from, to)] else 0
    case _ => FileWeight(env, rows, index, metas, kind, from, to)
  }

  // ------------------------------------------------------- import edges

  lemma SumLast<T>(s: seq<T>, n: nat, f: T -> nat)
    requires 0 < n <= |s|
    ensures Sum(s[..n], f) == Sum(s[..n - 1], f) + f(s[n - 1])
  {
    assert s[..n] == s[..n - 1] + [s[n - 1]];
    SumConcat(s[..n - 1], [s[n - 1]], f);
    assert [s[n - 1]][1..] == [];
  }

  /** The id table is the inverse of the list of rows. */
  ghost predicate IdsOf(rows: seq<ParsedRow>, ids: map<Text, nat>) {
    && (forall i :: 0 <= i < |rows| ==> rows[i].path in ids && ids[rows[i].path] == i)
    && (forall x :: x in ids ==> ids[x] < |rows| && rows[ids[x]].path == x)
  }

  lemma {:induction false} IndexUpToIds(rows: seq<ParsedRow>, n: nat)
    requires DistinctPaths(rows) && n <= |rows|
    ensures forall i :: 0 <= i < n ==> rows[i].path in IndexUpTo(rows, n) && IndexUpTo(rows, n)[rows[i].path] == i
    ensures forall x :: x in IndexUpTo(rows, n) ==> IndexUpTo(rows, n)[x] < n && rows[IndexUpTo(rows, n)[x]].path == x
  {
    if n > 0 { IndexUpToIds(rows, n - 1); }
  }

  lemma IndexIds(rows: seq<ParsedRow>)
    requires DistinctPaths(rows)
    ensures IdsOf(rows, IndexOf(rows))
  {
    IndexUpToIds(rows, |rows|);
  }

  lemma {:induction false} TargetWeight(
    rows: seq<ParsedRow>, ids: map<Text, nat>, from: nat, targets: seq<Text>, kind: EdgeKind, k: Key)
    requires IdsOf(rows, ids)
    ensures Weight(TargetEdges(from, targets, kind, ids), k) ==
      if k.0 == from && k.1 < |rows| && k.1 != from && k.2 == KindTag(kind) then multiset(targets)[rows[k.1].path]
      else 0
  {
    if targets != [] {
      var x, rest := targets[0], targets[1..];
      TargetWeight(rows, ids, from, rest, kind, k);
      assert targets == [x] + rest;
      var head := if x in ids && ids[x] != from then [Link(from, ids[x], kind)] else [];
      WeightConcat(head, TargetEdges(from, rest, kind, ids), k);
      if head != [] { WeightOne(head[0], k); }
    }
  }

  function TargetsFor(tag: nat, r: ImportResolution): seq<Text> {
    if tag == KindTag(Import) then ImportTargets(r) else if tag == KindTag(Namespace) then NamespaceTargets(r) else []
  }

  lemma ResolutionWeight(rows: seq<ParsedRow>, ids: map<Text, nat>, from: nat, r: ImportResolution, k: Key)
    requires IdsOf(rows, ids)
    ensures Weight(ResolutionEdges(from, r, ids), k) ==
      if k.0 == from && k.1 < |rows| && k.1 != from then multiset(TargetsFor(k.2, r))[rows[k.1].path] else 0
  {
    TargetWeight(rows, ids, from, ImportTargets(r), Import, k);
    TargetWeight(rows, ids, from, NamespaceTargets(r), Namespace, k);
    ByTargets(from, r, ids);
    WeightConcat(TargetEdges(from, ImportTargets(r), Import, ids),
      TargetEdges(from, NamespaceTargets(r), Namespace, ids), k);
  }

  lemma ByTargets(from: nat, r: ImportResolution, ids: map<Text, nat>)
    ensures ResolutionEdges(from, r, ids) ==
      TargetEdges(from, ImportTargets(r), Import, ids) + TargetEdges(from, NamespaceTargets(r), Namespace, ids)
  {}

  function HitsFor(env: Foreign, row: ParsedRow, to: Text, index: set<Text>, metas: Metas, tag: nat): Text -> nat {
    (spec: Text) => multiset(TargetsFor(tag, ResolvesTo(env, row, spec, index, metas)))[to]
  }

  lemma {:induction false} SumPointwise<T, U>(a: seq<T>, f: T -> nat, b: seq<U>, g: U -> nat)
    requires |a| == |b| && forall i :: 0 <= i < |a| ==> f(a[i]) == g(b[i])
    ensures Sum(a, f) == Sum(b, g)
  {
    if a != [] {
      forall i | 0 <= i < |a[1..]| ensures f(a[1..][i]) == g(b[1..][i]) {
        assert f(a[i + 1]) == g(b[i + 1]);
      }
      SumPointwise(a[1..], f, b[1..], g);
    }
  }

  /** Edges of items add up, whatever an item is worth. */
  lemma {:induction false} ItemsAdd(
    from: nat, items: seq<(Text, ImportResolution)>, n: nat, ids: map<Text, nat>, k: Key,
    worth: ((Text, ImportResolution)) -> nat)
    requires n <= |items|
    requires forall i :: 0 <= i < n ==> Weight(ResolutionEdges(from, items[i].1, ids), k) == worth(items[i])
    ensures Weight(ItemEdges(from, items, n, ids), k) == Sum(items[..n], worth)
    decreases n
  {
    if n > 0 {
      ItemsAdd(from, items, n - 1, ids, k, worth);
      WeightConcat(ItemEdges(from, items, n - 1, ids), ResolutionEdges(from, items[n - 1].1, ids), k);
      SumLast(items, n, worth);
    }
  }

  /** What one item of a file is worth to a key. */
  function Worth(rows: seq<ParsedRow>, f: nat, k: Key): ((Text, ImportResolution)) -> nat {
    (item: (Text, ImportResolution)) =>
      if k.0 == f && k.1 < |rows| && k.1 != f then multiset(TargetsFor(k.2, item.1))[rows[k.1].path] else 0
  }

  lemma ItemWeight(
    env: Foreign, rows: seq<ParsedRow>, ids: map<Text, nat>, f: nat, index: set<Text>, metas: Metas, k: Key)
    requires IdsOf(rows, ids) && f < |rows|
    ensures var items := Resolutions(env, rows[f], index, metas).items;
      Weight(ItemEdges(f, items, |items|, ids), k) == Sum(items, Worth(rows, f, k))
  {
    var items := Resolutions(env, rows[f], index, metas).items;
    forall i | 0 <= i < |items|
      ensures Weight(ResolutionEdges(f, items[i].1, ids), k) == Worth(rows, f, k)(items[i])
    {
      ResolutionWeight(rows, ids, f, items[i].1, k);
    }
    ItemsAdd(f, items, |items|, ids, k, Worth(rows, f, k));
    assert items[..|items|] == items;
  }

  lemma WorthIsHits(env: Foreign, rows: seq<ParsedRow>, f: nat, index: set<Text>, metas: Metas, k: Key)
    requires f < |rows|
    ensures Sum(Resolutions(env, rows[f], index, metas).items, Worth(rows, f, k)) ==
      if k.0 == f && k.1 < |rows| && k.1 != f
      then Sum(rows[f].parsed.imports, HitsFor(env, rows[f], rows[k.1].path, index, metas, k.2)) else 0
  {
    var items := Resolutions(env, rows[f], index, metas).items;
    if k.0 == f && k.1 < |rows| && k.1 != f {
      SumPointwise(items, Worth(rows, f, k),
        rows[f].parsed.imports, HitsFor(env, rows[f], rows[k.1].path, index, metas, k.2));
    } else {
      SumZero(items, Worth(rows, f, k));
    }
  }

  /** Edges from a file come from its own row. */
  lemma {:induction false} RowsAdd(
    env: Foreign, rows: seq<ParsedRow>, n: nat, index: set<Text>, metas: Metas, k: Key, worth: nat)
    requires DistinctPaths(rows) && n <= |rows|
    requires forall i: nat :: i < n ==> Weight(RowEdges(env, rows, i, index, metas), k) == if i == k.0 then worth else 0
    ensures Weight(ImportEdges(env, rows, n, index, metas), k) == if k.0 < n then worth else 0
    decreases n
  {
    if n > 0 {
      RowsAdd(env, rows, n - 1, index, metas, k, worth);
      WeightConcat(ImportEdges(env, rows, n - 1, index, metas), RowEdges(env, rows, n - 1, index, metas), k);
    }
  }

  lemma ImportEdgesWeight(env: Foreign, rows: seq<ParsedRow>, index: set<Text>, metas: Metas, k: Key)
    requires DistinctPaths(rows)
    ensures Weight(ImportEdges(env, rows, |rows|, index, metas), k) ==
      if k.0 < |rows| && k.1 < |rows| && k.1 != k.0
      then Sum(rows[k.0].parsed.imports, HitsFor(env, rows[k.0], rows[k.1].path, index, metas, k.2)) else 0
  {
    var worth := if k.0 < |rows| && k.1 < |rows| && k.1 != k.0
      then Sum(rows[k.0].parsed.imports, HitsFor(env, rows[k.0], rows[k.1].path, index, metas, k.2)) else 0;
    IndexIds(rows);
    forall i: nat | i < |rows|
      ensures Weight(RowEdges(env, rows, i, index, metas), k) == if i == k.0 then worth else 0
    {
      assert rows[i].path in IndexOf(rows) && IndexOf(rows)[rows[i].path] == i;
      ItemWeight(env, rows, IndexOf(rows), i, index, metas, k);
      WorthIsHits(env, rows, i, index, metas, k);
    }
    RowsAdd(env, rows, |rows|, index, metas, k, worth);
  }

  // -------------------------------------------- project references, pairs

  lemma {:induction false} RefWeight(rows: seq<ParsedRow>, ids: map<Text, nat>, refs: seq<(Text, Text)>, k: Key)
    requires IdsOf(rows, ids)
    ensures Weight(RefEdges(refs, ids), k) ==
      if k.0 < |rows| && k.1 < |rows| && k.0 != k.1 && k.2 == KindTag(Import)
      then multiset(refs)[(rows[k.0].path, rows[k.1].path)] else 0
  {
    if refs != [] {
      var x, rest := refs[0], refs[1..];
      RefWeight(rows, ids, rest, k);
      assert refs == [x] + rest && x == (x.0, x.1);
      var head := if x.0 in ids && x.1 in ids && ids[x.0] != ids[x.1] then [Link(ids[x.0], ids[x.1], Import)] else [];
      WeightConcat(head, RefEdges(rest, ids), k);
      if head != [] { WeightOne(head[0], k); }
    }
  }

  lemma {:induction false} AllRefWeight(
    rows: seq<ParsedRow>, ids: map<Text, nat>, langs: seq<Language>, metas: Metas, k: Key)
    requires IdsOf(rows, ids)
    ensures Weight(AllRefEdges(langs, metas, ids), k) ==
      if k.0 < |rows| && k.1 < |rows| && k.0 != k.1 && k.2 == KindTag(Import)
      then Sum(langs, RefHits(metas, rows[k.0].path, rows[k.1].path)) else 0
  {
    if langs != [] {
      AllRefWeight(rows, ids, langs[1..], metas, k);
      var head := if langs[0] in metas then RefEdges(metas[langs[0]].projectRefs, ids) else [];
      WeightConcat(head, AllRefEdges(langs[1..], metas, ids), k);
      if langs[0] in metas { RefWeight(rows, ids, metas[langs[0]].projectRefs, k); }
    }
  }

  lemma {:induction false} LinkWeight(ps: seq<(nat, nat)>, kind: EdgeKind, k: Key)
    ensures Weight(LinkAll(ps, kind), k) == if k.2 == KindTag(kind) then multiset(ps)[(k.0, k.1)] else 0
  {
    if ps != [] {
      var x, rest := ps[0], ps[1..];
      LinkWeight(rest, kind, k);
      assert ps == [x] + rest && x == (x.0, x.1);
      assert LinkAll(ps, kind) == [Link(x.0, x.1, kind)] + LinkAll(rest, kind);
      WeightConcat([Link(x.0, x.1, kind)], LinkAll(rest, kind), k);
      WeightOne(Link(x.0, x.1, kind), k);
    }
  }

  function KeyFor(kind: EdgeKind, from: nat, to: nat): Key { (from, to, KindTag(kind)) }

  lemma FileLevelParts(env: Foreign, rows: seq<ParsedRow>, index: set<Text>, metas: Metas, k: Key)
    ensures Weight(FileLevelEdges(env, rows, index, metas), k) ==
      Weight(ImportEdges(env, rows, |rows|, index, metas), k)
      + Weight(AllRefEdges(env.languages, metas, IndexOf(rows)), k) + Weight(LinkAll(env.pairs(FilesOf(rows)), Pair), k)
  {
    var a, b, c := ImportEdges(env, rows, |rows|, index, metas), AllRefEdges(env.languages, metas, IndexOf(rows)),
      LinkAll(env.pairs(FilesOf(rows)), Pair);
    WeightConcat(a + b, c, k);
    WeightConcat(a, b, k);
  }

  lemma {:induction false} FileLevelWeight(
    env: Foreign, rows: seq<ParsedRow>, index: set<Text>, metas: Metas, kind: EdgeKind, f: nat, t: nat)
    requires DistinctPaths(rows)
    ensures Weight(FileLevelEdges(env, rows, index, metas), KeyFor(kind, f, t)) ==
      FileWeight(env, rows, index, metas, kind, f, t)
  {
    FileLevelParts(env, rows, index, metas, KeyFor(kind, f, t));
    ImportPart(env, rows, index, metas, kind, f, t);
    RefPart(env, rows, metas, kind, f, t);
    LinkWeight(env.pairs(FilesOf(rows)), Pair, KeyFor(kind, f, t));
    WeightInParts(env, rows, index, metas, kind, f, t);
  }

  function FromImports(
    env: Foreign, rows: seq<ParsedRow>, index: set<Text>, metas: Metas, kind: EdgeKind, f: nat, t: nat): nat {
    if f >= |rows| || t >= |rows| || f == t then 0
    else match kind
      case Import => Sum(rows[f].parsed.imports, ImportHits(env, rows[f], rows[t].path, index, metas))
      case Namespace => Sum(rows[f].parsed.imports, NamespaceHits(env, rows[f], rows[t].path, index, metas))
      case _ => 0
  }

  function FromRefs(env: Foreign, rows: seq<ParsedRow>, metas: Metas, kind: EdgeKind, f: nat, t: nat): nat {
    if f < |rows| && t < |rows| && f != t && kind.Import?
    then Sum(env.languages, RefHits(metas, rows[f].path, rows[t].path)) else 0
  }

  lemma WeightInParts(
    env: Foreign, rows: seq<ParsedRow>, index: set<Text>, metas: Metas, kind: EdgeKind, f: nat, t: nat)
    ensures FileWeight(env, rows, index, metas, kind, f, t) ==
      FromImports(env, rows, index, metas, kind, f, t) + FromRefs(env, rows, metas, kind, f, t)
      + (if kind.Pair? then multiset(env.pairs(FilesOf(rows)))[(f, t)] else 0)
  {}

  lemma ImportPart(
    env: Foreign, rows: seq<ParsedRow>, index: set<Text>, metas: Metas, kind: EdgeKind, f: nat, t: nat)
    requires DistinctPaths(rows)
    ensures Weight(ImportEdges(env, rows, |rows|, index, metas), KeyFor(kind, f, t)) ==
      FromImports(env, rows, index, metas, kind, f, t)
  {
    ImportEdgesWeight(env, rows, index, metas, KeyFor(kind, f, t));
    if f < |rows| && t < |rows| && f != t { ImportSum(env, rows[f], rows[t].path, index, metas, kind); }
  }

  lemma RefPart(env: Foreign, rows: seq<ParsedRow>, metas: Metas, kind: EdgeKind, f: nat, t: nat)
    requires DistinctPaths(rows)
    ensures Weight(AllRefEdges(env.languages, metas, IndexOf(rows)), KeyFor(kind, f, t)) ==
      FromRefs(env, rows, metas, kind, f, t)
  {
    IndexIds(rows);
    AllRefWeight(rows, IndexOf(rows), env.languages, metas, KeyFor(kind, f, t));
  }

  /** What a kind asks for is counted under its tag, nothing under the others. */
  lemma ImportSum(env: Foreign, row: ParsedRow, to: Text, index: set<Text>, metas: Metas, kind: EdgeKind)
    ensures Sum(row.parsed.imports, HitsFor(env, row, to, index, metas, KindTag(kind))) ==
      match kind
      case Import => Sum(row.parsed.imports, ImportHits(env, row, to, index, metas))
      case Namespace => Sum(row.parsed.imports, NamespaceHits(env, row, to, index, metas))
      case _ => 0
  {
    var hits := HitsFor(env, row, to, index, metas, KindTag(kind));
    match kind
    case Import => SumSame(row.parsed.imports, hits, ImportHits(env, row, to, index, metas));
    case Namespace => SumSame(row.parsed.imports, hits, NamespaceHits(env, row, to, index, metas));
    case _ => SumZero(row.parsed.imports, hits);
  }

  // ---------------------------------------------------------------- calls

  lemma {:induction false} OthersCount(to: seq<nat>, from: nat, b: nat)
    ensures multiset(Others(to, from))[b] == if b == from then 0 else multiset(to)[b]
  {
    if to != [] {
      OthersCount(to[1..], from, b);
      assert to == [to[0]] + to[1..];
    }
  }

  lemma {:induction false} PlainCount(from: nat, to: seq<nat>, k: Key)
    ensures Weight(Plain(from, to), k) == if k.0 == from && k.2 == KindTag(Call) then multiset(to)[k.1] else 0
  {
    if to != [] {
      PlainCount(from, to[1..], k);
      assert multiset(to) == multiset{to[0]} + multiset(to[1..]) by { assert to == [to[0]] + to[1..]; }
      PlainFirst(from, to, k);
    }
  }

  lemma {:induction false} PlainFirst(from: nat, to: seq<nat>, k: Key)
    requires to != []
    ensures Weight(Plain(from, to), k) ==
      Weight(Plain(from, to[1..]), k) + if k == (from, to[0], KindTag(Call)) then 1 else 0
  {
    assert Plain(from, to) == [CallEdge(from, to[0])] + Plain(from, to[1..]);
    WeightConcat([CallEdge(from, to[0])], Plain(from, to[1..]), k);
    WeightOne(CallEdge(from, to[0]), k);
  }

  lemma SiteWeightIs(c: CallSite, k: Key)
    ensures Weight(RawSite(c), k) ==
      if k.0 == c.0 && k.1 != c.0 && k.2 == KindTag(Call) then multiset(c.1)[k.1] else 0
  {
    PlainCount(c.0, Others(c.1, c.0), k);
    OthersCount(c.1, c.0, k.1);
  }

  /** An ascending list of the members of a set has each of them once. */
  lemma {:induction false} AscendingCounts(s: seq<nat>, members: set<nat>)
    requires Ascending(s) && forall x :: x in s <==> x in members
    ensures |s| == |members|
  {
    if s != [] {
      var x := s[0];
      forall y ensures y in s[1..] <==> y in members - {x} { TailOf(s, y); }
      AscendingCounts(s[1..], members - {x});
      assert x in members;
    } else {
      assert members == {};
    }
  }

  lemma {:induction false} NamedAscending(symbols: seq<CodeSymbol>, n: nat, name: Text)
    requires n <= |symbols| && forall s :: 0 <= s < |symbols| ==> symbols[s].id == s
    ensures Ascending(Named(symbols, n, name))
    ensures forall x: nat :: x in Named(symbols, n, name) <==> x < n && symbols[x].name == name
  {
    if n > 0 {
      NamedAscending(symbols, n - 1, name);
      var was := Named(symbols, n - 1, name);
      assert forall k :: 0 <= k < |was| ==> was[k] in was;
    }
  }

  /** The name map lists each namesake once. */
  lemma NamedIsNamesakes(symbols: seq<CodeSymbol>, name: Text, b: nat)
    requires forall s :: 0 <= s < |symbols| ==> symbols[s].id == s
    ensures multiset(Named(symbols, |symbols|, name))[b] == if b in Namesakes(symbols, name) then 1 else 0
    ensures |Named(symbols, |symbols|, name)| == |Namesakes(symbols, name)|
  {
    var named := Named(symbols, |symbols|, name);
    NamedAscending(symbols, |symbols|, name);
    AscendingCounts(named, Namesakes(symbols, name));
    DistinctCounts(named);
    assert b in named <==> b in multiset(named);
  }

  lemma {:induction false} SliceOf(
    rows: seq<ParsedRow>, f: nat, symbols: seq<CodeSymbol>, inFile: seq<CodeSymbol>, base: nat)
    requires f < |rows| && symbols == SymbolsOf(rows) && inFile == FileSymbols(rows, f) && base == Base(rows, f)
    ensures base + |inFile| <= |symbols|
    ensures forall i :: 0 <= i < |inFile| ==> symbols[base + i] == inFile[i] && inFile[i].id == base + i
    ensures forall b :: 0 <= b < |symbols| ==> (symbols[b].file == f <==> base <= b < base + |inFile|)
  {
    SymbolRanges(rows, f);
    assert Base(rows, f + 1) == base + |inFile|;
    forall i | 0 <= i < |inFile| ensures symbols[base + i] == inFile[i] {
      assert symbols[base..base + |inFile|][i] == inFile[i];
    }
  }

  /** The narrowest symbol of a file's slice is the one that encloses the line. */
  lemma CallerEncloses(
    symbols: seq<CodeSymbol>, inFile: seq<CodeSymbol>, base: nat, f: nat, line: u32, caller: nat)
    requires base + |inFile| <= |symbols|
    requires forall i :: 0 <= i < |inFile| ==> symbols[base + i] == inFile[i]
    requires forall b :: 0 <= b < |symbols| ==> (symbols[b].file == f <==> base <= b < base + |inFile|)
    requires IsSmallest(inFile, line, Some(caller))
    ensures symbols[base + caller].file == f && Encloses(symbols, base + caller, line)
  {
    var a := base + caller;
    assert symbols[a] == inFile[caller];
    forall b | 0 <= b < |symbols| && symbols[b].file == symbols[a].file && Holds(symbols[b], line)
      ensures Narrower(symbols[a], a, symbols[b], b)
    {
      assert symbols[b] == inFile[b - base] && Spans(inFile[b - base], line);
      assert PairLe(Enclosing.Key(inFile, caller), Enclosing.Key(inFile, b - base));
    }
  }

  lemma OneEncloses(symbols: seq<CodeSymbol>, a: nat, b: nat, line: u32)
    requires Encloses(symbols, a, line) && Encloses(symbols, b, line) && symbols[a].file == symbols[b].file
    ensures a == b
  {
    assert Narrower(symbols[a], a, symbols[b], b) && Narrower(symbols[b], b, symbols[a], a);
  }

  lemma CallerIs(rows: seq<ParsedRow>, f: nat, line: u32, a: nat)
    requires f < |rows| && a < |SymbolsOf(rows)|
    ensures var symbols, caller := SymbolsOf(rows), LinearScan(FileSymbols(rows, f), line);
      (caller.Some? && FileSymbols(rows, f)[caller.value].id == a) <==>
      (symbols[a].file == f && Encloses(symbols, a, line))
  {
    var symbols, inFile, base := SymbolsOf(rows), FileSymbols(rows, f), Base(rows, f);
    SliceOf(rows, f, symbols, inFile, base);
    LinearScanIsSmallest(inFile, line);
    var caller := LinearScan(inFile, line);
    if caller.Some? { CallerEncloses(symbols, inFile, base, f, line, caller.value); }
    if symbols[a].file == f && Encloses(symbols, a, line) {
      assert symbols[a] == inFile[a - base] && Spans(inFile[a - base], line);
      OneEncloses(symbols, a, base + caller.value, line);
    }
  }

  predicate Counts(symbols: seq<CodeSymbol>, f: nat, a: nat, b: nat) {
    a < |symbols| && a != b && symbols[a].file == f
  }

  /** One call's site counts for a pair of symbols if it hits it. */
  lemma {:induction false} CallSiteWeight(rows: seq<ParsedRow>, f: nat, call: (Text, u32), a: nat, b: nat)
    requires f < |rows|
    ensures Weight(RawCalls(SiteOf(FileSymbols(rows, f), call, SymbolsOf(rows))), KeyFor(Call, a, b)) ==
      if Counts(SymbolsOf(rows), f, a, b) then CallHits(SymbolsOf(rows), a, b)(call) else 0
  {
    var symbols, inFile, k := SymbolsOf(rows), FileSymbols(rows, f), KeyFor(Call, a, b);
    var name, caller := ShortName(call.0), LinearScan(inFile, call.1);
    SliceOf(rows, f, symbols, inFile, Base(rows, f));
    SymbolRanges(rows, f);
    if a < |symbols| { CallerIs(rows, f, call.1, a); }
    NamedIsNamesakes(symbols, name, b);
    var site := SiteOf(inFile, call, symbols);
    if site != [] {
      assert RawCalls(site) == RawSite(site[0]) + RawCalls(site[1..]) == RawSite(site[0]);
      SiteWeightIs(site[0], k);
    }
  }

  lemma {:induction false} CallsAdd(
    per: seq<seq<CallSite>>, calls: seq<(Text, u32)>, k: Key, worth: ((Text, u32)) -> nat)
    requires |per| == |calls|
    requires forall i :: 0 <= i < |per| ==> Weight(RawCalls(per[i]), k) == worth(calls[i])
    ensures Weight(RawCalls(Flatten(per)), k) == Sum(calls, worth)
  {
    if per != [] {
      var n := |per| - 1;
      CallsAdd(per[..n], calls[..n], k, worth);
      RawCallsConcat(Flatten(per[..n]), per[n]);
      WeightConcat(RawCalls(Flatten(per[..n])), RawCalls(per[n]), k);
      assert calls[..|calls|] == calls;
      SumLast(calls, |calls|, worth);
    }
  }

  function CallWorth(symbols: seq<CodeSymbol>, f: nat, a: nat, b: nat): ((Text, u32)) -> nat {
    if Counts(symbols, f, a, b) then CallHits(symbols, a, b) else (call: (Text, u32)) => 0
  }

  lemma RowCallWeight(rows: seq<ParsedRow>, f: nat, a: nat, b: nat)
    requires f < |rows|
    ensures Weight(RawCalls(RowSites(rows, f)), KeyFor(Call, a, b)) ==
      if Counts(SymbolsOf(rows), f, a, b) then CallWeight(rows, a, b) else 0
  {
    var symbols, calls, k := SymbolsOf(rows), rows[f].parsed.calls, KeyFor(Call, a, b);
    var per := SitesPerCall(FileSymbols(rows, f), calls, symbols);
    forall i | 0 <= i < |per| ensures Weight(RawCalls(per[i]), k) == CallWorth(symbols, f, a, b)(calls[i]) {
      CallSiteWeight(rows, f, calls[i], a, b);
    }
    CallsAdd(per, calls, k, CallWorth(symbols, f, a, b));
    if Counts(symbols, f, a, b) {
      SumSame(calls, CallWorth(symbols, f, a, b), CallHits(symbols, a, b));
    } else {
      SumZero(calls, CallWorth(symbols, f, a, b));
    }
  }

  lemma {:induction false} FilesAdd(files: seq<seq<CallSite>>, k: Key, f: nat, worth: nat)
    requires forall i: nat :: i < |files| ==> Weight(RawCalls(files[i]), k) == if i == f then worth else 0
    ensures Weight(AllRawCalls(files), k) == if f < |files| then worth else 0
  {
    if files != [] {
      var n: nat := |files| - 1;
      FilesAdd(files[..n], k, f, worth);
      WeightConcat(AllRawCalls(files[..n]), RawCalls(files[n]), k);
      assert Weight(RawCalls(files[n]), k) == if n == f then worth else 0;
    }
  }

  lemma AllCallWeight(rows: seq<ParsedRow>, a: nat, b: nat)
    ensures Weight(AllRawCalls(AllSites(rows)), KeyFor(Call, a, b)) == CallWeight(rows, a, b)
  {
    var symbols, files, k := SymbolsOf(rows), AllSites(rows), KeyFor(Call, a, b);
    var f := if a < |symbols| then symbols[a].file else |rows|;
    forall i: nat | i < |files|
      ensures Weight(RawCalls(files[i]), k) == if i == f then CallWeight(rows, a, b) else 0
    {
      assert files[i] == SitesByRow(rows)(i) == RowSites(rows, i);
      RowCallWeight(rows, i, a, b);
    }
    FilesAdd(files, k, f, CallWeight(rows, a, b));
  }

  lemma OnlyCalls(files: seq<seq<CallSite>>, k: Key)
    ensures k.2 != KindTag(Call) ==> Weight(AllRawCalls(files), k) == 0
  {
    if k.2 != KindTag(Call) {
      forall i: nat | i < |files| ensures Weight(RawCalls(files[i]), k) == if i == |files| then 0 else 0 {
        RawCallsUniform(files[i]);
        AbsentWeight(RawCalls(files[i]), k);
      }
      FilesAdd(files, k, |files|, 0);
    }
  }

  // -------------------------------------------------------- the whole graph

  lemma {:induction false} RawWeight(
    env: Foreign, rows: seq<ParsedRow>, index: set<Text>, metas: Metas, callEdges: bool, kind: EdgeKind, from: nat,
    to: nat)
    requires DistinctPaths(rows)
    ensures Weight(RawEdges(env, rows, index, metas, callEdges), KeyFor(kind, from, to)) ==
      Weighs(env, rows, index, metas, callEdges, FileLevelEdges(env, rows, index, metas), kind, from, to)
  {
    var fileLevel, k := FileLevelEdges(env, rows, index, metas), KeyFor(kind, from, to);
    var inherits := env.implements(FilesOf(rows), SymbolsOf(rows), fileLevel);
    RawParts(env, rows, index, metas, callEdges, k);
    FileLevelWeight(env, rows, index, metas, kind, from, to);
    SymbolLevelWeight(rows, inherits, kind, from, to);
    WeighsInParts(env, rows, index, metas, callEdges, fileLevel, kind, from, to);
  }

  /** Edges between symbols: interface satisfaction and calls. */
  function SymbolLevel(rows: seq<ParsedRow>, inherits: seq<(nat, nat)>, kind: EdgeKind, from: nat, to: nat): nat {
    match kind
    case Inherit => multiset(inherits)[(from, to)]
    case Call => CallWeight(rows, from, to)
    case _ => 0
  }

  lemma SymbolLevelWeight(rows: seq<ParsedRow>, inherits: seq<(nat, nat)>, kind: EdgeKind, from: nat, to: nat)
    ensures Weight(LinkAll(inherits, Inherit) + AllRawCalls(AllSites(rows)), KeyFor(kind, from, to)) ==
      SymbolLevel(rows, inherits, kind, from, to)
  {
    var k := KeyFor(kind, from, to);
    WeightConcat(LinkAll(inherits, Inherit), AllRawCalls(AllSites(rows)), k);
    LinkWeight(inherits, Inherit, k);
    OnlyCalls(AllSites(rows), k);
    if kind.Call? { AllCallWeight(rows, from, to); }
  }

  lemma RawParts(env: Foreign, rows: seq<ParsedRow>, index: set<Text>, metas: Metas, callEdges: bool, k: Key)
    ensures var fileLevel := FileLevelEdges(env, rows, index, metas);
      var inherits := env.implements(FilesOf(rows), SymbolsOf(rows), fileLevel);
      Weight(RawEdges(env, rows, index, metas, callEdges), k) ==
        Weight(fileLevel, k)
        + if callEdges then Weight(LinkAll(inherits, Inherit) + AllRawCalls(AllSites(rows)), k) else 0
  {
    var fileLevel := FileLevelEdges(env, rows, index, metas);
    if callEdges {
      var inherits := LinkAll(env.implements(FilesOf(rows), SymbolsOf(rows), fileLevel), Inherit);
      var calls := AllRawCalls(AllSites(rows));
      WeightConcat(fileLevel, inherits + calls, k);
      assert fileLevel + inherits + calls == fileLevel + (inherits + calls);
    }
  }

  lemma WeighsInParts(
    env: Foreign, rows: seq<ParsedRow>, index: set<Text>, metas: Metas, callEdges: bool, fileLevel: seq<CodeEdge>,
    kind: EdgeKind, from: nat, to: nat)
    ensures var inherits := env.implements(FilesOf(rows), SymbolsOf(rows), fileLevel);
      Weighs(env, rows, index, metas, callEdges, fileLevel, kind, from, to) ==
        FileWeight(env, rows, index, metas, kind, from, to)
        + if callEdges then SymbolLevel(rows, inherits, kind, from, to) else 0
  {}

  /** An edge is in the graph exactly if its weight is how often something joins
      its ends, and that is not never; imports and namespaces are backed by build
      configuration, everything else by syntax alone. */
  ghost predicate Means(
    edges: seq<CodeEdge>, env: Foreign, rows: seq<ParsedRow>, index: set<Text>, metas: Metas, callEdges: bool,
    fileLevel: seq<CodeEdge>)
  {
    forall e :: e in edges <==>
      && e.weight == Weighs(env, rows, index, metas, callEdges, fileLevel, e.kind, e.from, e.to) > 0
      && e.confidence == if e.kind.Import? || e.kind.Namespace? then Scoped else Syntactic
  }

  function SymbolCount(): ParsedRow -> nat { (row: ParsedRow) => |row.parsed.symbols| }

  /** Row `i` is file `i`, and its symbols are numbered from `at`. */
  ghost predicate RowPlaced(g: CodeGraph, row: ParsedRow, i: nat, at: nat) {
    && i < |g.files| && g.files[i] == CodeFile(i, row.path, row.language, row.loc, row.sha)
    && at + |row.parsed.symbols| <= |g.symbols|
    && forall k :: 0 <= k < |row.parsed.symbols| ==>
         g.symbols[at + k] == row.parsed.symbols[k].(id := at + k, file := i)
  }

  /** Files and symbols of the rows, numbered through. */
  ghost predicate Numbered(g: CodeGraph, rows: seq<ParsedRow>) {
    && |g.files| == |rows| && |g.symbols| == Sum(rows, SymbolCount())
    && forall i :: 0 <= i < |rows| ==> RowPlaced(g, rows[i], i, Sum(rows[..i], SymbolCount()))
  }

  /** Edges stand in the order of their ends and kinds, each of them once. */
  ghost predicate Ordered(edges: seq<CodeEdge>) {
    forall i, j :: 0 <= i < j < |edges| ==>
      var d, e := edges[i], edges[j];
      d.from < e.from || (d.from == e.from && (d.to < e.to || (d.to == e.to && KindTag(d.kind) < KindTag(e.kind))))
  }

  /** Files and symbols of a graph are those of its rows, numbered through, and
      its edges are in order. */
  lemma GraphNumbered(
    g: CodeGraph, env: Foreign, rows: seq<ParsedRow>, index: set<Text>, metas: Metas, callEdges: bool)
    requires IsGraphOf(g, env, rows, index, metas, callEdges)
    ensures Numbered(g, rows) && Ordered(g.edges)
  {
    NumberedRows(g, rows);
    StrictIsOrdered(g.edges);
  }

  lemma StrictIsOrdered(edges: seq<CodeEdge>)
    requires Strict(edges)
    ensures Ordered(edges)
  {
    forall i, j | 0 <= i < j < |edges|
      ensures var d, e := edges[i], edges[j];
        d.from < e.from || (d.from == e.from && (d.to < e.to || (d.to == e.to && KindTag(d.kind) < KindTag(e.kind))))
    {
      assert KeyLess(KeyOf(edges[i]), KeyOf(edges[j]));
    }
  }

  /** What interface satisfaction is computed from are the file-level edges. */
  lemma FileLevelMeans(env: Foreign, rows: seq<ParsedRow>, index: set<Text>, metas: Metas)
    requires DistinctPaths(rows)
    ensures OnlyFileLevel(FileLevelEdges(env, rows, index, metas), env, rows, index, metas)
  {
    var fileLevel := FileLevelEdges(env, rows, index, metas);
    forall kind, f: nat, t: nat
      ensures Weight(fileLevel, KeyFor(kind, f, t)) == FileWeight(env, rows, index, metas, kind, f, t)
    {
      FileLevelWeight(env, rows, index, metas, kind, f, t);
    }
  }

  /** Interface satisfaction is computed from the file-level edges alone. */
  ghost predicate OnlyFileLevel(
    fileLevel: seq<CodeEdge>, env: Foreign, rows: seq<ParsedRow>, index: set<Text>, metas: Metas) {
    forall kind, f: nat, t: nat {:trigger FileWeight(env, rows, index, metas, kind, f, t)} ::
      Weight(fileLevel, KeyFor(kind, f, t)) == FileWeight(env, rows, index, metas, kind, f, t)
  }

  lemma {:induction false} BaseIsSum(rows: seq<ParsedRow>, i: nat)
    requires i <= |rows|
    ensures Base(rows, i) == Sum(rows[..i], SymbolCount())
    decreases i
  {
    if i > 0 {
      BaseIsSum(rows, i - 1);
      SumLast(rows, i, SymbolCount());
    }
  }

  lemma NumberedRows(g: CodeGraph, rows: seq<ParsedRow>)
    requires g.files == FilesOf(rows) && g.symbols == SymbolsOf(rows)
    ensures Numbered(g, rows)
  {
    BaseIsSum(rows, |rows|);
    assert rows[..|rows|] == rows;
    forall i | 0 <= i < |rows| ensures RowPlaced(g, rows[i], i, Sum(rows[..i], SymbolCount())) {
      BaseIsSum(rows, i);
      RowIsPlaced(g, rows, i, Base(rows, i));
    }
  }

  lemma {:induction false} RowIsPlaced(g: CodeGraph, rows: seq<ParsedRow>, i: nat, at: nat)
    requires g.files == FilesOf(rows) && g.symbols == SymbolsOf(rows) && i < |rows| && at == Base(rows, i)
    ensures RowPlaced(g, rows[i], i, at)
  {
    SliceOf(rows, i, g.symbols, FileSymbols(rows, i), at);
  }

  /** Every edge of a graph means what it should, and nothing is missing. */
  lemma EdgesMean(
    g: CodeGraph, env: Foreign, rows: seq<ParsedRow>, index: set<Text>, metas: Metas, callEdges: bool)
    requires DistinctPaths(rows) && IsGraphOf(g, env, rows, index, metas, callEdges)
    ensures Means(g.edges, env, rows, index, metas, callEdges, FileLevelEdges(env, rows, index, metas))
  {
    var fileLevel := FileLevelEdges(env, rows, index, metas);
    forall e ensures e in g.edges <==>
      (e.weight == Weighs(env, rows, index, metas, callEdges, fileLevel, e.kind, e.from, e.to) > 0
       && e.confidence == if e.kind.Import? || e.kind.Namespace? then Scoped else Syntactic)
    {
      RawWeight(env, rows, index, metas, callEdges, e.kind, e.from, e.to);
      EdgeByWeight(g.edges, e);
    }
  }

  lemma EdgeByWeight(edges: seq<CodeEdge>, e: CodeEdge)
    requires Strict(edges) && Uniform(edges)
    ensures e in edges <==>
      e.weight == Weight(edges, KeyFor(e.kind, e.from, e.to)) > 0 && e.confidence == ConfidenceOf(e.kind)
  {
    var k := KeyFor(e.kind, e.from, e.to);
    if e in edges {
      var i :| 0 <= i < |edges| && edges[i] == e;
      StrictWeight(edges, i);
    }
    if Weight(edges, k) > 0 {
      var i := PresentWeight(edges, k);
      StrictWeight(edges, i);
      assert edges[i] in edges && edges[i].kind == e.kind;
    }
  }

  // ---------------------------------------------------------- callee names

  /** Dots and colons stand between names. */
  predicate Separates(c: byte) { c == '.' as int || c == ':' as int }

  predicate AllSeparators(s: Text) { forall k :: 0 <= k < |s| ==> Separates(s[k]) }

  predicate NoSeparator(s: Text) { forall k :: 0 <= k < |s| ==> !Separates(s[k]) }

  lemma {:induction false} TrimEndIs(s: Text) returns (tail: Text)
    ensures s == TrimEnd(s) + tail && AllSeparators(tail)
    ensures TrimEnd(s) == [] || !Separates(TrimEnd(s)[|TrimEnd(s)| - 1])
  {
    tail := [];
    if s != [] && Separates(s[|s| - 1]) {
      var init, last := s[..|s| - 1], s[|s| - 1];
      var rest := TrimEndIs(init);
      var t := TrimEnd(init);
      assert s == init + [last] == (t + rest) + [last] == t + (rest + [last]);
      tail := rest + [last];
    }
  }

  lemma {:induction false} LastSegmentIs(s: Text) returns (head: Text)
    ensures s == head + LastSegment(s) && NoSeparator(LastSegment(s))
    ensures head != [] ==> Separates(head[|head| - 1])
  {
    if s != [] && !Separates(s[|s| - 1]) {
      head := LastSegmentIs(s[..|s| - 1]);
      assert s == s[..|s| - 1] + [s[|s| - 1]];
    } else {
      head := s;
    }
  }

  /** `callee` is `head`, then its name, then separators. */
  predicate NamedBy(callee: Text, head: Text, name: Text, tail: Text) {
    && callee == head + name + tail && name != [] && NoSeparator(name) && AllSeparators(tail)
    && (head != [] ==> Separates(head[|head| - 1]))
  }

  /** A call goes by the last name in its callee, or by the whole of it if it
      has none. */
  lemma {:induction false} ShortNameIs(callee: Text)
    ensures if AllSeparators(callee) then ShortName(callee) == callee
            else exists head, tail :: NamedBy(callee, head, ShortName(callee), tail)
  {
    var t := TrimEnd(callee);
    var tail := TrimEndIs(callee);
    if t == [] {
      assert callee == tail;
    } else {
      var head := LastSegmentIs(t);
      assert !Separates(t[|t| - 1]) && callee[|t| - 1] == t[|t| - 1];
      var name := ShortName(callee);
      assert name == LastSegment(t) != [];
      assert callee == head + name + tail;
      assert NamedBy(callee, head, name, tail);
    }
  }
}
