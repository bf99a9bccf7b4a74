/** Assembly of the graph from parsed rows: ids by path order, import edges
    from (possibly reused) resolutions, call edges, one canonical edge list. */
module Assembly {
  import opened Types
  import opened Sorting
  import opened Edges
  import opened CallEdges
  import opened Enclosing

  datatype ImportResolution =
    | Unresolved
    | ToFile(path: Text)
    | ToFiles(paths: seq<Text>)
    | ToNamespace(name: Text, declaring: seq<Text>)

  /** Build configuration of one language; `payload` is all that only the
      resolver itself interprets. */
  datatype ProjectMeta = ProjectMeta(excludes: set<Text>, projectRefs: seq<(Text, Text)>, payload: Text)

  datatype ParsedRow = ParsedRow(path: Text, language: Language, sha: Text, loc: u32, parsed: ParsedFile)

  datatype CodeFile = CodeFile(id: nat, path: Text, language: Language, loc: u32, sha: Text)

  datatype CodeGraph = CodeGraph(files: seq<CodeFile>, symbols: seq<CodeSymbol>, edges: seq<CodeEdge>)

  /** What each import of a file resolved to; list and imports have equal order. */
  datatype FileResolutions = FileResolutions(lang: Language, items: seq<(Text, ImportResolution)>)

  type Metas = map<Language, ProjectMeta>

  /** The parts whose code is not modelled: deterministic functions. */
  datatype Foreign = Foreign(
    langOfPath: Text -> Option<Language>,
    resolve: (Language, Text, Text, set<Text>, ProjectMeta) -> ImportResolution,
    pairs: seq<CodeFile> -> seq<(nat, nat)>,
    implements: (seq<CodeFile>, seq<CodeSymbol>, seq<CodeEdge>) -> seq<(nat, nat)>,
    languages: seq<Language>)

  function ResolverOwner(l: Language): Language {
    match l
    case Tsx => TypeScript case JavaScript => TypeScript case Vue => TypeScript
    case ObjCpp => ObjC
    case _ => l
  }

  // ---------------------------------------------------------- row order

  predicate RowLe(a: ParsedRow, b: ParsedRow) { TextLe(a.path, b.path) }

  ghost predicate DistinctPaths(rows: seq<ParsedRow>) {
    forall i, j :: 0 <= i < j < |rows| ==> rows[i].path != rows[j].path
  }

  lemma RowOrder()
    ensures TotalPreorder(RowLe)
  {
    TextOrder();
  }

  lemma SortDistinct(s: seq<ParsedRow>)
    requires DistinctPaths(s)
    ensures DistinctPaths(Sort(s, RowLe))
    ensures forall r :: r in Sort(s, RowLe) <==> r in s
  {
    var t := Sort(s, RowLe);
    RowOrder();
    SortCorrect(s, RowLe);
    SortMembers(s, RowLe);
    DistinctPermutation(s, t);
    forall i, j | 0 <= i < j < |t| ensures t[i].path != t[j].path {
      assert t[i] in s && t[j] in s && t[i] != t[j];
      var a :| 0 <= a < |s| && s[a] == t[i];
      var b :| 0 <= b < |s| && s[b] == t[j];
    }
  }

  /** The order in which the parallel parse delivers rows is forgotten. */
  lemma RowsForgetOrder(a: seq<ParsedRow>, b: seq<ParsedRow>)
    requires multiset(a) == multiset(b) && DistinctPaths(a)
    ensures Sort(a, RowLe) == Sort(b, RowLe)
  {
    RowOrder();
    TextOrder();
    forall x, y | x in a && y in a && RowLe(x, y) && RowLe(y, x) ensures x == y {
      var i :| 0 <= i < |a| && a[i] == x;
      var j :| 0 <= j < |a| && a[j] == y;
    }
    SortIgnoresOrder(a, b, RowLe);
  }

  // ------------------------------------------------------ ids and symbols

  /** First symbol id of file `i`. */
  function Base(rows: seq<ParsedRow>, i: nat): nat
    requires i <= |rows|
  { if i == 0 then 0 else Base(rows, i - 1) + |rows[i - 1].parsed.symbols| }

  function FilesOf(rows: seq<ParsedRow>): (r: seq<CodeFile>)
    ensures |r| == |rows|
    ensures forall i :: 0 <= i < |rows| ==> r[i].id == i && r[i].path == rows[i].path
    ensures forall i :: 0 <= i < |rows| ==>
      r[i].language == rows[i].language && r[i].loc == rows[i].loc && r[i].sha == rows[i].sha
  {
    seq(|rows|, i requires 0 <= i < |rows| =>
      CodeFile(i, rows[i].path, rows[i].language, rows[i].loc, rows[i].sha))
  }

  function Renumber(syms: seq<CodeSymbol>, base: nat, file: nat): (r: seq<CodeSymbol>)
    ensures |r| == |syms|
    ensures forall k :: 0 <= k < |syms| ==> r[k] == syms[k].(id := base + k, file := file)
  { seq(|syms|, k requires 0 <= k < |syms| => syms[k].(id := base + k, file := file)) }

  function FileSymbols(rows: seq<ParsedRow>, i: nat): (r: seq<CodeSymbol>)
    requires i < |rows|
    ensures |r| == |rows[i].parsed.symbols|
  { Renumber(rows[i].parsed.symbols, Base(rows, i), i) }

  function SymbolsUpTo(rows: seq<ParsedRow>, n: nat): (r: seq<CodeSymbol>)
    requires n <= |rows|
    ensures |r| == Base(rows, n)
  { if n == 0 then [] else SymbolsUpTo(rows, n - 1) + FileSymbols(rows, n - 1) }

  function SymbolsOf(rows: seq<ParsedRow>): seq<CodeSymbol> { SymbolsUpTo(rows, |rows|) }

  lemma {:induction false} BaseMonotone(rows: seq<ParsedRow>, i: nat, j: nat)
    requires i <= j <= |rows|
    ensures Base(rows, i) <= Base(rows, j)
    ensures SymbolsUpTo(rows, i) == SymbolsUpTo(rows, j)[..Base(rows, i)]
    decreases j
  {
    if i < j { BaseMonotone(rows, i, j - 1); }
  }

  /** Symbol ids are the positions, and file `i` owns exactly the contiguous
      range from `Base(i)` to `Base(i + 1)`; the ranges tile the symbols. */
  lemma SymbolRanges(rows: seq<ParsedRow>, i: nat)
    requires i < |rows|
    ensures Base(rows, i) <= Base(rows, i + 1) <= |SymbolsOf(rows)|
    ensures SymbolsOf(rows)[Base(rows, i)..Base(rows, i + 1)] == FileSymbols(rows, i)
    ensures forall s :: 0 <= s < |SymbolsOf(rows)| ==>
      (SymbolsOf(rows)[s].file == i <==> Base(rows, i) <= s < Base(rows, i + 1))
    ensures forall s :: 0 <= s < |SymbolsOf(rows)| ==> SymbolsOf(rows)[s].id == s
  {
    BaseMonotone(rows, i, i + 1);
    BaseMonotone(rows, i + 1, |rows|);
    assert SymbolsUpTo(rows, i + 1) == SymbolsOf(rows)[..Base(rows, i + 1)];
    forall s | 0 <= s < |SymbolsOf(rows)|
      ensures SymbolsOf(rows)[s].id == s
      ensures SymbolsOf(rows)[s].file == i <==> Base(rows, i) <= s < Base(rows, i + 1)
    {
      var f := SymbolHome(rows, |rows|, s);
      if f < i { BaseMonotone(rows, f + 1, i); }
      if i < f { BaseMonotone(rows, i + 1, f); }
    }
  }

  lemma {:induction false} SymbolHome(rows: seq<ParsedRow>, n: nat, s: nat) returns (f: nat)
    requires n <= |rows| && s < Base(rows, n)
    ensures f < n && Base(rows, f) <= s < Base(rows, f + 1)
    ensures SymbolsUpTo(rows, n)[s].id == s && SymbolsUpTo(rows, n)[s].file == f
    decreases n
  {
    if s < Base(rows, n - 1) {
      f := SymbolHome(rows, n - 1, s);
    } else {
      f := n - 1;
    }
  }

  // ---------------------------------------------------------- raw edges

  function IndexUpTo(rows: seq<ParsedRow>, n: nat): map<Text, nat>
    requires n <= |rows|
  { if n == 0 then map[] else IndexUpTo(rows, n - 1)[rows[n - 1].path := n - 1] }

  function IndexOf(rows: seq<ParsedRow>): map<Text, nat> { IndexUpTo(rows, |rows|) }

  function Link(from: nat, to: nat, kind: EdgeKind): CodeEdge { CodeEdge(from, to, kind, 1, ConfidenceOf(kind)) }

  function TargetEdges(from: nat, targets: seq<Text>, kind: EdgeKind, ids: map<Text, nat>): seq<CodeEdge> {
    if targets == [] then [] else
    (if targets[0] in ids && ids[targets[0]] != from then [Link(from, ids[targets[0]], kind)] else [])
    + TargetEdges(from, targets[1..], kind, ids)
  }

  function ResolutionEdges(from: nat, r: ImportResolution, ids: map<Text, nat>): seq<CodeEdge> {
    match r
    case Unresolved => []
    case ToFile(p) => TargetEdges(from, [p], Import, ids)
    case ToFiles(ps) => TargetEdges(from, ps, Import, ids)
    case ToNamespace(_, ps) => TargetEdges(from, ps, Namespace, ids)
  }

  function ItemEdges(from: nat, items: seq<(Text, ImportResolution)>, n: nat, ids: map<Text, nat>): seq<CodeEdge>
    requires n <= |items|
  { if n == 0 then [] else ItemEdges(from, items, n - 1, ids) + ResolutionEdges(from, items[n - 1].1, ids) }

  function PathLanguage(env: Foreign, row: ParsedRow): Language {
    match env.langOfPath(row.path) case Some(l) => l case None => row.language
  }

  function ResolveSpec(
    env: Foreign, lang: Language, path: Text, spec: Text, index: set<Text>, metas: Metas): ImportResolution {
    var owner := ResolverOwner(lang);
    if owner in metas then env.resolve(owner, path, spec, index, metas[owner]) else Unresolved
  }

  function ResolveAll(env: Foreign, lang: Language, path: Text, specs: seq<Text>, index: set<Text>, metas: Metas)
    : (r: seq<(Text, ImportResolution)>)
    ensures |r| == |specs|
  {
    seq(|specs|, i requires 0 <= i < |specs| => (specs[i], ResolveSpec(env, lang, path, specs[i], index, metas)))
  }

  /** What resolution returns now for a row. */
  function Resolutions(env: Foreign, row: ParsedRow, index: set<Text>, metas: Metas): FileResolutions {
    var lang := PathLanguage(env, row);
    FileResolutions(lang, ResolveAll(env, lang, row.path, row.parsed.imports, index, metas))
  }

  function RowEdges(env: Foreign, rows: seq<ParsedRow>, f: nat, index: set<Text>, metas: Metas): seq<CodeEdge>
    requires f < |rows|
  {
    var items := Resolutions(env, rows[f], index, metas).items;
    var ids := IndexOf(rows);
    if rows[f].path in ids then ItemEdges(ids[rows[f].path], items, |items|, ids) else []
  }

  function ImportEdges(env: Foreign, rows: seq<ParsedRow>, n: nat, index: set<Text>, metas: Metas): seq<CodeEdge>
    requires n <= |rows|
  {
    if n == 0 then [] else ImportEdges(env, rows, n - 1, index, metas) + RowEdges(env, rows, n - 1, index, metas)
  }

  function RefEdges(refs: seq<(Text, Text)>, ids: map<Text, nat>): seq<CodeEdge> {
    if refs == [] then [] else
    (if refs[0].0 in ids && refs[0].1 in ids && ids[refs[0].0] != ids[refs[0].1]
     then [Link(ids[refs[0].0], ids[refs[0].1], Import)] else [])
    + RefEdges(refs[1..], ids)
  }

  function AllRefEdges(langs: seq<Language>, metas: Metas, ids: map<Text, nat>): seq<CodeEdge> {
    if langs == [] then [] else
    (if langs[0] in metas then RefEdges(metas[langs[0]].projectRefs, ids) else [])
    + AllRefEdges(langs[1..], metas, ids)
  }

  function LinkAll(ps: seq<(nat, nat)>, kind: EdgeKind): (r: seq<CodeEdge>)
    ensures forall e :: e in r ==> e.weight > 0 && e.confidence == ConfidenceOf(e.kind)
  { seq(|ps|, i requires 0 <= i < |ps| => Link(ps[i].0, ps[i].1, kind)) }

  function FileLevelEdges(env: Foreign, rows: seq<ParsedRow>, index: set<Text>, metas: Metas): seq<CodeEdge> {
    ImportEdges(env, rows, |rows|, index, metas)
    + AllRefEdges(env.languages, metas, IndexOf(rows))
    + LinkAll(env.pairs(FilesOf(rows)), Pair)
  }

  // ---------------------------------------------------------- call sites

  predicate IsSeparator(b: byte) { b == 46 || b == 58 }

  function TrimEnd(s: Text): Text { if s != [] && IsSeparator(s[|s| - 1]) then TrimEnd(s[..|s| - 1]) else s }

  function LastSegment(s: Text): Text {
    if s == [] || IsSeparator(s[|s| - 1]) then [] else LastSegment(s[..|s| - 1]) + [s[|s| - 1]]
  }

  /** The trailing non-empty segment of `a.b::c`, or the whole callee. */
  function ShortName(callee: Text): Text {
    if TrimEnd(callee) == [] then callee else LastSegment(TrimEnd(callee))
  }

  /** Positions of the symbols with a name, ascending. */
  function Named(symbols: seq<CodeSymbol>, n: nat, name: Text): seq<nat>
    requires n <= |symbols|
  {
    if n == 0 then []
    else Named(symbols, n - 1, name) + (if symbols[n - 1].name == name then [symbols[n - 1].id] else [])
  }

  const MAX_SYNTACTIC_CALL_TARGETS: nat := 50

  /** The site one call makes, if its caller and some targets are known. */
  function SiteOf(inFile: seq<CodeSymbol>, call: (Text, u32), symbols: seq<CodeSymbol>): seq<CallSite> {
    var caller := LinearScan(inFile, call.1);
    var targets := Named(symbols, |symbols|, ShortName(call.0));
    if caller.Some? && targets != [] && |targets| <= MAX_SYNTACTIC_CALL_TARGETS
    then [(inFile[caller.value].id, targets)] else []
  }

  function SitesPerCall(
    inFile: seq<CodeSymbol>, calls: seq<(Text, u32)>, symbols: seq<CodeSymbol>): (r: seq<seq<CallSite>>)
    ensures |r| == |calls| && forall c :: 0 <= c < |calls| ==> r[c] == SiteOf(inFile, calls[c], symbols)
  { seq(|calls|, c requires 0 <= c < |calls| => SiteOf(inFile, calls[c], symbols)) }

  function Flatten<T>(xs: seq<seq<T>>): seq<T> {
    if xs == [] then [] else Flatten(xs[..|xs| - 1]) + xs[|xs| - 1]
  }

  function RowSites(rows: seq<ParsedRow>, i: nat): seq<CallSite>
    requires i < |rows|
  { Flatten(SitesPerCall(FileSymbols(rows, i), rows[i].parsed.calls, SymbolsOf(rows))) }

  function Table<T>(n: nat, f: nat -> T): (r: seq<T>)
    ensures |r| == n && forall i :: 0 <= i < n ==> r[i] == f(i)
  { if n == 0 then [] else Table(n - 1, f) + [f(n - 1)] }

  function SitesByRow(rows: seq<ParsedRow>): nat -> seq<CallSite> {
    (i: nat) => if i < |rows| then RowSites(rows, i) else []
  }

  function AllSites(rows: seq<ParsedRow>): (r: seq<seq<CallSite>>)
    ensures |r| == |rows|
  { Table(|rows|, SitesByRow(rows)) }

  function RawEdges(
    env: Foreign, rows: seq<ParsedRow>, index: set<Text>, metas: Metas, callEdges: bool): seq<CodeEdge> {
    var fileLevel := FileLevelEdges(env, rows, index, metas);
    if !callEdges then fileLevel else
    fileLevel + LinkAll(env.implements(FilesOf(rows), SymbolsOf(rows), fileLevel),
        Inherit) + AllRawCalls(AllSites(rows))
  }

  /** The graph of rows in path order. */
  ghost predicate IsGraphOf(
    g: CodeGraph, env: Foreign, rows: seq<ParsedRow>, index: set<Text>, metas: Metas, callEdges: bool) {
    && g.files == FilesOf(rows)
    && g.symbols == SymbolsOf(rows)
    && Canonical(g.edges, RawEdges(env, rows, index, metas, callEdges))
  }

  lemma GraphUnique(
    g: CodeGraph, h: CodeGraph, env: Foreign, rows: seq<ParsedRow>, index: set<Text>, metas: Metas, callEdges: bool)
    requires IsGraphOf(g, env, rows, index, metas, callEdges) && IsGraphOf(h, env, rows, index, metas, callEdges)
    ensures g == h
  {
    CanonicalUnique(g.edges, h.edges);
  }

  /** Assembly is a function of the set of rows: any two deliveries of the same
      rows, through whatever reuse, give one graph. */
  lemma AssemblyDeterministic(
    g: CodeGraph, h: CodeGraph, env: Foreign, a: seq<ParsedRow>, b: seq<ParsedRow>,
    index: set<Text>, metas: Metas, callEdges: bool)
    requires multiset(a) == multiset(b) && DistinctPaths(a)
    requires IsGraphOf(g, env, Sort(a, RowLe), index, metas, callEdges)
    requires IsGraphOf(h, env, Sort(b, RowLe), index, metas, callEdges)
    ensures g == h
  {
    RowsForgetOrder(a, b);
    GraphUnique(g, h, env, Sort(a, RowLe), index, metas, callEdges);
  }

  predicate HasId(symbols: seq<CodeSymbol>, id: nat) { exists k :: 0 <= k < |symbols| && symbols[k].id == id }

  lemma SiteInside(inFile: seq<CodeSymbol>, call: (Text, u32), symbols: seq<CodeSymbol>)
    ensures forall c :: c in SiteOf(inFile, call, symbols) ==> HasId(inFile, c.0)
  {
    var caller := LinearScan(inFile, call.1);
    if caller.Some? { assert HasId(inFile, inFile[caller.value].id); }
  }

  lemma {:induction false} InFlatten<T(!new)>(xs: seq<seq<T>>, x: T)
    requires x in Flatten(xs)
    ensures exists i :: 0 <= i < |xs| && x in xs[i]
  {
    var n := |xs| - 1;
    if x in xs[n] {
    } else {
      InFlatten(xs[..n], x);
      var i :| 0 <= i < n && x in xs[..n][i];
      assert x in xs[i];
    }
  }

  lemma SitesInside(inFile: seq<CodeSymbol>, calls: seq<(Text, u32)>, symbols: seq<CodeSymbol>, c: CallSite)
    requires c in Flatten(SitesPerCall(inFile, calls, symbols))
    ensures HasId(inFile, c.0)
  {
    var per := SitesPerCall(inFile, calls, symbols);
    InFlatten(per, c);
    var i :| 0 <= i < |per| && c in per[i];
    SiteInside(inFile, calls[i], symbols);
  }

  function Bounds(rows: seq<ParsedRow>): (r: seq<nat>)
    ensures |r| == |rows| + 1
  { seq(|rows| + 1, i requires 0 <= i <= |rows| => Base(rows, i)) }

  lemma SitesWithin(rows: seq<ParsedRow>)
    ensures CallersWithin(AllSites(rows), Bounds(rows))
  {
    forall f, g | 0 <= f <= g < |Bounds(rows)| ensures Bounds(rows)[f] <= Bounds(rows)[g] {
      BaseMonotone(rows, f, g);
    }
    forall f, c | 0 <= f < |rows| && c in AllSites(rows)[f] ensures Bounds(rows)[f] <= c.0 < Bounds(rows)[f + 1] {
      SiteCallerWithin(rows, f, c);
    }
  }

  lemma SiteCallerWithin(rows: seq<ParsedRow>, f: nat, c: CallSite)
    requires f < |rows| && c in AllSites(rows)[f]
    ensures Base(rows, f) <= c.0 < Base(rows, f + 1)
  {
    assert AllSites(rows)[f] == SitesByRow(rows)(f);
    SitesInside(FileSymbols(rows, f), rows[f].parsed.calls, SymbolsOf(rows), c);
  }

  lemma {:induction false} TargetEdgesUniform(from: nat, targets: seq<Text>, kind: EdgeKind, ids: map<Text, nat>)
    ensures Uniform(TargetEdges(from, targets, kind, ids))
  {
    if targets != [] { TargetEdgesUniform(from, targets[1..], kind, ids); }
  }

  lemma {:induction false} ItemEdgesUniform(
    from: nat, items: seq<(Text, ImportResolution)>, n: nat, ids: map<Text, nat>)
    requires n <= |items|
    ensures Uniform(ItemEdges(from, items, n, ids))
  {
    if n > 0 {
      ItemEdgesUniform(from, items, n - 1, ids);
      match items[n - 1].1
      case Unresolved =>
      case ToFile(p) => TargetEdgesUniform(from, [p], Import, ids);
      case ToFiles(ps) => TargetEdgesUniform(from, ps, Import, ids);
      case ToNamespace(_, ps) => TargetEdgesUniform(from, ps, Namespace, ids);
    }
  }

  lemma {:induction false} ImportEdgesUniform(
    env: Foreign, rows: seq<ParsedRow>, n: nat, index: set<Text>, metas: Metas)
    requires n <= |rows|
    ensures Uniform(ImportEdges(env, rows, n, index, metas))
  {
    if n > 0 {
      ImportEdgesUniform(env, rows, n - 1, index, metas);
      RowEdgesUniform(env, rows, n - 1, index, metas);
    }
  }

  lemma {:induction false} RowEdgesUniform(env: Foreign, rows: seq<ParsedRow>, f: nat, index: set<Text>, metas: Metas)
    requires f < |rows|
    ensures Uniform(RowEdges(env, rows, f, index, metas))
  {
    var items := Resolutions(env, rows[f], index, metas).items;
    var ids := IndexOf(rows);
    if rows[f].path in ids { ItemEdgesUniform(ids[rows[f].path], items, |items|, ids); }
  }

  lemma {:induction false} RefEdgesUniform(refs: seq<(Text, Text)>, ids: map<Text, nat>)
    ensures Uniform(RefEdges(refs, ids))
  {
    if refs != [] { RefEdgesUniform(refs[1..], ids); }
  }

  lemma {:induction false} AllRefEdgesUniform(langs: seq<Language>, metas: Metas, ids: map<Text, nat>)
    ensures Uniform(AllRefEdges(langs, metas, ids))
  {
    if langs != [] {
      AllRefEdgesUniform(langs[1..], metas, ids);
      if langs[0] in metas { RefEdgesUniform(metas[langs[0]].projectRefs, ids); }
    }
  }

  lemma FileLevelUniform(env: Foreign, rows: seq<ParsedRow>, index: set<Text>, metas: Metas)
    ensures Uniform(FileLevelEdges(env, rows, index, metas))
  {
    ImportEdgesUniform(env, rows, |rows|, index, metas);
    AllRefEdgesUniform(env.languages, metas, IndexOf(rows));
  }

  // ------------------------------------------------------------ assembly

  /** Resolutions kept from an earlier snapshot, and the languages whose
      metadata differs from that snapshot's. */
  datatype Reuse = Reuse(cache: map<Text, FileResolutions>, changed: set<Language>)

  function Specs(items: seq<(Text, ImportResolution)>): (r: seq<Text>)
    ensures |r| == |items|
  { seq(|items|, i requires 0 <= i < |items| => items[i].0) }

  /** Held resolutions are what resolution returns now, for every language not
      listed as changed. */
  ghost predicate ReuseSound(env: Foreign, reuse: Reuse, index: set<Text>, metas: Metas) {
    forall p :: p in reuse.cache && ResolverOwner(reuse.cache[p].lang) !in reuse.changed ==>
      var e := reuse.cache[p]; e.items == ResolveAll(env, e.lang, p, Specs(e.items), index, metas)
  }

  method ResolveRow(
    env: Foreign, row: ParsedRow, index: set<Text>, metas: Metas, reuse: Option<Reuse>) returns (e: FileResolutions)
    requires reuse.Some? ==> ReuseSound(env, reuse.value, index, metas)
    ensures e == Resolutions(env, row, index, metas)
  {
    var lang := PathLanguage(env, row);
    if reuse.Some? && row.path in reuse.value.cache {
      var held := reuse.value.cache[row.path];
      if held.lang == lang && ResolverOwner(lang) !in reuse.value.changed && Specs(held.items) == row.parsed.imports {
        return held;
      }
    }
    var items := [];
    for i := 0 to |row.parsed.imports|
      invariant items == ResolveAll(env, lang, row.path, row.parsed.imports, index, metas)[..i]
    {
      items := items + [(row.parsed.imports[i], ResolveSpec(env, lang, row.path, row.parsed.imports[i], index, metas))];
    }
    return FileResolutions(lang, items);
  }

  function CacheUpTo(
    env: Foreign, rows: seq<ParsedRow>, n: nat, index: set<Text>, metas: Metas): map<Text, FileResolutions>
    requires n <= |rows|
  {
    if n == 0 then map[] else
    CacheUpTo(env, rows, n - 1, index, metas)[rows[n - 1].path := Resolutions(env, rows[n - 1], index, metas)]
  }

  /** The next snapshot's cache is sound for the index and metadata it was
      filled under. */
  lemma {:induction false} CacheSound(env: Foreign, rows: seq<ParsedRow>, n: nat, index: set<Text>, metas: Metas)
    requires n <= |rows|
    ensures ReuseSound(env, Reuse(CacheUpTo(env, rows, n, index, metas), {}), index, metas)
  {
    if n > 0 {
      CacheSound(env, rows, n - 1, index, metas);
      var e := Resolutions(env, rows[n - 1], index, metas);
      assert Specs(e.items) == rows[n - 1].parsed.imports;
    }
  }

  method NumberSymbols(
    rows: seq<ParsedRow>) returns (files: seq<CodeFile>, symbols: seq<CodeSymbol>, ids: map<Text, nat>)
    ensures files == FilesOf(rows) && symbols == SymbolsOf(rows) && ids == IndexOf(rows)
  {
    files, symbols, ids := [], [], map[];
    for i := 0 to |rows|
      invariant files == FilesOf(rows)[..i] && symbols == SymbolsUpTo(rows, i) && ids == IndexUpTo(rows, i)
    {
      files := files + [CodeFile(i, rows[i].path, rows[i].language, rows[i].loc, rows[i].sha)];
      symbols := symbols + Renumber(rows[i].parsed.symbols, |symbols|, i);
      ids := ids[rows[i].path := i];
    }
  }

  method CollectImports(
    env: Foreign, rows: seq<ParsedRow>, ids: map<Text, nat>, index: set<Text>, metas: Metas, reuse: Option<Reuse>)
    returns (edges: seq<CodeEdge>, cache: map<Text, FileResolutions>)
    requires ids == IndexOf(rows)
    requires reuse.Some? ==> ReuseSound(env, reuse.value, index, metas)
    ensures edges == ImportEdges(env, rows, |rows|, index, metas)
    ensures cache == CacheUpTo(env, rows, |rows|, index, metas)
  {
    edges, cache := [], map[];
    for i := 0 to |rows|
      invariant edges == ImportEdges(env, rows, i, index, metas) && cache == CacheUpTo(env, rows, i, index, metas)
    {
      var e := ResolveRow(env, rows[i], index, metas, reuse);
      var more := [];
      if rows[i].path in ids {
        var from := ids[rows[i].path];
        for k := 0 to |e.items|
          invariant more == ItemEdges(from, e.items, k, ids)
        {
          more := more + ResolutionEdges(from, e.items[k].1, ids);
        }
      }
      edges := edges + more;
      cache := cache[rows[i].path := e];
    }
  }

  /** Every name among the first `n` symbols, with its symbols in id order. */
  ghost predicate NamesOf(byName: map<Text, seq<nat>>, symbols: seq<CodeSymbol>, n: nat)
    requires n <= |symbols|
  {
    forall name :: IsNamed(byName, name, Named(symbols, n, name))
  }

  predicate IsNamed(byName: map<Text, seq<nat>>, name: Text, ids: seq<nat>) {
    (name in byName <==> ids != []) && (name in byName ==> byName[name] == ids)
  }

  /** Symbols by name, each list in id order. */
  method NameMap(symbols: seq<CodeSymbol>) returns (byName: map<Text, seq<nat>>)
    ensures NamesOf(byName, symbols, |symbols|)
  {
    byName := map[];
    for i := 0 to |symbols|
      invariant NamesOf(byName, symbols, i)
    {
      var s := symbols[i];
      byName := byName[s.name := (if s.name in byName then byName[s.name] else []) + [s.id]];
    }
  }

  method FileSites(
    inFile: seq<CodeSymbol>, calls: seq<(Text, u32)>, symbols: seq<CodeSymbol>, byName: map<Text, seq<nat>>)
    returns (sites: seq<CallSite>)
    requires NamesOf(byName, symbols, |symbols|)
    ensures sites == Flatten(SitesPerCall(inFile, calls, symbols))
  {
    sites := [];
    var callers := EnclosingSymbols(inFile, calls);
    ghost var per := SitesPerCall(inFile, calls, symbols);
    for c := 0 to |calls|
      invariant sites == Flatten(per[..c])
    {
      assert per[..c + 1][..c] == per[..c];
      var site := SiteFor(inFile, calls[c], callers[c], symbols, byName);
      sites := sites + site;
    }
    assert per[..|calls|] == per;
  }

  method SiteFor(
    inFile: seq<CodeSymbol>, call: (Text, u32), caller: Option<nat>, ghost symbols: seq<CodeSymbol>,
    byName: map<Text, seq<nat>>)
    returns (site: seq<CallSite>)
    requires NamesOf(byName, symbols, |symbols|) && caller == LinearScan(inFile, call.1)
    ensures site == SiteOf(inFile, call, symbols)
  {
    var short := ShortName(call.0);
    assert IsNamed(byName, short, Named(symbols, |symbols|, short));
    if caller.Some? && short in byName && |byName[short]| <= MAX_SYNTACTIC_CALL_TARGETS {
      return [(inFile[caller.value].id, byName[short])];
    }
    return [];
  }

  lemma FileSlice(rows: seq<ParsedRow>, i: nat, symbols: seq<CodeSymbol>, base: nat)
    requires i < |rows| && symbols == SymbolsOf(rows) && base == Base(rows, i)
    ensures base + |rows[i].parsed.symbols| == Base(rows, i + 1) && base + |rows[i].parsed.symbols| <= |symbols|
    ensures symbols[base..base + |rows[i].parsed.symbols|] == FileSymbols(rows, i)
  {
    SymbolRanges(rows, i);
    assert Base(rows, i + 1) == base + |rows[i].parsed.symbols|;
  }

  /** The call sites of one row, whose symbols start at `base`. */
  method CollectRowSites(rows: seq<ParsedRow>, i: nat, symbols: seq<CodeSymbol>, byName: map<Text, seq<nat>>, base: nat)
    returns (sites: seq<CallSite>)
    requires i < |rows| && symbols == SymbolsOf(rows) && base == Base(rows, i)
    requires NamesOf(byName, symbols, |symbols|)
    ensures sites == RowSites(rows, i) && base + |rows[i].parsed.symbols| == Base(rows, i + 1)
  {
    FileSlice(rows, i, symbols, base);
    sites := FileSites(symbols[base..base + |rows[i].parsed.symbols|], rows[i].parsed.calls, symbols, byName);
  }

  method CollectSites(rows: seq<ParsedRow>, symbols: seq<CodeSymbol>) returns (sites: seq<seq<CallSite>>)
    requires symbols == SymbolsOf(rows)
    ensures sites == AllSites(rows)
  {
    var byName := NameMap(symbols);
    ghost var f := SitesByRow(rows);
    sites := [];
    var base := 0;
    for i := 0 to |rows|
      invariant base == Base(rows, i) && sites == Table(i, f)
    {
      var s := CollectRowSites(rows, i, symbols, byName, base);
      assert s == f(i);
      sites := sites + [s];
      base := base + |rows[i].parsed.symbols|;
    }
  }

  /** Parsed rows in any order become the graph of their sorted list, whether
      resolutions are reused or computed afresh. */
  method AssembleGraph(
    env: Foreign, parsed: seq<ParsedRow>, index: set<Text>, metas: Metas, callEdges: bool, reuse: Option<Reuse>)
    returns (graph: CodeGraph, cache: map<Text, FileResolutions>)
    requires reuse.Some? ==> ReuseSound(env, reuse.value, index, metas)
    ensures IsGraphOf(graph, env, Sort(parsed, RowLe), index, metas, callEdges)
    ensures cache == CacheUpTo(env, Sort(parsed, RowLe), |Sort(parsed, RowLe)|, index, metas)
  {
    var rows := Sort(parsed, RowLe);
    var files, symbols, ids := NumberSymbols(rows);
    var imports;
    imports, cache := CollectImports(env, rows, ids, index, metas, reuse);
    var edges := imports + AllRefEdges(env.languages, metas, ids) + LinkAll(env.pairs(files), Pair);
    FileLevelUniform(env, rows, index, metas);
    var merged;
    if callEdges {
      var sites := CollectSites(rows, symbols);
      SitesWithin(rows);
      edges := edges + LinkAll(env.implements(files, symbols, edges), Inherit);
      merged := BuildEdges(edges, sites, Bounds(rows));
    } else {
      merged := SortAndMerge(edges);
    }
    graph := CodeGraph(files, symbols, merged);
  }
}
