/** The incremental index: a snapshot absorbs change sets and keeps agreeing
    with a cold build of the current tree. */
module Incremental {
  import opened Types
  import opened Sorting
  import opened Assembly
  import opened ParseOne
  import opened Resolvers
  import PC = ProductCache

  /** Everything outside the index that stays fixed over a run. */
  datatype World = World(
    env: Foreign, frontend: Frontend, detector: Detector,
    maxFileBytes: nat, callEdges: bool, cacheBytes: nat, slot: nat, weight: ParsedFile -> nat)

  datatype ChangeSet = ChangeSet(added: set<Text>, modified: set<Text>, removed: set<Text>)

  datatype Snapshot = Snapshot(
    graph: CodeGraph, files: set<Text>, products: PC.Entries, generation: nat,
    failures: map<Text, Reason>, retries: map<Text, nat>,
    resolvers: ResolverSet, resolutions: map<Text, FileResolutions>)

  const MAX_FAILURE_RETRIES: nat := 3

  /** A failure that says nothing about the bytes, so the file is tried again. */
  predicate IsTransient(r: Reason) { r.ReadError? || r.Timeout? || r.NoTree? }

  function Scan(w: World, tree: Tree): set<Text> { set p | p in tree && |tree[p]| <= w.maxFileBytes }

  function View(tree: Tree, files: set<Text>): Tree { map p | p in tree && p in files :: tree[p] }

  /** Files of an index: scanned and not under a declared exclude. */
  function Admitted(files: set<Text>, dirs: set<Text>): set<Text> { set p | p in files && !Excluded(p, dirs) }

  function OutcomeOf(w: World, tree: Tree, p: Text): Outcome
    requires p in tree
  { Index(w.frontend, p, tree[p]) }

  /** The rows of a set of files. */
  ghost predicate RowsFor(w: World, tree: Tree, files: set<Text>, rows: seq<ParsedRow>) {
    && DistinctPaths(rows)
    && (forall r :: r in rows <==> r.path in files && r.path in tree && OutcomeOf(w, tree, r.path) == Row(r))
  }

  ghost predicate GraphOfFiles(
    g: CodeGraph, w: World, tree: Tree, files: set<Text>, index: set<Text>, metas: Metas) {
    exists rows :: RowsFor(w, tree, files, rows) && SortedBy(rows, RowLe)
        && IsGraphOf(g, w.env, rows, index, metas, w.callEdges)
  }

  /** The graph a cold build of a tree produces. */
  ghost predicate ColdGraph(g: CodeGraph, w: World, tree: Tree) {
    var resolvers := Detect(w.detector, View(tree, Scan(w, tree)));
    var files := Admitted(Scan(w, tree), DeclaredExcludes(resolvers.metas));
    GraphOfFiles(g, w, tree, files, files, resolvers.metas)
  }

  /** Premises of a run: declared excludes stay `dirs`, detection depends on
      what it read and not on excluded files, parse errors are honest. */
  ghost predicate Premises(w: World, dirs: set<Text>) {
    && Local(w.detector) && BlindTo(w.detector, dirs) && HonestReasons(w.frontend)
  }

  ghost predicate ExcludesAre(w: World, tree: Tree, dirs: set<Text>) {
    DeclaredExcludes(Detect(w.detector, View(tree, Scan(w, tree))).metas) == dirs
  }

  /** The change set is the exact difference of two trees; a file may also be
      reported modified without a change. */
  ghost predicate Exact(c: ChangeSet, before: Tree, after: Tree) {
    && c.added == after.Keys - before.Keys
    && c.removed == before.Keys - after.Keys
    && c.modified <= before.Keys * after.Keys
    && (forall p :: p in before && p in after && before[p] != after[p] ==> p in c.modified)
  }

  function RowOf(path: Text, p: PC.Product): ParsedRow { ParsedRow(path, p.language, p.sha, p.loc, p.parsed) }

  /** The snapshot invariant: every held product is the parse of the current
      bytes, every failure is the current outcome, and every held resolution is
      what resolution returns now. */
  ghost predicate Sound(w: World, dirs: set<Text>, tree: Tree, s: Snapshot) {
    && s.files == Admitted(Scan(w, tree), dirs)
    && s.resolvers == Detect(w.detector, View(tree, Scan(w, tree)))
    && ProductsSound(w, tree, s.files, s.products)
    && FailuresOf(w, tree, s.files, s.failures)
    && ReuseSound(w.env, Reuse(s.resolutions, {}), s.files, s.resolvers.metas)
    && PC.Total(s.products, w.slot) <= Budget(w)
  }

  ghost predicate ProductsSound(w: World, tree: Tree, files: set<Text>, products: PC.Entries) {
    forall p :: p in products ==>
      && p in files && p in tree && OutcomeOf(w, tree, p) == Row(RowOf(p, products[p].0))
      && products[p].0.weight == w.weight(products[p].0.parsed)
  }

  /** What an outcome leaves on the failure list. */
  function FailureOf(o: Outcome): Option<Reason> {
    match o case Skipped => None case Failed(r) => Some(r) case Row(row) => NoteOf(row)
  }

  /** The failure list holds the current outcome of each file it names, and it
      names every file whose outcome is a failure or a partial parse. */
  ghost predicate FailuresOf(w: World, tree: Tree, paths: set<Text>, failures: map<Text, Reason>) {
    && (forall p :: p in failures <==> p in paths && p in tree && FailureOf(OutcomeOf(w, tree, p)).Some?)
    && (forall p :: p in failures ==> FailureOf(OutcomeOf(w, tree, p)) == Some(failures[p]))
  }

  /** Files noted as partial whose product was evicted and which the change set
      does not touch: the sticky-failure branch takes them for permanent
      failures, although they belong in the index. */
  ghost function EvictedPartials(s: Snapshot, c: ChangeSet): set<Text> {
    set p | p in s.failures && s.failures[p].Partial? && p !in s.products && p !in c.modified && p !in c.removed
  }

  // ------------------------------------------------------ rows and graphs

  lemma RowsUnique(w: World, tree: Tree, files: set<Text>, a: seq<ParsedRow>, b: seq<ParsedRow>)
    requires RowsFor(w, tree, files, a) && RowsFor(w, tree, files, b)
    requires SortedBy(a, RowLe) && SortedBy(b, RowLe)
    ensures a == b
  {
    assert forall r :: r in a <==> r in b;
    SortedSetsUnique(a, b);
  }

  lemma SameHead(a: seq<ParsedRow>, b: seq<ParsedRow>)
    requires a != [] && b != [] && DistinctPaths(b) && SortedBy(a, RowLe) && SortedBy(b, RowLe)
    requires a[0] in b && b[0] in a
    ensures a[0] == b[0]
  {
    RowOrder();
    TextOrder();
    SortedHeadLeast(a, b[0], RowLe);
    SortedHeadLeast(b, a[0], RowLe);
    var j :| 0 <= j < |b| && b[j] == a[0];
    assert b[0].path == a[0].path;
  }

  lemma TailMembers(a: seq<ParsedRow>, r: ParsedRow)
    requires a != [] && DistinctPaths(a)
    ensures r in a[1..] <==> r in a && r != a[0]
  {
    assert a == [a[0]] + a[1..];
    if r in a[1..] { var i :| 0 <= i < |a[1..]| && a[1..][i] == r; assert a[i + 1] == r; }
  }

  lemma {:induction false} SortedSetsUnique(a: seq<ParsedRow>, b: seq<ParsedRow>)
    requires DistinctPaths(a) && DistinctPaths(b) && SortedBy(a, RowLe) && SortedBy(b, RowLe)
    requires forall r :: r in a <==> r in b
    ensures a == b
  {
    assert b == [] || b[0] in b;
    if a != [] {
      assert a[0] in a;
      SameHead(a, b);
      forall r ensures r in a[1..] <==> r in b[1..] {
        TailMembers(a, r);
        TailMembers(b, r);
      }
      SortedSetsUnique(a[1..], b[1..]);
      assert a == [a[0]] + a[1..] && b == [b[0]] + b[1..];
    }
  }

  /** Graphs of nested file sets are equal exactly if the extra files have no
      row. */
  lemma GraphsAgree(
    g: CodeGraph, h: CodeGraph, w: World, tree: Tree, fg: set<Text>, fh: set<Text>, index: set<Text>, metas: Metas)
    requires fg <= fh <= tree.Keys
    requires GraphOfFiles(g, w, tree, fg, index, metas) && GraphOfFiles(h, w, tree, fh, index, metas)
    ensures g == h <==> (forall p :: p in fh && p !in fg ==> !OutcomeOf(w, tree, p).Row?)
  {
    var a: seq<ParsedRow> :| RowsFor(w, tree, fg, a) && SortedBy(a, RowLe)
        && IsGraphOf(g, w.env, a, index, metas, w.callEdges);
    var b: seq<ParsedRow> :| RowsFor(w, tree, fh, b) && SortedBy(b, RowLe)
        && IsGraphOf(h, w.env, b, index, metas, w.callEdges);
    if forall p :: p in fh && p !in fg ==> !OutcomeOf(w, tree, p).Row? {
      SameRows(w, tree, fg, fh, b);
      RowsUnique(w, tree, fg, a, b);
      GraphUnique(g, h, w.env, a, index, metas, w.callEdges);
    } else {
      var p :| p in fh && p !in fg && OutcomeOf(w, tree, p).Row?;
      MissingPath(w, tree, fg, a, p);
      PresentPath(w, tree, fh, b, p);
    }
  }

  lemma SameRows(w: World, tree: Tree, fg: set<Text>, fh: set<Text>, rows: seq<ParsedRow>)
    requires fg <= fh <= tree.Keys && RowsFor(w, tree, fh, rows)
    requires forall p :: p in fh && p !in fg ==> !OutcomeOf(w, tree, p).Row?
    ensures RowsFor(w, tree, fg, rows)
  {}

  lemma PresentPath(w: World, tree: Tree, files: set<Text>, rows: seq<ParsedRow>, p: Text)
    requires RowsFor(w, tree, files, rows) && p in files && p in tree && OutcomeOf(w, tree, p).Row?
    ensures exists f :: f in FilesOf(rows) && f.path == p
  {
    assert OutcomeOf(w, tree, p).row in rows;
    var j :| 0 <= j < |rows| && rows[j] == OutcomeOf(w, tree, p).row;
    assert FilesOf(rows)[j].path == p;
  }

  lemma MissingPath(w: World, tree: Tree, files: set<Text>, rows: seq<ParsedRow>, p: Text)
    requires RowsFor(w, tree, files, rows) && p !in files
    ensures forall f :: f in FilesOf(rows) ==> f.path != p
  {
    forall j | 0 <= j < |rows| ensures FilesOf(rows)[j].path != p { assert rows[j] in rows; }
  }

  // ---------------------------------------------------------- cold build

  method ParsePaths(w: World, tree: Tree, paths: set<Text>)
    returns (rows: seq<ParsedRow>, failures: map<Text, Reason>)
    requires paths <= tree.Keys
    ensures RowsFor(w, tree, paths, rows)
    ensures FailuresOf(w, tree, paths, failures)
  {
    rows, failures := [], map[];
    var todo := paths;
    while todo != {}
      invariant todo <= paths
      invariant RowsFor(w, tree, paths - todo, rows)
      invariant FailuresOf(w, tree, paths - todo, failures)
      decreases todo
    {
      var path :| path in todo;
      todo := todo - {path};
      match OutcomeOf(w, tree, path)
      case Skipped =>
      case Failed(r) => failures := failures[path := r];
      case Row(row) =>
        RowsGrow(w, tree, paths - todo - {path}, rows, row);
        assert paths - todo - {path} + {path} == paths - todo;
        rows := rows + [row];
        match NoteOf(row)
        case None =>
        case Some(note) => failures := failures[path := note];
    }
    assert paths - todo == paths;
  }

  lemma RowsGrow(w: World, tree: Tree, files: set<Text>, rows: seq<ParsedRow>, row: ParsedRow)
    requires RowsFor(w, tree, files, rows) && row.path in tree && row.path !in files
    requires OutcomeOf(w, tree, row.path) == Row(row)
    ensures RowsFor(w, tree, files + {row.path}, rows + [row])
  {
    forall i | 0 <= i < |rows| ensures rows[i].path != row.path { assert rows[i] in rows; }
  }

  lemma RowsConcat(w: World, tree: Tree, fa: set<Text>, fb: set<Text>, a: seq<ParsedRow>, b: seq<ParsedRow>)
    requires fa !! fb && RowsFor(w, tree, fa, a) && RowsFor(w, tree, fb, b)
    ensures RowsFor(w, tree, fa + fb, a + b)
  {
    forall i, j | 0 <= i < |a| && 0 <= j < |b| ensures a[i].path != b[j].path {
      assert a[i] in a && b[j] in b;
    }
  }

  lemma RowsSorted(w: World, tree: Tree, files: set<Text>, rows: seq<ParsedRow>)
    requires RowsFor(w, tree, files, rows)
    ensures RowsFor(w, tree, files, Sort(rows, RowLe)) && SortedBy(Sort(rows, RowLe), RowLe)
  {
    SortDistinct(rows);
    RowOrder();
    SortCorrect(rows, RowLe);
  }

  function ProductOf(w: World, row: ParsedRow): PC.Product {
    PC.Product(row.language, row.sha, row.loc, row.parsed, w.weight(row.parsed))
  }

  function Budget(w: World): nat { if w.cacheBytes >= 1 then w.cacheBytes else 1 }

  /** The held entries with one of this generation for each row put over them. */
  ghost predicate Filled(w: World, reused: PC.Entries, rows: seq<ParsedRow>, generation: nat, full: PC.Entries) {
    && (forall p :: p in full <==> p in reused || exists r :: r in rows && r.path == p)
    && (forall r :: r in rows ==> r.path in full && full[r.path] == (ProductOf(w, r), generation))
    && (forall p :: p in reused && (forall r :: r in rows ==> r.path != p) ==> full[p] == reused[p])
  }

  lemma FillStep(w: World, reused: PC.Entries, rows: seq<ParsedRow>, generation: nat, full: PC.Entries, row: ParsedRow)
    requires Filled(w, reused, rows, generation, full) && forall r :: r in rows ==> r.path != row.path
    ensures Filled(w, reused, rows + [row], generation, full[row.path := (ProductOf(w, row), generation)])
  {
    assert forall r :: r in rows + [row] <==> r in rows || r == row;
  }

  /** Carry products over, put the freshly parsed ones over them, then evict the
      shortest oldest-first part that exceeds the budget. */
  method FillProducts(w: World, reused: PC.Entries, rows: seq<ParsedRow>, generation: nat)
    returns (products: PC.Entries, ghost full: PC.Entries)
    requires DistinctPaths(rows)
    ensures Filled(w, reused, rows, generation, full)
    ensures PC.EvictedTo(full, products, Budget(w), w.slot)
  {
    var cache := new PC.ParseProductCache(w.cacheBytes, generation, w.slot);
    CarryProducts(cache, reused);
    AddRows(w, cache, reused, rows);
    full := cache.entries;
    cache.RunPending();
    products := cache.entries;
  }

  method CarryProducts(cache: PC.ParseProductCache, reused: PC.Entries)
    requires cache.Valid() && cache.entries == map[]
    modifies cache
    ensures cache.Valid() && cache.entries == reused
  {
    var todo := reused;
    while todo != map[]
      invariant cache.Valid() && cache.entries == reused - todo.Keys
      invariant todo.Keys <= reused.Keys && forall p :: p in todo ==> todo[p] == reused[p]
      decreases |todo|
    {
      var p :| p in todo;
      assert (reused - todo.Keys)[p := reused[p]] == reused - (todo - {p}).Keys;
      cache.InsertAt(p, todo[p].0, todo[p].1);
      todo := todo - {p};
    }
    assert reused - {} == reused;
  }

  method AddRows(w: World, cache: PC.ParseProductCache, ghost reused: PC.Entries, rows: seq<ParsedRow>)
    requires cache.Valid() && cache.entries == reused && DistinctPaths(rows)
    modifies cache
    ensures cache.Valid() && Filled(w, reused, rows, cache.generation, cache.entries)
  {
    for i := 0 to |rows|
      invariant cache.Valid() && Filled(w, reused, rows[..i], cache.generation, cache.entries)
    {
      PathNotBefore(rows, i);
      FillStep(w, reused, rows[..i], cache.generation, cache.entries, rows[i]);
      cache.Insert(rows[i].path, ProductOf(w, rows[i]));
    }
    assert rows[..|rows|] == rows;
  }

  lemma PathNotBefore(rows: seq<ParsedRow>, i: nat)
    requires i < |rows| && DistinctPaths(rows)
    ensures rows[..i + 1] == rows[..i] + [rows[i]]
    ensures forall r :: r in rows[..i] ==> r.path != rows[i].path
  {
    forall r | r in rows[..i] ensures r.path != rows[i].path {
      var k :| 0 <= k < i && rows[k] == r;
    }
  }

  /** The products of all rows of a set of files, `full`, less what eviction
      dropped to meet the budget, are held. */
  ghost predicate Retains(w: World, tree: Tree, files: set<Text>, full: PC.Entries, products: PC.Entries) {
    && (forall p :: p in full <==> p in files && p in tree && OutcomeOf(w, tree, p).Row?)
    && (forall p :: p in full ==> var r := OutcomeOf(w, tree, p).row;
          full[p].0 == PC.Product(r.language, r.sha, r.loc, r.parsed, w.weight(r.parsed)))
    && PC.EvictedTo(full, products, Budget(w), w.slot)
  }

  /** Fresh rows and held entries together are the products of all their files. */
  lemma FilledRows(
    w: World, tree: Tree, parsed: set<Text>, reused: PC.Entries, rows: seq<ParsedRow>, generation: nat,
    full: PC.Entries)
    requires RowsFor(w, tree, parsed, rows) && Filled(w, reused, rows, generation, full)
    requires reused.Keys !! parsed && ProductsSound(w, tree, reused.Keys, reused)
    ensures forall p :: p in full <==> p in reused || (p in parsed && p in tree && OutcomeOf(w, tree, p).Row?)
    ensures forall p :: p in full && p !in reused ==>
      full[p] == (ProductOf(w, OutcomeOf(w, tree, p).row), generation)
    ensures forall p :: p in reused ==> full[p] == reused[p]
    ensures ProductsSound(w, tree, full.Keys, full)
  {
    forall p
      ensures (exists r :: r in rows && r.path == p) <==> p in parsed && p in tree && OutcomeOf(w, tree, p).Row?
    {
      if p in parsed && p in tree && OutcomeOf(w, tree, p).Row? { assert OutcomeOf(w, tree, p).row in rows; }
    }
    forall p | p in full && p !in reused
      ensures full[p] == (ProductOf(w, OutcomeOf(w, tree, p).row), generation)
    {
      var r :| r in rows && r.path == p;
    }
  }

  /** Cold build of a tree. */
  method Build(w: World, ghost dirs: set<Text>, tree: Tree) returns (s: Snapshot)
    requires Premises(w, dirs) && ExcludesAre(w, tree, dirs)
    ensures Sound(w, dirs, tree, s) && ColdGraph(s.graph, w, tree)
    ensures s.generation == 0 && s.retries == map[]
    ensures exists full: PC.Entries ::
      Retains(w, tree, s.files, full, s.products) && forall p :: p in full ==> full[p].1 == 0
  {
    var scanned := Scan(w, tree);
    var resolvers := Detect(w.detector, View(tree, scanned));
    var files := Admitted(scanned, DeclaredExcludes(resolvers.metas));
    var rows, failures := ParsePaths(w, tree, files);
    ghost var full;
    var products;
    products, full := FillProducts(w, map[], rows, 0);
    FilledRows(w, tree, files, map[], rows, 0, full);
    assert Retains(w, tree, files, full, products);
    var graph, resolutions := AssembleGraph(w.env, rows, files, resolvers.metas, w.callEdges, None);
    RowsSorted(w, tree, files, rows);
    CacheSound(w.env, Sort(rows, RowLe), |Sort(rows, RowLe)|, files, resolvers.metas);
    s := Snapshot(graph, files, products, 0, failures, map[], resolvers, resolutions);
  }

  // --------------------------------------------------------------- apply

  /** The file set after a change set, and the files to parse again.  A live
      edit past the size cap leaves the index as a restart would drop it. */
  method UpdateFiles(
    w: World, files0: set<Text>, after: Tree, c: ChangeSet) returns (files: set<Text>, dirty: set<Text>)
    ensures dirty == set p | p in c.added + c.modified && !(p in after && |after[p]| > w.maxFileBytes)
    ensures files == set p | p in files0 - c.removed + c.added + c.modified
      && (p in c.added + c.modified ==> p in dirty)
  {
    files := files0 - c.removed + c.added + c.modified;
    dirty := c.added + c.modified;
    var todo := dirty;
    ghost var all := files;
    while todo != {}
      invariant todo <= dirty <= c.added + c.modified
      invariant forall p :: p in c.added + c.modified && p !in todo ==>
        (p in dirty <==> !(p in after && |after[p]| > w.maxFileBytes))
      invariant forall p :: p in files <==> p in all && (p in c.added + c.modified ==> p in dirty)
      decreases todo
    {
      var path :| path in todo;
      todo := todo - {path};
      if path in after && |after[path]| > w.maxFileBytes {
        files := files - {path};
        dirty := dirty - {path};
      }
    }
  }

  lemma UpdatedFiles(
    w: World, dirs: set<Text>, before: Tree, after: Tree, c: ChangeSet, files0: set<Text>, files: set<Text>,
    dirty: set<Text>)
    requires files0 == Admitted(Scan(w, before), dirs) && Exact(c, before, after)
    requires dirty == set p | p in c.added + c.modified && !(p in after && |after[p]| > w.maxFileBytes)
    requires files == set p | p in files0 - c.removed + c.added + c.modified
        && (p in c.added + c.modified ==> p in dirty)
    ensures files <= Scan(w, after)
    ensures forall p :: p in Scan(w, after) && p !in files ==> Excluded(p, dirs)
    ensures Admitted(files, dirs) == Admitted(Scan(w, after), dirs)
    ensures forall p :: p in files && p !in dirty ==> p in files0 && p in before && after[p] == before[p]
    ensures Admitted(files0, dirs) == files0
  {
    forall p | p in Scan(w, after) && p !in files ensures Excluded(p, dirs) {
      assert p in before && p !in c.modified;
      assert before[p] == after[p];
      assert p in Scan(w, before);
    }
  }

  /** Detection over the files at hand equals detection by a cold build. */
  method UpdateResolvers(
    w: World, ghost dirs: set<Text>, ghost before: Tree, prev: Snapshot, after: Tree, c: ChangeSet, files: set<Text>)
    returns (resolvers: ResolverSet, changed: Option<set<Language>>)
    requires Premises(w, dirs) && Sound(w, dirs, before, prev) && Exact(c, before, after)
    requires files <= Scan(w, after) && forall p :: p in Scan(w, after) && p !in files ==> Excluded(p, dirs)
    ensures resolvers == Detect(w.detector, View(after, Scan(w, after)))
    ensures changed.Some? <==> files == prev.files
    ensures changed.Some? ==> resolvers.metas.Keys == prev.resolvers.metas.Keys
    ensures changed.Some? ==>
      forall l :: l in resolvers.metas && l !in changed.value ==>
        l in prev.resolvers.metas && resolvers.metas[l] == prev.resolvers.metas[l]
  {
    BlindDetect(w.detector, dirs, View(after, Scan(w, after)), View(after, files));
    if files == prev.files {
      BlindDetect(w.detector, dirs, View(before, Scan(w, before)), View(before, prev.files));
      assert View(before, prev.files).Keys == prev.files && View(after, files).Keys == files;
      var ch;
      resolvers, ch := Redetect(w.detector, prev.resolvers, View(before, prev.files), View(after, files), c.modified);
      UptoAll(w.detector, View(after, files));
      SameLanguages(w.detector, View(before, prev.files), View(after, files));
      changed := Some(ch);
    } else {
      resolvers := Detect(w.detector, View(after, files));
      changed := None;
    }
  }

  datatype Decision =
    | Skip
    | TakeHeld(row: ParsedRow, note: Option<Reason>)
    | Keep(reason: Reason, tries: nat)
    | Parse(retry: Option<nat>)

  /** One file of the new index: parse again, reuse, keep a failure, or skip. */
  function Classify(w: World, prev: Snapshot, after: Tree, path: Text, dirty: bool): Decision
    requires path in after
  {
    var known := w.frontend.langOfPath(path) != None;
    if dirty then Parse(None)
    else if !known && !w.frontend.shebangCandidate(path) then Skip
    else if !known && path !in prev.products && !w.frontend.hasShebang(after[path]) then Skip
    else if path in prev.products then
      var row := RowOf(path, prev.products[path].0);
      TakeHeld(row,
        if row.parsed.partialParse then Some(Partial(row.parsed.cFamilyRewrite))
        else if path in prev.failures && prev.failures[path].Partial? then Some(prev.failures[path])
        else None)
    else if path in prev.failures then
      var tries := if path in prev.retries then prev.retries[path] else 0;
      if IsTransient(prev.failures[path]) && tries < MAX_FAILURE_RETRIES then Parse(Some(tries + 1))
      else Keep(prev.failures[path], tries)
    else Parse(None)
  }

  /** An untouched file of a sound snapshot is decided rightly, except that a
      partial parse without its product is kept out as a failure. */
  lemma ClassifySound(w: World, dirs: set<Text>, before: Tree, prev: Snapshot, after: Tree, path: Text)
    requires Sound(w, dirs, before, prev) && path in prev.files
    requires path in before && path in after && after[path] == before[path]
    ensures match Classify(w, prev, after, path, false)
      case Skip => OutcomeOf(w, after, path) == Skipped
      case TakeHeld(row, note) =>
        path in prev.products && row == RowOf(path, prev.products[path].0)
        && OutcomeOf(w, after, path) == Row(row) && note == NoteOf(row)
      case Keep(reason, _) =>
        path in prev.failures && path !in prev.products && reason == prev.failures[path]
        && FailureOf(OutcomeOf(w, after, path)) == Some(reason)
      case Parse(_) =>
        path !in prev.products && (path in prev.failures ==> !prev.failures[path].Partial?)
  {
    assert OutcomeOf(w, after, path) == OutcomeOf(w, before, path);
  }

  datatype Plan = Plan(
    toParse: set<Text>, reused: seq<ParsedRow>, kept: PC.Entries, failures: map<Text, Reason>, retries: map<Text, nat>)

  function Extend(plan: Plan, prev: Snapshot, path: Text, d: Decision): Plan {
    match d
    case Skip => plan
    case TakeHeld(row, note) =>
      plan.(reused := plan.reused + [row],
            kept := if path in prev.products then plan.kept[path := prev.products[path]] else plan.kept,
            failures := if note.Some? then plan.failures[path := note.value] else plan.failures)
    case Keep(reason, tries) =>
      plan.(failures := plan.failures[path := reason], retries := plan.retries[path := tries])
    case Parse(retry) =>
      plan.(toParse := plan.toParse + {path},
            retries := if retry.Some? then plan.retries[path := retry.value] else plan.retries)
  }

  /** What the plan for the files seen so far amounts to. */
  ghost predicate Planned(w: World, tree: Tree, seen: set<Text>, lost: set<Text>, p: Plan) {
    && p.toParse <= seen <= tree.Keys
    && p.toParse !! lost
    && RowsFor(w, tree, seen - p.toParse - lost, p.reused)
    && FailuresOf(w, tree, seen - p.toParse, p.failures)
    && ProductsSound(w, tree, seen, p.kept)
  }

  function TriesOf(prev: Snapshot, p: Text): nat { if p in prev.retries then prev.retries[p] else 0 }

  /** Failures that a further attempt may not meet again. */
  predicate MayPass(r: Reason) { r == ReadError || r == Timeout || r == NoTree }

  /** A file whose bytes did not change is read again only if no product is held
      and no failure stands, or the failure may pass and was met less than three
      times. */
  predicate ReadAgain(w: World, prev: Snapshot, after: Tree, p: Text)
    requires p in after
  {
    WorthReading(w.frontend, p, after[p]) && p !in prev.products
    && (p in prev.failures ==> MayPass(prev.failures[p]) && TriesOf(prev, p) < 3)
  }

  function TriesAfter(prev: Snapshot, p: Text): nat
    requires p in prev.failures
  {
    if MayPass(prev.failures[p]) && TriesOf(prev, p) < 3 then TriesOf(prev, p) + 1 else TriesOf(prev, p)
  }

  /** What the plan makes of the files seen so far: which are parsed, which
      products are carried over, and how often failures were met. */
  ghost predicate PlanMade(w: World, prev: Snapshot, after: Tree, dirty: set<Text>, seen: set<Text>, plan: Plan) {
    && seen <= after.Keys
    && (forall p :: p in plan.toParse <==> p in seen && (p in dirty || ReadAgain(w, prev, after, p)))
    && (forall p :: p in plan.kept <==> p in seen && p !in dirty && p in prev.products)
    && (forall p :: p in plan.kept ==> plan.kept[p] == prev.products[p])
    && (forall p :: p in plan.retries <==> p in seen && p !in dirty && p in prev.failures && p !in prev.products)
    && (forall p :: p in plan.retries ==> plan.retries[p] == TriesAfter(prev, p))
  }

  /** What is decided for an untouched file of a sound snapshot. */
  lemma ClassifyPlans(w: World, dirs: set<Text>, before: Tree, prev: Snapshot, after: Tree, p: Text)
    requires Sound(w, dirs, before, prev) && p in before && p in after && after[p] == before[p]
    ensures var d := Classify(w, prev, after, p, false);
      && (d.TakeHeld? <==> p in prev.products)
      && (d.Parse? <==> ReadAgain(w, prev, after, p))
      && (d.Parse? ==> d.retry == if p in prev.failures then Some(TriesAfter(prev, p)) else None)
      && (d.Keep? ==> p in prev.failures && p !in prev.products && d.tries == TriesAfter(prev, p))
      && (d.Skip? ==> p !in prev.failures)
  {
    HeldAreWorth(w, dirs, before, prev, p);
  }

  lemma PlanMadeStep(
    w: World, dirs: set<Text>, before: Tree, prev: Snapshot, after: Tree, dirty: set<Text>, seen: set<Text>,
    path: Text, plan: Plan)
    requires Sound(w, dirs, before, prev) && PlanMade(w, prev, after, dirty, seen, plan)
    requires path !in seen && path in after
    requires path !in dirty ==> path in prev.files && path in before && after[path] == before[path]
    ensures PlanMade(w, prev, after, dirty, seen + {path},
              Extend(plan, prev, path, Classify(w, prev, after, path, path in dirty)))
  {
    var d := Classify(w, prev, after, path, path in dirty);
    if path !in dirty { ClassifyPlans(w, dirs, before, prev, after, path); }
    PlanMadeBy(w, prev, after, dirty, seen, path, plan, d);
  }

  lemma PlanMadeBy(
    w: World, prev: Snapshot, after: Tree, dirty: set<Text>, seen: set<Text>, path: Text, plan: Plan, d: Decision)
    requires PlanMade(w, prev, after, dirty, seen, plan) && path !in seen && path in after
    requires d.TakeHeld? <==> path !in dirty && path in prev.products
    requires d.Parse? <==> path in dirty || ReadAgain(w, prev, after, path)
    requires d.Parse? ==> d.retry == if path !in dirty
        && path in prev.failures then Some(TriesAfter(prev, path)) else None
    requires d.Keep? ==> path in prev.failures && path !in prev.products && d.tries == TriesAfter(prev, path)
    requires d.Skip? ==> path !in prev.failures
    ensures PlanMade(w, prev, after, dirty, seen + {path}, Extend(plan, prev, path, d))
  {}

  lemma HeldAreWorth(w: World, dirs: set<Text>, before: Tree, prev: Snapshot, p: Text)
    requires Sound(w, dirs, before, prev) && p in before
    ensures p in prev.products || p in prev.failures ==> WorthReading(w.frontend, p, before[p])
  {}

  method PlanFiles(
    w: World, ghost dirs: set<Text>, ghost before: Tree, prev: Snapshot, after: Tree, ghost lost: set<Text>,
    files: set<Text>, dirty: set<Text>) returns (plan: Plan)
    requires HonestReasons(w.frontend) && Sound(w, dirs, before, prev) && files <= after.Keys
    requires forall p :: p in files && p !in dirty ==> p in prev.files && p in before && after[p] == before[p]
    requires forall p :: p in files ==>
      (p in lost <==> p !in dirty && p in prev.failures && prev.failures[p].Partial? && p !in prev.products)
    ensures Planned(w, after, files, lost, plan) && PlanMade(w, prev, after, dirty, files, plan)
  {
    plan := Plan({}, [], map[], map[], map[]);
    var todo := files;
    ghost var seen := {};
    while todo != {}
      invariant todo <= files && seen == files - todo
      invariant PlanOk(w, prev, after, lost, dirty, seen, plan)
      decreases todo
    {
      var path :| path in todo;
      OneMoreSeen(files, todo, path);
      plan := PlanOne(w, dirs, before, prev, after, lost, seen, path, dirty, plan);
      todo, seen := todo - {path}, seen + {path};
    }
    assert seen == files;
  }

  lemma OneMoreSeen(files: set<Text>, todo: set<Text>, path: Text)
    requires todo <= files && path in todo
    ensures files - (todo - {path}) == files - todo + {path} && todo - {path} <= files
  {}

  method PlanOne(
    w: World, ghost dirs: set<Text>, ghost before: Tree, prev: Snapshot, after: Tree, ghost lost: set<Text>,
    ghost seen: set<Text>, path: Text, dirty: set<Text>, plan: Plan) returns (next: Plan)
    requires HonestReasons(w.frontend) && Sound(w, dirs, before, prev)
    requires PlanOk(w, prev, after, lost, dirty, seen, plan) && path !in seen && path in after
    requires path !in dirty ==> path in prev.files && path in before && after[path] == before[path]
    requires path in lost <==>
      path !in dirty && path in prev.failures && prev.failures[path].Partial? && path !in prev.products
    ensures PlanOk(w, prev, after, lost, dirty, seen + {path}, next)
  {
    PlanOkStep(w, dirs, before, prev, after, lost, dirty, seen, path, plan);
    next := Extend(plan, prev, path, Classify(w, prev, after, path, path in dirty));
  }

  ghost predicate PlanOk(
    w: World, prev: Snapshot, after: Tree, lost: set<Text>, dirty: set<Text>, seen: set<Text>, plan: Plan) {
    Planned(w, after, seen, lost, plan) && PlanMade(w, prev, after, dirty, seen, plan)
  }

  lemma PlanOkStep(
    w: World, dirs: set<Text>, before: Tree, prev: Snapshot, after: Tree, lost: set<Text>, dirty: set<Text>,
    seen: set<Text>, path: Text, plan: Plan)
    requires HonestReasons(w.frontend) && Sound(w, dirs, before, prev)
    requires PlanOk(w, prev, after, lost, dirty, seen, plan) && path !in seen && path in after
    requires path !in dirty ==> path in prev.files && path in before && after[path] == before[path]
    requires path in lost <==>
      path !in dirty && path in prev.failures && prev.failures[path].Partial? && path !in prev.products
    ensures PlanOk(w, prev, after, lost, dirty, seen + {path},
              Extend(plan, prev, path, Classify(w, prev, after, path, path in dirty)))
  {
    PlanStep(w, dirs, before, prev, after, lost, seen, path, path in dirty, plan);
    PlanMadeStep(w, dirs, before, prev, after, dirty, seen, path, plan);
  }

  lemma PlanStep(
    w: World, dirs: set<Text>, before: Tree, prev: Snapshot, after: Tree, lost: set<Text>,
    seen: set<Text>, path: Text, dirty: bool, plan: Plan)
    requires HonestReasons(w.frontend) && Sound(w, dirs, before, prev)
    requires Planned(w, after, seen, lost, plan) && path !in seen && path in after
    requires !dirty ==> path in prev.files && path in before && after[path] == before[path]
    requires path in lost <==> !dirty && path in prev.failures && prev.failures[path].Partial? && path !in prev.products
    ensures Planned(w, after, seen + {path}, lost, Extend(plan, prev, path, Classify(w, prev, after, path, dirty)))
  {
    if !dirty { ClassifySound(w, dirs, before, prev, after, path); }
    match Classify(w, prev, after, path, dirty)
    case Skip => PlanSkip(w, after, seen, lost, plan, path);
    case TakeHeld(row, note) => PlanReuse(w, after, seen, lost, plan, path, row, note, prev.products[path]);
    case Keep(reason, tries) => PlanKeep(w, after, seen, lost, plan, path, reason, plan.retries[path := tries]);
    case Parse(retry) =>
      PlanParse(w, after, seen, lost, plan, path,
          if retry.Some? then plan.retries[path := retry.value] else plan.retries);
  }

  lemma PlanSkip(w: World, tree: Tree, seen: set<Text>, lost: set<Text>, plan: Plan, path: Text)
    requires Planned(w, tree, seen, lost, plan) && path !in seen && path in tree
    requires OutcomeOf(w, tree, path) == Skipped
    ensures Planned(w, tree, seen + {path}, lost, plan)
  {}

  lemma PlanParse(w: World, tree: Tree, seen: set<Text>, lost: set<Text>, plan: Plan, path: Text, r: map<Text, nat>)
    requires Planned(w, tree, seen, lost, plan) && path !in seen && path in tree && path !in lost
    ensures Planned(w, tree, seen + {path}, lost, plan.(toParse := plan.toParse + {path}, retries := r))
  {
    assert seen + {path} - (plan.toParse + {path}) == seen - plan.toParse;
  }

  lemma PlanKeep(
    w: World, tree: Tree, seen: set<Text>, lost: set<Text>, plan: Plan, path: Text, reason: Reason, r: map<Text, nat>)
    requires Planned(w, tree, seen, lost, plan) && path !in seen && path in tree
    requires FailureOf(OutcomeOf(w, tree, path)) == Some(reason)
    requires path in lost <==> reason.Partial?
    ensures Planned(w, tree, seen + {path}, lost, plan.(failures := plan.failures[path := reason], retries := r))
  {
    assert seen + {path} - plan.toParse == seen - plan.toParse + {path};
  }

  lemma PlanReuse(
    w: World, tree: Tree, seen: set<Text>, lost: set<Text>, plan: Plan, path: Text, row: ParsedRow,
    note: Option<Reason>,
    entry: (PC.Product, nat))
    requires Planned(w, tree, seen, lost, plan) && path !in seen && path in tree && path !in lost
    requires OutcomeOf(w, tree, path) == Row(row) && note == NoteOf(row) && RowOf(path, entry.0) == row
    requires entry.0.weight == w.weight(entry.0.parsed)
    ensures Planned(w, tree, seen + {path}, lost, plan.(
      reused := plan.reused + [row], kept := plan.kept[path := entry],
      failures := if note.Some? then plan.failures[path := note.value] else plan.failures))
  {
    assert seen + {path} - plan.toParse - lost == seen - plan.toParse - lost + {path};
    assert seen + {path} - plan.toParse == seen - plan.toParse + {path};
    RowsGrow(w, tree, seen - plan.toParse - lost, plan.reused, row);
  }

  lemma FailuresUnion(
    w: World, tree: Tree, fa: set<Text>, fb: set<Text>, a: map<Text, Reason>, b: map<Text, Reason>)
    requires FailuresOf(w, tree, fa, a) && FailuresOf(w, tree, fb, b)
    ensures FailuresOf(w, tree, fa + fb, a + b)
  {}

  lemma ReuseCarries(
    env: Foreign, cache: map<Text, FileResolutions>, changed: set<Language>, index: set<Text>, was: Metas, now: Metas)
    requires ReuseSound(env, Reuse(cache, {}), index, was)
    requires was.Keys == now.Keys && forall l :: l in now && l !in changed ==> now[l] == was[l]
    ensures ReuseSound(env, Reuse(cache, changed), index, now)
  {
    forall p | p in cache && ResolverOwner(cache[p].lang) !in changed
      ensures cache[p].items == ResolveAll(env, cache[p].lang, p, Specs(cache[p].items), index, now)
    {
      var e := cache[p];
      assert e.items == ResolveAll(env, e.lang, p, Specs(e.items), index, was);
      assert ResolveAll(env, e.lang, p, Specs(e.items), index, now) == ResolveAll(env, e.lang, p, Specs(e.items),
          index, was);
    }
  }

  /** Reused rows and carried failures together with the parsed ones cover all
      files but the lost ones. */
  lemma PlanCompleted(
    w: World, after: Tree, files: set<Text>, lost: set<Text>, plan: Plan, rows: seq<ParsedRow>,
    failed: map<Text, Reason>)
    requires Planned(w, after, files, lost, plan) && plan.toParse <= files <= after.Keys && plan.toParse !! lost
    requires RowsFor(w, after, plan.toParse, rows) && FailuresOf(w, after, plan.toParse, failed)
    ensures RowsFor(w, after, files - lost, Sort(plan.reused + rows, RowLe))
        && SortedBy(Sort(plan.reused + rows, RowLe), RowLe)
    ensures FailuresOf(w, after, files, plan.failures + failed)
  {
    assert files - plan.toParse - lost + plan.toParse == files - lost;
    RowsConcat(w, after, files - plan.toParse - lost, plan.toParse, plan.reused, rows);
    RowsSorted(w, after, files - lost, plan.reused + rows);
    FailuresUnion(w, after, files - plan.toParse, plan.toParse, plan.failures, failed);
    assert files - plan.toParse + plan.toParse == files;
  }

  predicate Touched(c: ChangeSet, p: Text) { p in c.added || p in c.modified }

  /** Eviction aside, the next snapshot holds the product of every file in its
      graph: the earlier one, with its age, where the file was not touched and
      had one, else one of the new generation. */
  ghost predicate CarriesOver(
    w: World, prev: Snapshot, after: Tree, c: ChangeSet, files: set<Text>, products: PC.Entries) {
    exists full: PC.Entries ::
      && Retains(w, after, files - EvictedPartials(prev, c), full, products)
      && forall p :: p in full ==>
           full[p].1 == if !Touched(c, p) && p in prev.products then prev.products[p].1 else prev.generation + 1
  }

  /** Failures of untouched files are counted, and forgotten once the file is
      touched. */
  ghost predicate Counted(prev: Snapshot, c: ChangeSet, files: set<Text>, retries: map<Text, nat>) {
    forall p :: p in files ==>
      && (p in retries <==> !Touched(c, p) && p in prev.failures && p !in prev.products)
      && (p in retries ==> retries[p] == TriesAfter(prev, p))
  }

  /** The files of the next snapshot: unlike those touched, the others are
      unchanged files of the previous one. */
  ghost predicate FilesNext(
    dirs: set<Text>, before: Tree, prev: Snapshot, after: Tree, c: ChangeSet, files: set<Text>, dirty: set<Text>) {
    && files <= after.Keys && Exact(c, before, after)
    && (forall p :: p in files ==> p !in c.removed && (p in dirty <==> Touched(c, p)))
    && (forall p :: p in files && p !in dirty ==> p in prev.files && p in before && after[p] == before[p])
  }

  lemma PlannedProducts(
    w: World, dirs: set<Text>, before: Tree, prev: Snapshot, after: Tree, c: ChangeSet, files: set<Text>,
    dirty: set<Text>, plan: Plan, p: Text)
    requires HonestReasons(w.frontend) && Sound(w, dirs, before, prev)
    requires FilesNext(dirs, before, prev, after, c, files, dirty) && PlanMade(w, prev, after, dirty, files, plan)
    requires p in after
    ensures (p in plan.kept || (p in plan.toParse && OutcomeOf(w, after, p).Row?)) <==>
      p in files - EvictedPartials(prev, c) && OutcomeOf(w, after, p).Row?
  {
    if p in files && !Touched(c, p) {
      assert OutcomeOf(w, before, p) == OutcomeOf(w, after, p);
      HeldAreWorth(w, dirs, before, prev, p);
    }
  }

  lemma {:induction false} FilledCarries(
    w: World, dirs: set<Text>, before: Tree, prev: Snapshot, after: Tree, c: ChangeSet, files: set<Text>,
    dirty: set<Text>, plan: Plan, rows: seq<ParsedRow>, full: PC.Entries, products: PC.Entries)
    requires HonestReasons(w.frontend) && Sound(w, dirs, before, prev)
    requires FilesNext(dirs, before, prev, after, c, files, dirty)
    requires PlanMade(w, prev, after, dirty, files, plan) && ProductsSound(w, after, files, plan.kept)
    requires RowsFor(w, after, plan.toParse, rows)
    requires Filled(w, plan.kept, rows, prev.generation + 1, full) && PC.EvictedTo(full, products, Budget(w), w.slot)
    ensures CarriesOver(w, prev, after, c, files, products)
    ensures ProductsSound(w, after, files, products) && PC.Total(products, w.slot) <= Budget(w)
  {
    KeptApart(w, prev, after, dirty, files, plan);
    FilledRows(w, after, plan.toParse, plan.kept, rows, prev.generation + 1, full);
    forall p | p in after
      ensures p in full <==> p in files - EvictedPartials(prev, c) && OutcomeOf(w, after, p).Row?
    {
      PlannedProducts(w, dirs, before, prev, after, c, files, dirty, plan, p);
    }
    FullProducts(w, after, full);
    assert Retains(w, after, files - EvictedPartials(prev, c), full, products);
    FullAges(w, prev, after, c, files, dirty, plan, full);
    EvictedSound(w, after, files, full, products);
  }

  lemma KeptApart(w: World, prev: Snapshot, after: Tree, dirty: set<Text>, files: set<Text>, plan: Plan)
    requires PlanMade(w, prev, after, dirty, files, plan)
    ensures plan.kept.Keys !! plan.toParse
  {}

  lemma FullProducts(w: World, tree: Tree, full: PC.Entries)
    requires ProductsSound(w, tree, full.Keys, full)
    ensures forall p :: p in full ==> var r := OutcomeOf(w, tree, p).row;
      full[p].0 == PC.Product(r.language, r.sha, r.loc, r.parsed, w.weight(r.parsed))
  {}

  lemma FullAges(
    w: World, prev: Snapshot, after: Tree, c: ChangeSet, files: set<Text>, dirty: set<Text>, plan: Plan,
    full: PC.Entries)
    requires PlanMade(w, prev, after, dirty, files, plan)
    requires forall p :: p in files ==> (p in dirty <==> Touched(c, p))
    requires forall p :: p in full ==> p in files
    requires forall p :: p in full && p !in plan.kept ==> full[p].1 == prev.generation + 1
    requires forall p :: p in plan.kept ==> p in full && full[p] == plan.kept[p]
    ensures forall p :: p in full ==>
      full[p].1 == if !Touched(c, p) && p in prev.products then prev.products[p].1 else prev.generation + 1
  {}

  /** The file set and metadata of the next snapshot. */
  method NextFiles(w: World, ghost dirs: set<Text>, ghost before: Tree, prev: Snapshot, after: Tree, c: ChangeSet)
    returns (files: set<Text>, dirty: set<Text>, resolvers: ResolverSet, reuse: Option<Reuse>)
    requires Premises(w, dirs) && Sound(w, dirs, before, prev) && Exact(c, before, after) && ExcludesAre(w, after, dirs)
    ensures FilesNext(dirs, before, prev, after, c, files, dirty) && files == Admitted(Scan(w, after), dirs)
    ensures resolvers == Detect(w.detector, View(after, Scan(w, after)))
    ensures reuse.Some? ==> ReuseSound(w.env, reuse.value, files, resolvers.metas)
  {
    var updated;
    updated, dirty := UpdateFiles(w, prev.files, after, c);
    UpdatedFiles(w, dirs, before, after, c, prev.files, updated, dirty);
    var changed;
    resolvers, changed := UpdateResolvers(w, dirs, before, prev, after, c, updated);
    files := Admitted(updated, DeclaredExcludes(resolvers.metas));
    reuse := None;
    if changed.Some? {
      ReuseCarries(w.env, prev.resolutions, changed.value, files, prev.resolvers.metas, resolvers.metas);
      reuse := Some(Reuse(prev.resolutions, changed.value));
    }
  }

  lemma LostAmongFiles(
    w: World, dirs: set<Text>, before: Tree, prev: Snapshot, after: Tree, c: ChangeSet, files: set<Text>,
    dirty: set<Text>)
    requires Sound(w, dirs, before, prev) && FilesNext(dirs, before, prev, after, c, files, dirty)
    ensures forall p :: p in files ==>
      (p in EvictedPartials(prev, c) <==>
        p !in dirty && p in prev.failures && prev.failures[p].Partial? && p !in prev.products)
  {}

  lemma EvictedSound(w: World, tree: Tree, files: set<Text>, full: PC.Entries, products: PC.Entries)
    requires ProductsSound(w, tree, full.Keys, full) && full.Keys <= files
    requires PC.EvictedTo(full, products, Budget(w), w.slot)
    ensures ProductsSound(w, tree, files, products) && PC.Total(products, w.slot) <= Budget(w)
  {}

  /** Every failure that was met again is still on the list. */
  lemma RetriesStay(
    w: World, dirs: set<Text>, before: Tree, prev: Snapshot, after: Tree, c: ChangeSet, files: set<Text>,
    dirty: set<Text>, plan: Plan, failures: map<Text, Reason>)
    requires HonestReasons(w.frontend) && Sound(w, dirs, before, prev)
    requires FilesNext(dirs, before, prev, after, c, files, dirty) && PlanMade(w, prev, after, dirty, files, plan)
    requires FailuresOf(w, after, files, failures)
    ensures forall p :: p in plan.retries ==> p in failures
  {
    forall p | p in plan.retries ensures p in failures {
      assert OutcomeOf(w, before, p) == OutcomeOf(w, after, p);
    }
  }

  lemma RetriesCounted(
    w: World, prev: Snapshot, after: Tree, c: ChangeSet, files: set<Text>, dirty: set<Text>, plan: Plan)
    requires PlanMade(w, prev, after, dirty, files, plan)
    requires forall p :: p in files ==> (p in dirty <==> Touched(c, p))
    ensures Counted(prev, c, files, plan.retries)
  {}

  lemma ParsedSet(w: World, prev: Snapshot, after: Tree, c: ChangeSet, files: set<Text>, dirty: set<Text>, plan: Plan)
    requires PlanMade(w, prev, after, dirty, files, plan)
    requires forall p :: p in files ==> (p in dirty <==> Touched(c, p))
    ensures plan.toParse == set p | p in files && p in after && (Touched(c, p) || ReadAgain(w, prev, after, p))
  {}

  /** Rows, failures and products of the next snapshot. */
  method Refresh(
    w: World, ghost dirs: set<Text>, ghost before: Tree, prev: Snapshot, after: Tree, ghost c: ChangeSet,
    files: set<Text>, dirty: set<Text>)
    returns (
      rows: seq<ParsedRow>, failures: map<Text, Reason>, retries: map<Text, nat>, products: PC.Entries,
      parsed: set<Text>)
    requires HonestReasons(w.frontend) && Sound(w, dirs, before, prev)
    requires FilesNext(dirs, before, prev, after, c, files, dirty)
    ensures RowsFor(w, after, files - EvictedPartials(prev, c), Sort(rows, RowLe)) && SortedBy(Sort(rows, RowLe), RowLe)
    ensures FailuresOf(w, after, files, failures)
    ensures ProductsSound(w, after, files, products) && PC.Total(products, w.slot) <= Budget(w)
    ensures CarriesOver(w, prev, after, c, files, products) && Counted(prev, c, files, retries)
    ensures parsed == set p | p in files && p in after && (Touched(c, p) || ReadAgain(w, prev, after, p))
  {
    ghost var lost := EvictedPartials(prev, c);
    LostAmongFiles(w, dirs, before, prev, after, c, files, dirty);
    var plan := PlanFiles(w, dirs, before, prev, after, lost, files, dirty);
    var parsedRows, failed := ParsePaths(w, after, plan.toParse);
    ghost var full;
    products, full := FillProducts(w, plan.kept, parsedRows, prev.generation + 1);
    rows, failures, parsed := plan.reused + parsedRows, plan.failures + failed, plan.toParse;
    PlanCompleted(w, after, files, lost, plan, parsedRows, failed);
    FilledCarries(w, dirs, before, prev, after, c, files, dirty, plan, parsedRows, full, products);
    retries := map p | p in plan.retries && p in failures :: plan.retries[p];
    PlanBooked(w, dirs, before, prev, after, c, files, dirty, plan, failures, retries);
  }

  lemma PlanBooked(
    w: World, dirs: set<Text>, before: Tree, prev: Snapshot, after: Tree, c: ChangeSet, files: set<Text>,
    dirty: set<Text>, plan: Plan, failures: map<Text, Reason>, retries: map<Text, nat>)
    requires HonestReasons(w.frontend) && Sound(w, dirs, before, prev)
    requires FilesNext(dirs, before, prev, after, c, files, dirty) && PlanMade(w, prev, after, dirty, files, plan)
    requires FailuresOf(w, after, files, failures)
    requires retries == map p | p in plan.retries && p in failures :: plan.retries[p]
    ensures Counted(prev, c, files, retries)
    ensures plan.toParse == set p | p in files && p in after && (Touched(c, p) || ReadAgain(w, prev, after, p))
  {
    RetriesStay(w, dirs, before, prev, after, c, files, dirty, plan, failures);
    assert retries == plan.retries;
    RetriesCounted(w, prev, after, c, files, dirty, plan);
    ParsedSet(w, prev, after, c, files, dirty, plan);
  }

  /** Absorb a change set.  Whatever was evicted, reused or resolved again, the
      new snapshot is sound, and its graph has every file of the tree except
      the partial parses whose product was gone.  Only touched files, and
      untouched ones it knows nothing lasting about, are parsed. */
  method Apply(w: World, ghost dirs: set<Text>, ghost before: Tree, prev: Snapshot, after: Tree, c: ChangeSet)
    returns (next: Snapshot, parsed: set<Text>)
    requires Premises(w, dirs) && Sound(w, dirs, before, prev) && Exact(c, before, after) && ExcludesAre(w, after, dirs)
    ensures Sound(w, dirs, after, next)
    ensures GraphOfFiles(next.graph, w, after, next.files - EvictedPartials(prev, c), next.files, next.resolvers.metas)
    ensures next.generation == prev.generation + 1
    ensures CarriesOver(w, prev, after, c, next.files, next.products) && Counted(prev, c, next.files, next.retries)
    ensures parsed == set p | p in next.files && p in after && (Touched(c, p) || ReadAgain(w, prev, after, p))
  {
    var files, dirty, resolvers, reuse := NextFiles(w, dirs, before, prev, after, c);
    var rows, failures, retries, products;
    rows, failures, retries, products, parsed := Refresh(w, dirs, before, prev, after, c, files, dirty);
    var graph, resolutions := AssembleGraph(w.env, rows, files, resolvers.metas, w.callEdges, reuse);
    CacheSound(w.env, Sort(rows, RowLe), |Sort(rows, RowLe)|, files, resolvers.metas);
    next := Snapshot(graph, files, products, prev.generation + 1, failures, retries, resolvers, resolutions);
  }

  lemma EvictedAreRows(w: World, dirs: set<Text>, before: Tree, prev: Snapshot, after: Tree, c: ChangeSet, p: Text)
    requires HonestReasons(w.frontend)
    requires Sound(w, dirs, before, prev) && Exact(c, before, after) && p in EvictedPartials(prev, c)
    ensures p in Admitted(Scan(w, after), dirs) && OutcomeOf(w, after, p).Row?
  {
    assert p in before && p in after && after[p] == before[p];
    assert FailureOf(OutcomeOf(w, before, p)) == Some(prev.failures[p]);
  }

  /** The exact condition under which an applied graph is the cold build's: no
      untouched file is noted as a partial parse without its product. */
  lemma AgreesIffNoneEvicted(
    w: World, dirs: set<Text>, before: Tree, prev: Snapshot, after: Tree, c: ChangeSet, next: Snapshot, cold: CodeGraph)
    requires Premises(w, dirs) && Sound(w, dirs, before, prev) && Exact(c, before, after) && ExcludesAre(w, after, dirs)
    requires Sound(w, dirs, after, next) && ColdGraph(cold, w, after)
    requires GraphOfFiles(next.graph, w, after, next.files - EvictedPartials(prev, c), next.files, next.resolvers.metas)
    ensures next.graph == cold <==> EvictedPartials(prev, c) == {}
  {
    var lost := EvictedPartials(prev, c);
    GraphsAgree(next.graph, cold, w, after, next.files - lost, next.files, next.files, next.resolvers.metas);
    forall p | p in lost ensures p in next.files && p !in next.files - lost && OutcomeOf(w, after, p).Row? {
      if p in lost { EvictedAreRows(w, dirs, before, prev, after, c, p); }
    }
    HonestRows(w, after, next.files, lost);
  }

  lemma HonestRows(w: World, tree: Tree, files: set<Text>, lost: set<Text>)
    requires files <= tree.Keys && forall p :: p in lost ==> p in files && OutcomeOf(w, tree, p).Row?
    ensures (forall p :: p in files && p !in files - lost ==> !OutcomeOf(w, tree, p).Row?) <==> lost == {}
  {
    if p :| p in lost { assert p in files && p !in files - lost; }
  }

  /** While products of partial parses are held, nothing is lost. */
  lemma HeldPartialsSuffice(s: Snapshot, c: ChangeSet)
    requires forall p :: p in s.failures && s.failures[p].Partial? ==> p in s.products
    ensures EvictedPartials(s, c) == {}
  {}

  datatype Step = Step(changes: ChangeSet, tree: Tree)

  function TreeAt(first: Tree, steps: seq<Step>, k: nat): Tree
    requires k <= |steps|
  { if k == 0 then first else steps[k - 1].tree }

  /** The applied graph is the cold build's of the step's tree exactly if the
      step found no evicted partial parse. */
  ghost predicate StepAgrees(w: World, prev: Snapshot, step: Step, next: Snapshot) {
    forall cold :: ColdGraph(cold, w, step.tree) ==>
      (next.graph == cold <==> EvictedPartials(prev, step.changes) == {})
  }

  /** The product of every file of a cold build was put into the cache. */
  ghost predicate HoldsAll(w: World, tree: Tree, s: Snapshot) {
    exists full: PC.Entries :: Retains(w, tree, s.files, full, s.products)
  }

  /** What one step keeps: the graph of its files less the lost ones, their
      products, the failure counts, and the agreement with a cold build. */
  ghost predicate StepMade(w: World, prev: Snapshot, step: Step, next: Snapshot) {
    && GraphOfFiles(next.graph, w, step.tree, next.files - EvictedPartials(prev, step.changes), next.files,
         next.resolvers.metas)
    && CarriesOver(w, prev, step.tree, step.changes, next.files, next.products)
    && Counted(prev, step.changes, next.files, next.retries)
    && StepAgrees(w, prev, step, next)
  }

  lemma ApplyAgrees(w: World, dirs: set<Text>, before: Tree, prev: Snapshot, step: Step, next: Snapshot)
    requires Premises(w, dirs) && Sound(w, dirs, before, prev) && Exact(step.changes, before, step.tree)
    requires ExcludesAre(w, step.tree, dirs) && Sound(w, dirs, step.tree, next)
    requires GraphOfFiles(next.graph, w, step.tree, next.files - EvictedPartials(prev, step.changes), next.files,
        next.resolvers.metas)
    ensures StepAgrees(w, prev, step, next)
  {
    forall cold | ColdGraph(cold, w, step.tree)
      ensures next.graph == cold <==> EvictedPartials(prev, step.changes) == {} {
      AgreesIffNoneEvicted(w, dirs, before, prev, step.tree, step.changes, next, cold);
    }
  }

  /** A history whose change sets are exact and whose trees all declare the
      same excludes. */
  ghost predicate History(w: World, dirs: set<Text>, first: Tree, steps: seq<Step>) {
    && (forall k :: 0 <= k <= |steps| ==> ExcludesAre(w, TreeAt(first, steps, k), dirs))
    && (forall k :: 0 <= k < |steps| ==> Exact(steps[k].changes, TreeAt(first, steps, k), steps[k].tree))
  }

  /** Snapshot `k` of a history, made from `was` if it is not the first. */
  ghost predicate SnapshotAt(
    w: World, dirs: set<Text>, first: Tree, steps: seq<Step>, k: nat, was: Snapshot, s: Snapshot)
    requires k <= |steps|
  {
    && Sound(w, dirs, TreeAt(first, steps, k), s)
    && if k == 0 then ColdGraph(s.graph, w, first) && HoldsAll(w, first, s) else StepMade(w, was, steps[k - 1], s)
  }

  /** Each element of a run is as `ok` asks, given the one before it. */
  ghost predicate Linked<T(!new)>(run: seq<T>, ok: (nat, T, T) -> bool) {
    forall k: nat :: k < |run| ==> ok(k, run[Before(k)], run[k])
  }

  function Before(k: nat): nat { if k == 0 then 0 else k - 1 }

  lemma LinkedGrows<T(!new)>(run: seq<T>, next: T, ok: (nat, T, T) -> bool)
    requires run != [] && Linked(run, ok) && ok(|run|, run[|run| - 1], next)
    ensures Linked(run + [next], ok)
  {
    var more := run + [next];
    forall k: nat | k < |more| ensures ok(k, more[Before(k)], more[k]) {
      if k < |run| { assert ok(k, run[Before(k)], run[k]); }
    }
  }

  ghost function SnapshotOk(
    w: World, dirs: set<Text>, first: Tree, steps: seq<Step>): (nat, Snapshot, Snapshot) -> bool {
    (k: nat, was: Snapshot, s: Snapshot) => k <= |steps| && SnapshotAt(w, dirs, first, steps, k, was, s)
  }

  /** The first `|run|` snapshots of a history, each sound for its tree and
      each step agreeing with a cold build as far as it can. */
  ghost predicate RunUpto(w: World, dirs: set<Text>, first: Tree, steps: seq<Step>, run: seq<Snapshot>) {
    1 <= |run| <= |steps| + 1 && Linked(run, SnapshotOk(w, dirs, first, steps))
  }

  /** Every run: build, then any sequence of change sets.  Each snapshot is
      sound for its tree, and each graph is the cold build's exactly when the
      step found no evicted partial parse. */
  method Replay(w: World, ghost dirs: set<Text>, first: Tree, steps: seq<Step>) returns (run: seq<Snapshot>)
    requires Premises(w, dirs) && History(w, dirs, first, steps)
    ensures |run| == |steps| + 1 && RunUpto(w, dirs, first, steps, run)
  {
    assert TreeAt(first, steps, 0) == first;
    var s := Build(w, dirs, first);
    run := [s];
    for n := 0 to |steps|
      invariant |run| == n + 1 && RunUpto(w, dirs, first, steps, run)
    {
      s := NextSnapshot(w, dirs, first, steps, run);
      run := run + [s];
    }
  }

  method NextSnapshot(w: World, ghost dirs: set<Text>, ghost first: Tree, steps: seq<Step>, run: seq<Snapshot>)
    returns (next: Snapshot)
    requires Premises(w, dirs) && History(w, dirs, first, steps)
    requires RunUpto(w, dirs, first, steps, run) && |run| <= |steps|
    ensures RunUpto(w, dirs, first, steps, run + [next])
  {
    var n := |run| - 1;
    ghost var before := TreeAt(first, steps, n);
    HistoryAt(w, dirs, first, steps, n);
    SnapshotSound(w, dirs, first, steps, run, n);
    next := MakeStep(w, dirs, before, run[n], steps[n]);
    StepIsSnapshot(w, dirs, first, steps, n, run[n], next);
    LinkedGrows(run, next, SnapshotOk(w, dirs, first, steps));
  }

  method MakeStep(w: World, ghost dirs: set<Text>, ghost before: Tree, prev: Snapshot, step: Step)
    returns (next: Snapshot)
    requires Premises(w, dirs) && Sound(w, dirs, before, prev)
    requires Exact(step.changes, before, step.tree) && ExcludesAre(w, step.tree, dirs)
    ensures Sound(w, dirs, step.tree, next) && StepMade(w, prev, step, next)
  {
    var parsed;
    next, parsed := Apply(w, dirs, before, prev, step.tree, step.changes);
    ApplyAgrees(w, dirs, before, prev, step, next);
  }

  /** Every snapshot of a run is sound, and made from the one before it. */
  lemma SnapshotSound(w: World, dirs: set<Text>, first: Tree, steps: seq<Step>, run: seq<Snapshot>, k: nat)
    requires RunUpto(w, dirs, first, steps, run) && k < |run|
    ensures Sound(w, dirs, TreeAt(first, steps, k), run[k])
  {
    assert SnapshotOk(w, dirs, first, steps)(k, run[Before(k)], run[k]);
  }

  lemma HistoryAt(w: World, dirs: set<Text>, first: Tree, steps: seq<Step>, n: nat)
    requires History(w, dirs, first, steps) && n < |steps|
    ensures Exact(steps[n].changes, TreeAt(first, steps, n), steps[n].tree)
    ensures ExcludesAre(w, steps[n].tree, dirs)
  {
    assert TreeAt(first, steps, n + 1) == steps[n].tree;
  }

  lemma StepIsSnapshot(
    w: World, dirs: set<Text>, first: Tree, steps: seq<Step>, k: nat, was: Snapshot, next: Snapshot)
    requires k < |steps| && Sound(w, dirs, steps[k].tree, next) && StepMade(w, was, steps[k], next)
    ensures SnapshotOk(w, dirs, first, steps)(k + 1, was, next)
  {}

  // ------------------------------------------------ when the budget suffices

  /** The products of all parsable files of a tree. */
  ghost function AllProducts(w: World, tree: Tree, files: set<Text>): PC.Entries {
    map p | p in files && p in tree && OutcomeOf(w, tree, p).Row? :: (ProductOf(w, OutcomeOf(w, tree, p).row), 0)
  }

  /** They fit into the cache together. */
  ghost predicate Fits(w: World, dirs: set<Text>, tree: Tree) {
    PC.Total(AllProducts(w, tree, Admitted(Scan(w, tree), dirs)), w.slot) <= Budget(w)
  }

  lemma RetainsAll(w: World, tree: Tree, files: set<Text>, full: PC.Entries, products: PC.Entries, p: Text)
    requires Retains(w, tree, files, full, products)
    requires PC.Total(AllProducts(w, tree, files), w.slot) <= Budget(w)
    ensures p in files && p in tree && OutcomeOf(w, tree, p).Row? ==> p in products
  {
    PC.TotalIgnoresAge(full, AllProducts(w, tree, files), w.slot);
    PC.NothingEvicted(full, products, Budget(w), w.slot);
  }

  /** If everything fits, the next step of a history loses nothing. */
  lemma NothingLost(w: World, dirs: set<Text>, tree: Tree, s: Snapshot, full: PC.Entries, c: ChangeSet)
    requires HonestReasons(w.frontend) && Sound(w, dirs, tree, s) && Fits(w, dirs, tree)
    requires Retains(w, tree, s.files, full, s.products)
    ensures EvictedPartials(s, c) == {}
  {
    forall p | p in s.failures && s.failures[p].Partial? ensures p in s.products {
      assert FailureOf(OutcomeOf(w, tree, p)) == Some(s.failures[p]);
      RetainsAll(w, tree, s.files, full, s.products, p);
    }
  }

  ghost predicate AlwaysFits(w: World, dirs: set<Text>, first: Tree, steps: seq<Step>) {
    forall k :: 0 <= k <= |steps| ==> Fits(w, dirs, TreeAt(first, steps, k))
  }

  /** The graph is a cold build's, and every product went into the cache. */
  ghost predicate ColdSnapshot(
    w: World, tree: Tree, s: Snapshot) { ColdGraph(s.graph, w, tree) && HoldsAll(w, tree, s) }

  ghost function ColdOk(w: World, dirs: set<Text>, first: Tree, steps: seq<Step>): (nat, Snapshot) -> bool {
    (k: nat, s: Snapshot) =>
      k <= |steps| && Sound(w, dirs, TreeAt(first, steps, k), s) && ColdSnapshot(w, TreeAt(first, steps, k), s)
  }

  lemma {:induction false} LinkedInduction<T(!new)>(
    run: seq<T>, ok: (nat, T, T) -> bool, good: (nat, T) -> bool, k: nat)
    requires Linked(run, ok) && k < |run| && good(0, run[0])
    requires forall j: nat, i: nat, was, s {:trigger good(j, was), ok(i, was, s)} ::
      i == j + 1 && good(j, was) && ok(i, was, s) ==> good(i, s)
    ensures good(k, run[k])
    decreases k
  {
    if k > 0 {
      var j := k - 1;
      LinkedInduction(run, ok, good, j);
      assert Before(k) == j && ok(k, run[Before(k)], run[k]) && good(j, run[j]);
    }
  }

  /** While the products of every tree of a history fit the budget, every graph
      is the cold build's, with no further condition. */
  lemma FittingHistory(w: World, dirs: set<Text>, first: Tree, steps: seq<Step>, run: seq<Snapshot>, k: nat)
    requires Premises(w, dirs) && History(w, dirs, first, steps) && AlwaysFits(w, dirs, first, steps)
    requires RunUpto(w, dirs, first, steps, run) && k < |run|
    ensures ColdSnapshot(w, TreeAt(first, steps, k), run[k])
  {
    var ok, good := SnapshotOk(w, dirs, first, steps), ColdOk(w, dirs, first, steps);
    assert ok(0, run[Before(0)], run[0]);
    ColdFirst(w, dirs, first, steps, run[0], run[0]);
    forall j: nat, i: nat, was, s {:trigger good(j, was), ok(i, was, s)} |
      i == j + 1 && good(j, was) && ok(i, was, s) ensures good(i, s)
    {
      assert i <= |steps|;
      HistoryFits(w, dirs, first, steps, j, i);
      ColdStep(w, dirs, first, steps, j, i, TreeAt(first, steps, j), steps[j], was, s);
    }
    LinkedInduction(run, ok, good, k);
  }

  lemma HistoryFits(w: World, dirs: set<Text>, first: Tree, steps: seq<Step>, j: nat, i: nat)
    requires History(w, dirs, first, steps) && AlwaysFits(w, dirs, first, steps) && i == j + 1 <= |steps|
    ensures Fits(w, dirs, TreeAt(first, steps, j)) && ExcludesAre(w, TreeAt(first, steps, i), dirs)
  {}

  lemma ColdFirst(w: World, dirs: set<Text>, first: Tree, steps: seq<Step>, was: Snapshot, s: Snapshot)
    requires SnapshotOk(w, dirs, first, steps)(0, was, s)
    ensures ColdOk(w, dirs, first, steps)(0, s)
  {}

  lemma {:induction false} ColdStep(
    w: World, dirs: set<Text>, first: Tree, steps: seq<Step>, j: nat, i: nat, before: Tree, step: Step,
    was: Snapshot, s: Snapshot)
    requires i == j + 1 <= |steps| && before == TreeAt(first, steps, j) && step == steps[j]
    requires HonestReasons(w.frontend) && Fits(w, dirs, before) && ExcludesAre(w, TreeAt(first, steps, i), dirs)
    requires ColdOk(w, dirs, first, steps)(j, was) && SnapshotOk(w, dirs, first, steps)(i, was, s)
    ensures ColdOk(w, dirs, first, steps)(i, s)
  {
    LosesNothing(w, dirs, first, steps, j, before, step.changes, was);
    GoesOnCold(w, dirs, first, steps, j, i, step, was, s);
  }

  lemma {:induction false} LosesNothing(
    w: World, dirs: set<Text>, first: Tree, steps: seq<Step>, k: nat, tree: Tree, c: ChangeSet, s: Snapshot)
    requires k <= |steps| && tree == TreeAt(first, steps, k) && ColdOk(w, dirs, first, steps)(k, s)
    requires HonestReasons(w.frontend) && Fits(w, dirs, tree)
    ensures EvictedPartials(s, c) == {}
  {
    ColdBefore(w, dirs, first, steps, k, tree, s);
    var held: PC.Entries :| Retains(w, tree, s.files, held, s.products);
    NothingLost(w, dirs, tree, s, held, c);
  }

  lemma {:induction false} GoesOnCold(
    w: World, dirs: set<Text>, first: Tree, steps: seq<Step>, j: nat, i: nat, step: Step, was: Snapshot,
    s: Snapshot)
    requires i == j + 1 <= |steps| && step == steps[j] && ExcludesAre(w, TreeAt(first, steps, i), dirs)
    requires SnapshotOk(w, dirs, first, steps)(i, was, s) && EvictedPartials(was, step.changes) == {}
    ensures ColdOk(w, dirs, first, steps)(i, s)
  {
    MadeAt(w, dirs, first, steps, i, step, was, s);
    assert TreeAt(first, steps, i) == step.tree;
    ColdOnceWhole(w, dirs, step.tree, s, EvictedPartials(was, step.changes));
    HoldsOnceWhole(w, was, step, s);
    ColdAfter(w, dirs, first, steps, i, step.tree, s);
  }

  lemma ColdBefore(w: World, dirs: set<Text>, first: Tree, steps: seq<Step>, k: nat, tree: Tree, s: Snapshot)
    requires k <= |steps| && tree == TreeAt(first, steps, k) && ColdOk(w, dirs, first, steps)(k, s)
    ensures Sound(w, dirs, tree, s) && ColdSnapshot(w, tree, s)
  {}

  lemma ColdAfter(w: World, dirs: set<Text>, first: Tree, steps: seq<Step>, k: nat, tree: Tree, s: Snapshot)
    requires k <= |steps| && tree == TreeAt(first, steps, k) && Sound(w, dirs, tree, s) && ColdSnapshot(w, tree, s)
    ensures ColdOk(w, dirs, first, steps)(k, s)
  {}

  lemma MadeAt(
    w: World, dirs: set<Text>, first: Tree, steps: seq<Step>, k: nat, step: Step, was: Snapshot, s: Snapshot)
    requires 0 < k <= |steps| && step == steps[k - 1] && SnapshotOk(w, dirs, first, steps)(k, was, s)
    ensures Sound(w, dirs, step.tree, s)
    ensures CarriesOver(w, was, step.tree, step.changes, s.files, s.products)
    ensures GraphOfFiles(s.graph, w, step.tree, s.files - EvictedPartials(was, step.changes), s.files,
        s.resolvers.metas)
  {}

  lemma ColdOnceWhole(w: World, dirs: set<Text>, tree: Tree, s: Snapshot, lost: set<Text>)
    requires lost == {} && GraphOfFiles(s.graph, w, tree, s.files - lost, s.files, s.resolvers.metas)
    requires Sound(w, dirs, tree, s) && ExcludesAre(w, tree, dirs)
    ensures ColdGraph(s.graph, w, tree)
  {
    assert s.files - lost == s.files;
  }

  lemma HoldsOnceWhole(w: World, prev: Snapshot, step: Step, s: Snapshot)
    requires EvictedPartials(prev, step.changes) == {}
    requires CarriesOver(w, prev, step.tree, step.changes, s.files, s.products)
    ensures HoldsAll(w, step.tree, s)
  {
    assert s.files - EvictedPartials(prev, step.changes) == s.files;
  }

  // -------------------------------------------- the failing case, concretely

  const BROKEN: ParsedFile := ParsedFile([], [], [], true, false)

  /** One language, every file a partial parse, a budget of one byte. */
  function TinyWorld(): World {
    World(
      Foreign(_ => Some(Rust), (_, _, _, _, _) => Unresolved, _ => [], (_, _, _) => [], []),
      Frontend(_ => Some(Rust), _ => false, _ => false, b => Some(b), (_, _) => None, _ => ([], 1), (_, _) => None,
               (_, _, _) => ParseOne.Parsed(BROKEN)),
      Detector([], (_, _) => None, (_, _) => {}),
      100, false, 0, 2, _ => 0)
  }

  /** A tree of one file with a syntax error, an empty change set: the cold
      build has the file, the applied snapshot has lost it. */
  method EvictedPartialIsDropped() returns (built: Snapshot, applied: Snapshot)
    ensures exists f :: f in built.graph.files && f.path == [97]
    ensures applied.graph.files == []
  {
    var w := TinyWorld();
    var tree: Tree := map[[97] := []];
    TinyTree(tree);
    built := Build(w, {}, tree);
    TinyBuilt(w, tree, built);
    applied := TinyStep(tree, built);
  }

  method TinyStep(tree: Tree, built: Snapshot) returns (applied: Snapshot)
    requires tree == map[[97] := []] && Sound(TinyWorld(), {}, tree, built)
    ensures applied.graph.files == []
  {
    var none := ChangeSet({}, {}, {});
    TinyTree(tree);
    TinyEvicted(TinyWorld(), tree, built, none);
    var parsed;
    applied, parsed := Apply(TinyWorld(), {}, tree, built, tree, none);
    assert applied.files - EvictedPartials(built, none) == {};
    TinyApplied(TinyWorld(), tree, applied);
  }

  lemma TinyTree(tree: Tree)
    requires tree == map[[97] := []]
    ensures var w := TinyWorld();
      && Scan(w, tree) == {[97]} && DeclaredExcludes(Detect(w.detector, View(tree, Scan(w, tree))).metas) == {}
      && OutcomeOf(w, tree, [97]) == Row(ParsedRow([97], Rust, [], 1, BROKEN))
  {}

  lemma TinyEvicted(w: World, tree: Tree, s: Snapshot, none: ChangeSet)
    requires Sound(w, {}, tree, s) && s.files == {[97]} && [97] in tree && none == ChangeSet({}, {}, {})
    requires OutcomeOf(w, tree, [97]) == Row(ParsedRow([97], Rust, [], 1, BROKEN))
    requires w.cacheBytes == 0 && w.slot == 2
    ensures EvictedPartials(s, none) == {[97]}
  {
    assert FailureOf(OutcomeOf(w, tree, [97])) == Some(Partial(false));
    assert [97] in s.failures;
    TinyHoldsNothing(w, s.products);
  }

  lemma TinyHoldsNothing(w: World, products: PC.Entries)
    requires PC.Total(products, w.slot) <= w.cacheBytes && w.cacheBytes == 0 && w.slot == 2
    ensures [97] !in products
  {
    var one: Text := [97];
    PC.EntryFloor(products, one, w.slot);
  }

  lemma TinyBuilt(w: World, tree: Tree, s: Snapshot)
    requires ColdGraph(s.graph, w, tree) && Sound(w, {}, tree, s) && s.files == {[97]} && [97] in tree
    requires OutcomeOf(w, tree, [97]).Row?
    requires DeclaredExcludes(Detect(w.detector, View(tree, Scan(w, tree))).metas) == {}
    ensures exists f :: f in s.graph.files && f.path == [97]
  {
    var rows: seq<ParsedRow> :| RowsFor(w, tree, s.files, rows) && SortedBy(rows, RowLe)
      && IsGraphOf(s.graph, w.env, rows, s.files, s.resolvers.metas, w.callEdges);
    PresentPath(w, tree, s.files, rows, [97]);
  }

  lemma TinyApplied(w: World, tree: Tree, s: Snapshot)
    requires GraphOfFiles(s.graph, w, tree, {}, s.files, s.resolvers.metas)
    ensures s.graph.files == []
  {
    var rows: seq<ParsedRow> :| RowsFor(w, tree, {}, rows) && SortedBy(rows, RowLe)
      && IsGraphOf(s.graph, w.env, rows, s.files, s.resolvers.metas, w.callEdges);
    HasMember(rows);
  }

  lemma HasMember(rows: seq<ParsedRow>)
    ensures rows == [] || exists r :: r in rows
  {
    if rows != [] { assert rows[0] in rows; }
  }
}
