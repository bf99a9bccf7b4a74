/** What a cold build indexes: which files of a tree, as which rows, and what
    their edges mean. */
module IndexMeaning {
  import opened Types
  import opened Sorting
  import opened Assembly
  import opened ParseOne
  import opened Resolvers
  import opened GraphMeaning
  import Incremental

  // -------------------------------------------------------------- rows

  /** The language the content settles, or else the path. */
  predicate IsWrittenIn(f: Frontend, path: Text, source: Text, l: Language) {
    match f.langOfSource(path, source)
    case Some(m) => l == m
    case None => f.langOfPath(path) == Some(l)
  }

  /** Its name has a language, or it may be a script and begins like one. */
  predicate LooksLikeSource(f: Frontend, path: Text, bytes: Text) {
    f.langOfPath(path).Some? || (f.shebangCandidate(path) && f.hasShebang(bytes))
  }

  /** The row says what these bytes hold. */
  predicate ReadsAs(f: Frontend, bytes: Text, row: ParsedRow) {
    && LooksLikeSource(f, row.path, bytes) && f.readSource(bytes).Some?
    && var source := f.readSource(bytes).value;
       && IsWrittenIn(f, row.path, source, row.language)
       && f.parse(row.language, row.path, source) == Parsed(row.parsed)
       && row.sha == f.digest(source).0 && row.loc == f.digest(source).1
  }

  /** A file has a row exactly if its bytes read so. */
  lemma RowIff(f: Frontend, path: Text, bytes: Text, row: ParsedRow)
    requires row.path == path
    ensures Index(f, path, bytes) == Row(row) <==> ReadsAs(f, bytes, row)
  {}

  predicate FailsIn(f: Frontend, path: Text, source: Text, l: Language, reason: Reason) {
    IsWrittenIn(f, path, source, l) && f.parse(l, path, source) == ParseError(reason)
  }

  /** It fails if a named source file cannot be decoded or a source does not
      parse. */
  lemma FailureIff(f: Frontend, path: Text, bytes: Text, reason: Reason)
    ensures Index(f, path, bytes) == Failed(reason) <==>
      && LooksLikeSource(f, path, bytes)
      && if f.readSource(bytes).None? then f.langOfPath(path).Some? && reason == ReadError
         else exists l :: FailsIn(f, path, f.readSource(bytes).value, l, reason)
  {
    if f.readSource(bytes).Some? {
      var source := f.readSource(bytes).value;
      match LanguageFor(f, path, source)
      case None =>
      case Some(l) => assert FailsIn(f, path, source, l, reason) <==> f.parse(l, path, source) == ParseError(reason);
    }
  }

  // ------------------------------------------------------------- files

  /** `p` is the directory or lies in it. */
  predicate InDirectory(p: Text, dir: Text) { p == dir || dir + ['/' as int] <= p }

  lemma InDirectoryIff(p: Text, dir: Text)
    ensures IsUnderDir(p, dir) <==> InDirectory(p, dir)
  {
    if IsUnderDir(p, dir) && p != dir { assert p[..|dir| + 1] == dir + ['/' as int]; }
    if dir + ['/' as int] <= p { assert p[|dir|] == (dir + ['/' as int])[|dir|] && dir <= p; }
  }

  /** Build output: a directory the configuration of a language with such
      directories names as excluded. */
  ghost predicate IsOutput(w: Incremental.World, visible: Tree, dir: Text) {
    exists l :: l in w.detector.languages && l in EXCLUDING && w.detector.detect(l, visible).Some?
      && dir in w.detector.detect(l, visible).value.excludes
  }

  /** Files that are not too large. */
  ghost predicate IsVisible(w: Incremental.World, tree: Tree, visible: Tree) {
    && (forall p :: p in visible <==> p in tree && |tree[p]| <= w.maxFileBytes)
    && (forall p :: p in visible ==> visible[p] == tree[p])
  }

  /** `p` is indexed: not too large and in no build output. */
  ghost predicate IsIndexed(w: Incremental.World, tree: Tree, visible: Tree, p: Text) {
    p in visible && forall dir :: IsOutput(w, visible, dir) ==> !InDirectory(p, dir)
  }

  lemma VisibleIs(w: Incremental.World, tree: Tree)
    ensures IsVisible(w, tree, Incremental.View(tree, Incremental.Scan(w, tree)))
  {}

  lemma OutputIs(w: Incremental.World, visible: Tree, dir: Text)
    ensures dir in DeclaredExcludes(Detect(w.detector, visible).metas) <==> IsOutput(w, visible, dir)
  {
    var metas := Detect(w.detector, visible).metas;
    if dir in DeclaredExcludes(metas) {
      var l :| l in metas && l in EXCLUDING && dir in metas[l].excludes;
      assert l in w.detector.languages && w.detector.detect(l, visible).Some?;
    }
    if IsOutput(w, visible, dir) {
      var l :| l in w.detector.languages && l in EXCLUDING && w.detector.detect(l, visible).Some?
        && dir in w.detector.detect(l, visible).value.excludes;
      assert l in metas;
    }
  }

  lemma IndexedIs(w: Incremental.World, tree: Tree, visible: Tree, p: Text)
    requires visible == Incremental.View(tree, Incremental.Scan(w, tree))
    ensures var dirs := DeclaredExcludes(Detect(w.detector, visible).metas);
      p in Incremental.Admitted(Incremental.Scan(w, tree), dirs) <==> IsIndexed(w, tree, visible, p)
  {
    var dirs := DeclaredExcludes(Detect(w.detector, visible).metas);
    VisibleIs(w, tree);
    forall dir ensures dir in dirs && IsUnderDir(p, dir) <==> IsOutput(w, visible, dir) && InDirectory(p, dir) {
      OutputIs(w, visible, dir);
      InDirectoryIff(p, dir);
    }
    if Excluded(p, dirs) { var dir :| dir in dirs && IsUnderDir(p, dir); }
  }

  // ------------------------------------------------------------- the graph

  /** The rows of a tree in path order: one for each indexed file that parses. */
  ghost predicate RowsOfTree(w: Incremental.World, tree: Tree, visible: Tree, rows: seq<ParsedRow>) {
    && IsVisible(w, tree, visible) && DistinctPaths(rows) && SortedBy(rows, RowLe)
    && forall row :: row in rows <==>
         IsIndexed(w, tree, visible, row.path) && ReadsAs(w.frontend, tree[row.path], row)
  }

  /** What a detector's configuration says of a language it knows. */
  ghost predicate MetasOfTree(w: Incremental.World, visible: Tree, metas: Metas) {
    && (forall l :: l in metas <==> l in w.detector.languages)
    && (forall l :: l in metas ==>
          metas[l] == match w.detector.detect(l, visible) case Some(m) => m case None => ProjectMeta({}, [], []))
  }

  /** Files, symbols and edges as the tree says. */
  ghost predicate IsIndexOf(g: CodeGraph, w: Incremental.World, tree: Tree) {
    exists visible, rows, metas, files: set<Text>, fileLevel ::
      && RowsOfTree(w, tree, visible, rows) && MetasOfTree(w, visible, metas)
      && (forall p :: p in files <==> IsIndexed(w, tree, visible, p))
      && Numbered(g, rows) && Ordered(g.edges) && OnlyFileLevel(fileLevel, w.env, rows, files, metas)
      && Means(g.edges, w.env, rows, files, metas, w.callEdges, fileLevel)
  }

  /** A cold build indexes exactly the visible source files outside of build
      output that parse, each as the row its bytes read as, and joins them by
      the edges their imports, references, pairs, calls and interfaces mean. */
  lemma ColdGraphMeans(g: CodeGraph, w: Incremental.World, tree: Tree)
    requires Incremental.ColdGraph(g, w, tree)
    ensures IsIndexOf(g, w, tree)
  {
    var visible := Incremental.View(tree, Incremental.Scan(w, tree));
    var metas := Detect(w.detector, visible).metas;
    var files := Incremental.Admitted(Incremental.Scan(w, tree), DeclaredExcludes(metas));
    var rows :| Incremental.RowsFor(w, tree, files, rows) && SortedBy(rows, RowLe)
      && IsGraphOf(g, w.env, rows, files, metas, w.callEdges);
    TreeRows(w, tree, visible, files, rows);
    GraphNumbered(g, w.env, rows, files, metas, w.callEdges);
    FileLevelMeans(w.env, rows, files, metas);
    EdgesMean(g, w.env, rows, files, metas, w.callEdges);
    forall p ensures p in files <==> IsIndexed(w, tree, visible, p) { IndexedIs(w, tree, visible, p); }
    TreeMetas(w, visible);
  }

  lemma TreeMetas(w: Incremental.World, visible: Tree)
    ensures MetasOfTree(w, visible, Detect(w.detector, visible).metas)
  {}

  lemma TreeRows(w: Incremental.World, tree: Tree, visible: Tree, files: set<Text>, rows: seq<ParsedRow>)
    requires visible == Incremental.View(tree, Incremental.Scan(w, tree))
    requires files == Incremental.Admitted(Incremental.Scan(w, tree),
        DeclaredExcludes(Detect(w.detector, visible).metas))
    requires Incremental.RowsFor(w, tree, files, rows) && SortedBy(rows, RowLe)
    ensures RowsOfTree(w, tree, visible, rows)
  {
    VisibleIs(w, tree);
    forall row ensures row in rows <==>
        IsIndexed(w, tree, visible, row.path) && ReadsAs(w.frontend, tree[row.path], row)
    {
      IndexedIs(w, tree, visible, row.path);
      if row.path in tree { RowIff(w.frontend, row.path, tree[row.path], row); }
    }
  }
}
