/** Resolver metadata: full detection, and the incremental one that re-runs
    only the resolvers whose recorded reads were modified. */
module Resolvers {
  import opened Types
  import opened Assembly

  type Tree = map<Text, Text>

  /** `detect` and the files it read, as functions of the visible files. */
  datatype Detector = Detector(
    languages: seq<Language>,
    detect: (Language, Tree) -> Option<ProjectMeta>,
    inputs: (Language, Tree) -> set<Text>)

  /** What a detection depends on is what it read, besides the path set. */
  ghost predicate Local(d: Detector) {
    forall l, v: Tree, w: Tree :: v.Keys == w.Keys && (forall p :: p in d.inputs(l, v) && p in v ==> v[p] == w[p]) ==>
      d.detect(l, v) == d.detect(l, w) && d.inputs(l, v) == d.inputs(l, w)
  }

  datatype ResolverSet = ResolverSet(metas: Metas, failed: set<Language>, inputs: map<Language, set<Text>>)

  const DEFAULT_META := ProjectMeta({}, [], [])

  function MetaFrom(o: Option<ProjectMeta>): ProjectMeta {
    match o case Some(m) => m case None => DEFAULT_META
  }

  function LanguageSet(d: Detector): set<Language> { set l | l in d.languages }

  function Detect(d: Detector, view: Tree): ResolverSet {
    ResolverSet(
      map l | l in LanguageSet(d) :: MetaFrom(d.detect(l, view)),
      set l | l in LanguageSet(d) && d.detect(l, view) == None,
      map l | l in LanguageSet(d) :: d.inputs(l, view))
  }

  /** Re-run the resolvers that failed before or read a modified file; list the
      languages whose metadata came out different. */
  method Redetect(d: Detector, prior: ResolverSet, ghost before: Tree, view: Tree, modified: set<Text>)
    returns (r: ResolverSet, changed: set<Language>)
    requires Local(d) && prior == Detect(d, before)
    requires before.Keys == view.Keys
    requires forall p :: p in view && before[p] != view[p] ==> p in modified
    ensures r == DetectUpto(d, view, |d.languages|)
    ensures forall l :: l in prior.metas && l in r.metas && l !in changed ==> r.metas[l] == prior.metas[l]
  {
    r, changed := ResolverSet(map[], {}, map[]), {};
    for i := 0 to |d.languages|
      invariant r == DetectUpto(d, view, i)
      invariant Unlisted(prior.metas, r.metas, changed)
    {
      var l := d.languages[i];
      var meta, failed, inputs := RedetectOne(d, l, prior, before, view, modified);
      UnlistedStep(prior.metas, r.metas, changed, l, meta);
      if meta != prior.metas[l] { changed := changed + {l}; }
      r := Record(r, l, meta, failed, inputs);
    }
  }

  /** Languages whose metadata moved are all listed. */
  ghost predicate Unlisted(was: Metas, now: Metas, changed: set<Language>) {
    forall l :: l in was && l in now && l !in changed ==> now[l] == was[l]
  }

  lemma UnlistedStep(was: Metas, now: Metas, changed: set<Language>, l: Language, meta: ProjectMeta)
    requires Unlisted(was, now, changed) && l in was
    ensures Unlisted(was, now[l := meta], if meta != was[l] then changed + {l} else changed)
  {}

  lemma SameLanguages(d: Detector, v: Tree, w: Tree)
    ensures Detect(d, v).metas.Keys == Detect(d, w).metas.Keys
  {}

  method RedetectOne(
    d: Detector, l: Language, prior: ResolverSet, ghost before: Tree, view: Tree, modified: set<Text>)
    returns (meta: ProjectMeta, failed: bool, inputs: set<Text>)
    requires Local(d) && prior == Detect(d, before) && l in d.languages
    requires before.Keys == view.Keys && forall p :: p in view && before[p] != view[p] ==> p in modified
    ensures meta == MetaFrom(d.detect(l, view)) && failed == (d.detect(l, view) == None) && inputs == d.inputs(l, view)
    ensures l in prior.metas
  {
    assert l in LanguageSet(d);
    var stale := l in prior.failed || exists p :: p in prior.inputs[l] && p in modified;
    if !stale {
      Unaffected(d, l, before, view, modified);
      return prior.metas[l], false, prior.inputs[l];
    }
    var detected := d.detect(l, view);
    return MetaFrom(detected), detected == None, d.inputs(l, view);
  }

  function Record(r: ResolverSet, l: Language, meta: ProjectMeta, failed: bool, inputs: set<Text>): ResolverSet {
    ResolverSet(r.metas[l := meta], if failed then r.failed + {l} else r.failed, r.inputs[l := inputs])
  }

  lemma Unaffected(d: Detector, l: Language, before: Tree, view: Tree, modified: set<Text>)
    requires Local(d) && before.Keys == view.Keys && forall p :: p in view && before[p] != view[p] ==> p in modified
    requires forall p :: p in d.inputs(l, before) ==> p !in modified
    ensures d.detect(l, before) == d.detect(l, view) && d.inputs(l, before) == d.inputs(l, view)
  {}

  /** Detection, one resolver after the other. */
  function DetectUpto(d: Detector, view: Tree, n: nat): ResolverSet
    requires n <= |d.languages|
  {
    if n == 0 then ResolverSet(map[], {}, map[]) else
    var l := d.languages[n - 1];
    Record(DetectUpto(d, view, n - 1), l, MetaFrom(d.detect(l, view)), d.detect(l, view) == None, d.inputs(l, view))
  }

  lemma {:induction false} UptoContents(d: Detector, view: Tree, n: nat)
    requires n <= |d.languages|
    ensures var r := DetectUpto(d, view, n);
      && (forall l :: l in r.metas <==> l in d.languages[..n])
      && (forall l :: l in r.inputs <==> l in d.languages[..n])
      && (forall l :: l in r.failed <==> l in d.languages[..n] && d.detect(l, view) == None)
      && (forall l :: l in r.metas ==> r.metas[l] == MetaFrom(d.detect(l, view)))
      && (forall l :: l in r.inputs ==> r.inputs[l] == d.inputs(l, view))
  {
    if n > 0 {
      UptoContents(d, view, n - 1);
      assert d.languages[..n] == d.languages[..n - 1] + [d.languages[n - 1]];
    }
  }

  lemma UptoAll(d: Detector, view: Tree)
    ensures DetectUpto(d, view, |d.languages|) == Detect(d, view)
  {
    UptoContents(d, view, |d.languages|);
    assert d.languages[..|d.languages|] == d.languages;
    var r, f := DetectUpto(d, view, |d.languages|), Detect(d, view);
    assert r.metas == f.metas && r.inputs == f.inputs && r.failed == f.failed;
  }

  // ------------------------------------------------------------ excludes

  /** Languages whose build output directories are dropped from the index. */
  const EXCLUDING: set<Language> :=
    {Python, Go, Java, Rust, TypeScript, Dart, CSharp, VisualBasic, Swift, ObjC, Kotlin, Shell, Ruby, Lua, Proto}

  function DeclaredExcludes(metas: Metas): set<Text> {
    set l, d | l in metas && l in EXCLUDING && d in metas[l].excludes :: d
  }

  predicate IsUnderDir(p: Text, dir: Text) { p == dir || (|p| > |dir| && p[|dir|] == 47 && dir <= p) }

  predicate Excluded(p: Text, dirs: set<Text>) { exists d :: d in dirs && IsUnderDir(p, d) }

  /** Build configuration is not kept in build output: detection comes out the
      same whether or not files under these directories are visible. */
  ghost predicate BlindTo(d: Detector, dirs: set<Text>) {
    forall l, big: Tree, small: Tree ::
      (forall p :: p in small ==> p in big && big[p] == small[p]) &&
      (forall p :: p in big && p !in small ==> Excluded(p, dirs)) ==>
      d.detect(l, big) == d.detect(l, small) && d.inputs(l, big) == d.inputs(l, small)
  }

  lemma BlindDetect(d: Detector, dirs: set<Text>, big: Tree, small: Tree)
    requires BlindTo(d, dirs)
    requires forall p :: p in small ==> p in big && big[p] == small[p]
    requires forall p :: p in big && p !in small ==> Excluded(p, dirs)
    ensures Detect(d, big) == Detect(d, small)
  {
    forall l: Language ensures d.detect(l, big) == d.detect(l, small) && d.inputs(l, big) == d.inputs(l, small) {}
  }
}
