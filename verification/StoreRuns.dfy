/** The persistent parse store as a step system: builds that open the store,
    parse in parallel, flush batches, are cancelled or finish and prune, while
    files change and other binaries use the same database between builds. */
module StoreRuns {
  import opened Types
  import opened Assembly
  import opened ParseOne
  import Codec
  import CacheKeys
  import Stamps

  function LanguageToU8(l: Language): byte {
    match l
    case Python => 0 case Go => 1 case Java => 2 case Rust => 3 case TypeScript => 4 case Tsx => 5
    case JavaScript => 6 case C => 7 case Cpp => 8 case ObjC => 9 case ObjCpp => 10 case Swift => 11
    case Php => 12 case Vue => 13 case Dart => 14 case CSharp => 15 case VisualBasic => 16
    case Kotlin => 17 case Shell => 18 case Ruby => 19 case Lua => 20 case Proto => 21
  }

  function LanguageFromU8(b: byte): Option<Language> {
    match b
    case 0 => Some(Python) case 1 => Some(Go) case 2 => Some(Java) case 3 => Some(Rust)
    case 4 => Some(TypeScript) case 5 => Some(Tsx) case 6 => Some(JavaScript) case 7 => Some(C)
    case 8 => Some(Cpp) case 9 => Some(ObjC) case 10 => Some(ObjCpp) case 11 => Some(Swift)
    case 12 => Some(Php) case 13 => Some(Vue) case 14 => Some(Dart) case 15 => Some(CSharp)
    case 16 => Some(VisualBasic) case 17 => Some(Kotlin) case 18 => Some(Shell) case 19 => Some(Ruby)
    case 20 => Some(Lua) case 21 => Some(Proto) case _ => None
  }

  lemma LanguageRoundTrip(l: Language)
    ensures LanguageFromU8(LanguageToU8(l)) == Some(l)
  {}

  // ------------------------------------------------------------- premises

  function KeyOf(f: Frontend, l: Language, path: Text, source: Text): Text {
    CacheKeys.Key(l, f.digest(source).0, f.salt(l, path))
  }

  ghost predicate SameParse(f: Frontend, l: Language, p: Text, q: Text, s: Text) {
    f.parse(l, p, s) == f.parse(l, q, s)
  }

  /** Which sources occur under which paths. */
  type Corpus = set<(Text, Text)>

  ghost predicate DigestOk(f: Frontend, s: Text) {
    |f.digest(s).0| == CacheKeys.SHA_LEN && Codec.EncodableText(f.digest(s).0)
  }

  ghost predicate NoCollision(f: Frontend, s: Text, t: Text) {
    f.digest(s).0 == f.digest(t).0 ==> s == t
  }

  ghost predicate SaltDecides(f: Frontend, p: Text, q: Text, s: Text) {
    forall l :: f.salt(l, p) == f.salt(l, q) ==> SameParse(f, l, p, q, s)
  }

  ghost predicate Writes(f: Frontend, p: Text, s: Text) {
    forall l :: Codec.EncodableText(KeyOf(f, l, p, s))
      && (f.parse(l, p, s).Parsed? ==> Storable(f.parse(l, p, s).file))
  }

  /** Over the sources that occur: digests have one length and do not collide,
      a parse uses the path only through the salt, texts are UTF-8, parses
      carry placeholder ids. */
  ghost predicate Sound(f: Frontend, c: Corpus) {
    && (forall e :: e in c ==> DigestOk(f, e.1) && Writes(f, e.0, e.1))
    && (forall e, g :: e in c && g in c ==> NoCollision(f, e.1, g.1) && SaltDecides(f, e.0, g.0, e.1))
  }

  ghost predicate Storable(p: ParsedFile) {
    Codec.Encodable(p) && Codec.ResetAll(p.symbols) == p.symbols
  }

  // ---------------------------------------------------------------- state

  datatype Mode = NoStore | ReadOnly | Writable

  datatype Stage = Working | Finishing

  /** Progress of one parse; `at` is the version its stat saw, `from` the one
      it read. */
  datatype Job =
    | Probed
    | Turned
    | Statted(at: nat, stat: Option<Stamps.Stat>)
    | Checked(at: nat, stat: Option<Stamps.Stat>, trusted: bool)
    | Missed(at: nat, stat: Option<Stamps.Stat>, trusted: bool)
    | Known(at: nat, stat: Option<Stamps.Stat>, trusted: bool, from: nat, source: Text, lang: Language)
    | Unparsed(at: nat, stat: Option<Stamps.Stat>, trusted: bool, from: nat, source: Text, lang: Language)
    | Done(at: nat, stat: Option<Stamps.Stat>, trusted: bool, outcome: Outcome)

  /** A build: what it will visit, the keys it referenced, what it has yet to
      write. */
  datatype Run = Run(
    mode: Mode, full: bool, todo: set<Text>, stage: Stage, jobs: map<Text, Job>,
    live: set<(Text, Text)>, parses: map<Text, seq<byte>>, stamps: map<Text, Codec.FileStamp>)

  datatype World = World(
    now: nat, files: map<Text, seq<Stamps.Version>>,
    parses: map<Text, seq<byte>>, stamps: map<Text, seq<byte>>, run: Option<Run>)

  /** `OtherBinary` is whatever other binaries did to the database: lost entries
      and entries of their own versions. */
  datatype Event =
    | Tick(ns: nat)
    | Write(path: Text, version: Stamps.Version)
    | OtherBinary(parses: map<Text, seq<byte>>, stamps: map<Text, seq<byte>>)
    | Open(mode: Mode, full: bool, todo: set<Text>)
    | Probe(path: Text, script: bool)
    | StatFile(path: Text)
    | Check(path: Text)
    | TryStamp(path: Text)
    | ReadFile(path: Text)
    | Consult(path: Text)
    | Parse(path: Text)
    | Commit(keys: set<Text>)
    | Cancel
    | Finish
    | PutStamps(paths: set<Text>)
    | Prune(keys: set<Text>, paths: set<Text>)
    | Close

  const NEVER_WRITTEN: Stamps.Version := Stamps.Version(0, None)

  function History(w: World, p: Text): (h: seq<Stamps.Version>)
    ensures |h| > 0
  {
    if p in w.files && |w.files[p]| > 0 then w.files[p] else [NEVER_WRITTEN]
  }

  function Disk(w: World, p: Text): Stamps.Version { History(w, p)[|History(w, p)| - 1] }

  function SourceOf(f: Frontend, v: Stamps.Version): Option<Text> {
    if v.content.None? then None else f.readSource(v.content.value)
  }

  /** Every source some file has had. */
  ghost function CorpusOf(f: Frontend, w: World): Corpus {
    set p, i | p in w.files && 0 <= i < |w.files[p]| && SourceOf(f, w.files[p][i]).Some?
      :: (p, SourceOf(f, w.files[p][i]).value)
  }

  ghost predicate VersionIn(f: Frontend, c: Corpus, p: Text, v: Stamps.Version) {
    SourceOf(f, v).Some? ==> (p, SourceOf(f, v).value) in c
  }

  ghost predicate Within(f: Frontend, c: Corpus, w: World) {
    forall p, i: nat :: i < |History(w, p)| ==> VersionIn(f, c, p, History(w, p)[i])
  }

  /** `FileStat::of`: no stat without an mtime since the epoch. */
  function FileStat(v: Stamps.Version): Option<Stamps.Stat> {
    if v.mtime < 0 then None else Stamps.StatOf(v)
  }

  predicate Trusted(now: nat, stat: Option<Stamps.Stat>) {
    stat.Some? && now - stat.value.mtime >= Stamps.WINDOW
  }

  // ---------------------------------------------------------------- steps

  predicate Matches(fs: Codec.FileStamp, st: Stamps.Stat) {
    fs.mtimeNs == st.mtime && fs.len == st.len && CacheKeys.OurPrefix() <= fs.key
  }

  function StoredStamp(stamps: map<Text, seq<byte>>, p: Text): Option<Codec.FileStamp> {
    if p in stamps then Codec.Stamp(stamps[p]) else None
  }

  function Payload(parses: map<Text, seq<byte>>, key: Text): Option<ParsedFile> {
    if key !in parses then None else
    match Codec.Parsed(parses[key]) case Ok(p) => Some(p) case Err(_) => None
  }

  /** The row the store answers for a stat, without a read of the file. */
  function StampHit(w: World, p: Text, st: Stamps.Stat): Option<ParsedRow> {
    match StoredStamp(w.stamps, p)
    case None => None
    case Some(fs) =>
      if !Matches(fs, st) then None else
      match LanguageFromU8(fs.language)
      case None => None
      case Some(l) =>
        match Payload(w.parses, fs.key)
        case None => None
        case Some(parsed) => Some(ParsedRow(p, l, fs.sha, fs.loc, parsed))
  }

  function NoteLive(r: Run, p: Text, key: Text): Run {
    if r.full then r.(live := r.live + {(p, key)}) else r
  }

  function StampFor(f: Frontend, p: Text, st: Stamps.Stat, l: Language, source: Text): Codec.FileStamp
    requires st.mtime >= 0 && st.len < U64
  {
    Codec.FileStamp(st.mtime, st.len, KeyOf(f, l, p, source), f.digest(source).0, f.digest(source).1, LanguageToU8(l))
  }

  /** Stamps are noted for old mtimes only, and only if they can be written. */
  function NoteStamp(f: Frontend, r: Run, p: Text, j: Job): Run
    requires j.Known? || j.Unparsed?
  {
    if r.mode.Writable? && j.trusted && j.stat.Some? && j.stat.value.mtime >= 0 && j.stat.value.len < U64
    then r.(stamps := r.stamps[p := StampFor(f, p, j.stat.value, j.lang, j.source)])
    else r
  }

  function Advance(r: Run, p: Text, j: Job): Run { r.(jobs := r.jobs[p := j]) }

  predicate Worth(f: Frontend, p: Text, script: bool) {
    f.langOfPath(p) != None || (f.shebangCandidate(p) && script)
  }

  predicate Ended(j: Job) { j.Done? || j.Turned? }

  predicate Foreigner(key: Text) { !(CacheKeys.OurPrefix() <= key) }

  predicate ForeignStamp(b: seq<byte>) {
    Codec.Stamp(b) == None || Foreigner(Codec.Stamp(b).value.key)
  }

  predicate JobIs(w: World, p: Text) { w.run.Some? && p in w.run.value.jobs }

  predicate Enabled(f: Frontend, w: World, e: Event) {
    match e
    case Tick(ns) => w.now + ns < Codec.U128
    case Write(_, v) =>
      w.now - Stamps.WINDOW < v.mtime <= w.now && (v.content.Some? ==> |v.content.value| < U64)
    case OtherBinary(parses, stamps) =>
      (w.run.Some? ==> w.run.value.mode.NoStore?)
      && (forall k :: k in parses ==> Foreigner(k) || (k in w.parses && parses[k] == w.parses[k]))
      && (forall p :: p in stamps ==> ForeignStamp(stamps[p]) || (p in w.stamps && stamps[p] == w.stamps[p]))
    case Open(_, _, _) => w.run.None?
    case Probe(p, _) => w.run.Some? && w.run.value.stage.Working? && p in w.run.value.todo && p !in w.run.value.jobs
    case StatFile(p) => JobIs(w, p) && w.run.value.jobs[p].Probed?
    case Check(p) => JobIs(w, p) && w.run.value.jobs[p].Statted?
    case TryStamp(p) => JobIs(w, p) && w.run.value.jobs[p].Checked?
    case ReadFile(p) => JobIs(w, p) && w.run.value.jobs[p].Missed?
    case Consult(p) => JobIs(w, p) && w.run.value.jobs[p].Known?
    case Parse(p) => JobIs(w, p) && w.run.value.jobs[p].Unparsed?
    case Commit(_) => w.run.Some? && w.run.value.mode.Writable?
    case Cancel => w.run.Some? && w.run.value.stage.Working?
    case Finish =>
      w.run.Some? && w.run.value.stage.Working?
      && (forall p :: p in w.run.value.todo ==> p in w.run.value.jobs && Ended(w.run.value.jobs[p]))
    case PutStamps(_) => w.run.Some? && w.run.value.mode.Writable? && w.run.value.stage.Finishing?
    case Prune(keys, paths) =>
      w.run.Some? && w.run.value.mode.Writable? && w.run.value.stage.Finishing? && w.run.value.full
      && w.run.value.parses == map[] && w.run.value.stamps == map[]
      && forall e :: e in w.run.value.live ==> e.1 !in keys && e.0 !in paths
    case Close => w.run.Some? && w.run.value.stage.Finishing?
  }

  function AfterTryStamp(w: World, r: Run, p: Text, j: Job): Run
    requires j.Checked?
  {
    var hit := if r.mode.NoStore? || !j.trusted || j.stat.None? then None else StampHit(w, p, j.stat.value);
    match hit
    case None => Advance(r, p, Missed(j.at, j.stat, j.trusted))
    case Some(row) =>
      NoteLive(Advance(r, p, Done(j.at, j.stat, j.trusted, Row(row))), p, StoredStamp(w.stamps, p).value.key)
  }

  function AfterRead(f: Frontend, w: World, r: Run, p: Text, j: Job): Run
    requires j.Missed?
  {
    var source := SourceOf(f, Disk(w, p));
    if source.None? || LanguageFor(f, p, source.value).None? then
      Advance(r, p, Done(j.at, j.stat, j.trusted, ReadAndParse(f, p, Disk(w, p).content)))
    else
      var l := LanguageFor(f, p, source.value).value;
      NoteLive(Advance(r, p, Known(j.at, j.stat, j.trusted, |History(w, p)| - 1, source.value, l)),
               p, KeyOf(f, l, p, source.value))
  }

  function RowOf(f: Frontend, p: Text, j: Job, parsed: ParsedFile): Outcome
    requires j.Known? || j.Unparsed?
  {
    Finished(f, p, j.source, j.lang, ParseResult.Parsed(parsed))
  }

  function AfterConsult(f: Frontend, w: World, r: Run, p: Text, j: Job): Run
    requires j.Known?
  {
    match (if r.mode.NoStore? then None else Payload(w.parses, KeyOf(f, j.lang, p, j.source)))
    case None => Advance(r, p, Unparsed(j.at, j.stat, j.trusted, j.from, j.source, j.lang))
    case Some(parsed) =>
      NoteStamp(f, Advance(r, p, Done(j.at, j.stat, j.trusted, RowOf(f, p, j, parsed))), p, j)
  }

  function AfterParse(f: Frontend, r: Run, p: Text, j: Job): Run
    requires j.Unparsed?
  {
    var result := f.parse(j.lang, p, j.source);
    var done := Advance(r, p, Done(j.at, j.stat, j.trusted, Finished(f, p, j.source, j.lang, result)));
    if result.Parsed? && r.mode.Writable? then
      NoteStamp(f, done.(parses := r.parses[KeyOf(f, j.lang, p, j.source) := Codec.ParsedBytes(result.file)]), p, j)
    else done
  }

  function Only<V>(m: map<Text, V>, keys: set<Text>): map<Text, V> {
    map k | k in m && k in keys :: m[k]
  }

  function StampTable(stamps: map<Text, Codec.FileStamp>): map<Text, seq<byte>> {
    map p | p in stamps :: if stamps[p].mtimeNs < Codec.U128 then Codec.StampBytes(stamps[p]) else []
  }

  function Step(f: Frontend, w: World, e: Event): World
    requires Enabled(f, w, e)
  {
    match e
    case Tick(ns) => w.(now := w.now + ns)
    case Write(p, v) => w.(files := w.files[p := History(w, p) + [v]])
    case OtherBinary(parses, stamps) => w.(parses := parses, stamps := stamps)
    case Open(mode, full, todo) => w.(run := Some(Run(mode, full, todo, Working, map[], {}, map[], map[])))
    case Probe(p, script) => w.(run := Some(Advance(w.run.value, p, if Worth(f, p, script) then Probed else Turned)))
    case StatFile(p) =>
      w.(run := Some(Advance(w.run.value, p, Statted(|History(w, p)| - 1, FileStat(Disk(w, p))))))
    case Check(p) =>
      var j := w.run.value.jobs[p];
      w.(run := Some(Advance(w.run.value, p, Checked(j.at, j.stat, Trusted(w.now, j.stat)))))
    case TryStamp(p) => w.(run := Some(AfterTryStamp(w, w.run.value, p, w.run.value.jobs[p])))
    case ReadFile(p) => w.(run := Some(AfterRead(f, w, w.run.value, p, w.run.value.jobs[p])))
    case Consult(p) => w.(run := Some(AfterConsult(f, w, w.run.value, p, w.run.value.jobs[p])))
    case Parse(p) => w.(run := Some(AfterParse(f, w.run.value, p, w.run.value.jobs[p])))
    case Commit(keys) =>
      var r := w.run.value;
      w.(parses := w.parses + Only(r.parses, keys), run := Some(r.(parses := r.parses - keys)))
    case Cancel => w.(run := None)
    case Finish => w.(run := Some(w.run.value.(stage := Finishing)))
    case PutStamps(paths) =>
      var r := w.run.value;
      w.(stamps := w.stamps + StampTable(Only(r.stamps, paths)), run := Some(r.(stamps := r.stamps - paths)))
    case Prune(keys, paths) => w.(parses := w.parses - keys, stamps := w.stamps - paths)
    case Close => w.(run := None)
  }

  ghost predicate Runs(f: Frontend, w: World, es: seq<Event>, t: World)
    decreases |es|
  {
    if es == [] then w == t
    else Enabled(f, w, es[0]) && Runs(f, Step(f, w, es[0]), es[1..], t)
  }

  // ------------------------------------------------------------ invariant

  predicate Sane(v: Stamps.Version) {
    v.mtime < Codec.U128 && (v.content.Some? ==> |v.content.value| < U64)
  }

  ghost predicate Seen(w: World, p: Text, at: nat, stat: Option<Stamps.Stat>) {
    at < |History(w, p)| && stat == FileStat(History(w, p)[at])
  }

  /** Version `r` of the file decodes to this source and language. */
  ghost predicate SourceAt(f: Frontend, w: World, p: Text, r: nat, source: Text, l: Language) {
    r < |History(w, p)| && History(w, p)[r].content.Some?
    && f.readSource(History(w, p)[r].content.value) == Some(source)
    && LanguageFor(f, p, source) == Some(l)
  }

  ghost predicate StampFrom(f: Frontend, w: World, p: Text, fs: Codec.FileStamp, r: nat, source: Text, l: Language) {
    && SourceAt(f, w, p, r, source, l)
    && fs.language == LanguageToU8(l) && (fs.sha, fs.loc) == f.digest(source)
    && fs.key == KeyOf(f, l, p, source)
    && Stamps.Settled(History(w, p), fs.mtimeNs, r)
  }

  /** A stamp of ours tells of a version after which no write dates the file
      to the stamp's mtime. */
  ghost predicate StampOk(f: Frontend, w: World, p: Text, fs: Codec.FileStamp) {
    Foreigner(fs.key)
    || (w.now - fs.mtimeNs >= Stamps.WINDOW && exists r, source, l :: StampFrom(f, w, p, fs, r, source, l))
  }

  /** A payload of ours is the parse of every known source with its key. */
  ghost predicate PayloadOk(f: Frontend, c: Corpus, key: Text, bytes: seq<byte>) {
    Foreigner(key)
    || (Codec.Parsed(bytes).Ok?
        && forall l, p, s :: (p, s) in c && KeyOf(f, l, p, s) == key ==>
            f.parse(l, p, s) == ParseResult.Parsed(Codec.Parsed(bytes).value))
  }

  ghost predicate DirectAt(f: Frontend, w: World, p: Text, j: nat, o: Outcome) {
    j < |History(w, p)| && o == ReadAndParse(f, p, History(w, p)[j].content)
  }

  /** An outcome parsing without a store gives for a version at or after the
      stat. */
  ghost predicate Direct(f: Frontend, w: World, p: Text, at: nat, o: Outcome) {
    exists j: nat :: at <= j && DirectAt(f, w, p, j, o)
  }

  ghost predicate HeldOk(f: Frontend, w: World, p: Text, j: Job)
    requires j.Known? || j.Unparsed?
  {
    Seen(w, p, j.at, j.stat) && j.at <= j.from && SourceAt(f, w, p, j.from, j.source, j.lang)
    && (j.trusted ==> Trusted(w.now, j.stat) && Stamps.Settled(History(w, p), j.stat.value.mtime, j.from))
  }

  ghost predicate JobOk(f: Frontend, w: World, p: Text, j: Job) {
    match j
    case Probed => true
    case Turned => true
    case Statted(at, stat) => Seen(w, p, at, stat)
    case Checked(at, stat, trusted) => Seen(w, p, at, stat) && (trusted ==> Trusted(w.now, stat))
    case Missed(at, stat, trusted) => Seen(w, p, at, stat) && (trusted ==> Trusted(w.now, stat))
    case Known(_, _, _, _, _, _) => HeldOk(f, w, p, j)
    case Unparsed(_, _, _, _, _, _) => HeldOk(f, w, p, j)
    case Done(at, stat, trusted, o) =>
      Seen(w, p, at, stat) && Direct(f, w, p, at, o) && (trusted ==> Trusted(w.now, stat))
  }

  /** The stamp the store will hold for `p` once this build has written. */
  function NextStamp(w: World, r: Run, p: Text): Option<Codec.FileStamp> {
    if p in r.stamps then Some(r.stamps[p]) else StoredStamp(w.stamps, p)
  }

  predicate Written(w: World, r: Run, key: Text) { key in r.parses || key in w.parses }

  predicate IsLive(r: Run, p: Text, key: Text) { r.full ==> (p, key) in r.live }

  /** The next build will find this file's stamp and payload. */
  predicate Warm(w: World, r: Run, p: Text, st: Stamps.Stat) {
    match NextStamp(w, r, p)
    case None => false
    case Some(fs) => Matches(fs, st) && Written(w, r, fs.key) && IsLive(r, p, fs.key)
  }

  predicate StampStorable(fs: Codec.FileStamp) {
    fs.mtimeNs < Codec.U128 && Codec.EncodableText(fs.key) && Codec.EncodableText(fs.sha)
  }

  /** What a job leaves behind for the next build. */
  ghost predicate TraceOk(f: Frontend, w: World, r: Run, p: Text, j: Job) {
    && (j.Known? || j.Unparsed? ==> IsLive(r, p, KeyOf(f, j.lang, p, j.source)))
    && (j.Done? && j.outcome.Row? && j.trusted && r.mode.Writable? ==>
          Trusted(w.now, j.stat) && Warm(w, r, p, j.stat.value))
  }

  ghost predicate FilesOk(w: World) {
    w.now < Codec.U128 && forall p, i: nat :: i < |History(w, p)| ==> Sane(History(w, p)[i])
  }

  ghost predicate TablesOk(f: Frontend, c: Corpus, w: World) {
    (forall k :: k in w.parses ==> PayloadOk(f, c, k, w.parses[k]))
    && (forall p :: StoredStamp(w.stamps, p).Some? ==> StampOk(f, w, p, StoredStamp(w.stamps, p).value))
  }

  ghost predicate PendingOk(f: Frontend, c: Corpus, w: World, r: Run) {
    (forall k :: k in r.parses ==> PayloadOk(f, c, k, r.parses[k]))
    && (forall p :: p in r.stamps ==> StampOk(f, w, p, r.stamps[p]) && StampStorable(r.stamps[p]))
    && (forall p :: p in r.stamps ==> p in r.jobs && r.jobs[p].Done?)
  }

  ghost predicate JobsOk(f: Frontend, w: World, r: Run) {
    forall p :: p in r.jobs ==> JobOk(f, w, p, r.jobs[p]) && TraceOk(f, w, r, p, r.jobs[p])
  }

  ghost predicate Inv(f: Frontend, c: Corpus, w: World) {
    FilesOk(w) && Within(f, c, w) && TablesOk(f, c, w)
    && (w.run.Some? ==> PendingOk(f, c, w, w.run.value) && JobsOk(f, w, w.run.value))
  }

  // ------------------------------------------------- facts survive in time

  ghost predicate HistoryGrew(w: World, t: World, p: Text) {
    |History(w, p)| <= |History(t, p)|
    && (forall i :: 0 <= i < |History(w, p)| ==> History(t, p)[i] == History(w, p)[i])
    && (forall i :: |History(w, p)| <= i < |History(t, p)| ==> w.now - Stamps.WINDOW < History(t, p)[i].mtime)
  }

  ghost predicate Later(w: World, t: World) {
    w.now <= t.now && forall p :: HistoryGrew(w, t, p)
  }

  lemma StepIsLater(f: Frontend, w: World, e: Event)
    requires Enabled(f, w, e)
    ensures Later(w, Step(f, w, e))
  {
    var t := Step(f, w, e);
    forall p ensures HistoryGrew(w, t, p) {
      if e.Write? && p == e.path { assert History(t, p) == History(w, p) + [e.version]; }
    }
  }

  lemma SettledLater(w: World, t: World, p: Text, m: int, r: nat)
    requires Later(w, t) && Stamps.Settled(History(w, p), m, r) && w.now - m >= Stamps.WINDOW
    ensures Stamps.Settled(History(t, p), m, r)
  {
    assert HistoryGrew(w, t, p);
  }

  lemma SourceLater(f: Frontend, w: World, t: World, p: Text, r: nat, source: Text, l: Language)
    requires Later(w, t) && SourceAt(f, w, p, r, source, l)
    ensures SourceAt(f, t, p, r, source, l)
  {
    assert HistoryGrew(w, t, p);
  }

  lemma StampLater(f: Frontend, w: World, t: World, p: Text, fs: Codec.FileStamp)
    requires Later(w, t) && StampOk(f, w, p, fs)
    ensures StampOk(f, t, p, fs)
  {
    if !Foreigner(fs.key) {
      var r, source, l :| StampFrom(f, w, p, fs, r, source, l);
      SourceLater(f, w, t, p, r, source, l);
      SettledLater(w, t, p, fs.mtimeNs, r);
      assert StampFrom(f, t, p, fs, r, source, l);
    }
  }

  lemma DirectLater(f: Frontend, w: World, t: World, p: Text, at: nat, o: Outcome)
    requires Later(w, t) && Direct(f, w, p, at, o)
    ensures Direct(f, t, p, at, o)
  {
    assert HistoryGrew(w, t, p);
    var j: nat :| at <= j && DirectAt(f, w, p, j, o);
    assert DirectAt(f, t, p, j, o);
  }

  lemma JobLater(f: Frontend, w: World, t: World, p: Text, j: Job)
    requires Later(w, t) && JobOk(f, w, p, j)
    ensures JobOk(f, t, p, j)
  {
    assert HistoryGrew(w, t, p);
    match j
    case Known(_, _, _, _, _, _) => HeldLater(f, w, t, p, j);
    case Unparsed(_, _, _, _, _, _) => HeldLater(f, w, t, p, j);
    case Done(at, _, _, o) => DirectLater(f, w, t, p, at, o);
    case _ =>
  }

  lemma HeldLater(f: Frontend, w: World, t: World, p: Text, j: Job)
    requires Later(w, t) && (j.Known? || j.Unparsed?) && HeldOk(f, w, p, j)
    ensures HeldOk(f, t, p, j)
  {
    assert HistoryGrew(w, t, p);
    SourceLater(f, w, t, p, j.from, j.source, j.lang);
    if j.trusted { SettledLater(w, t, p, j.stat.value.mtime, j.from); }
  }

  lemma TablesLater(f: Frontend, c: Corpus, w: World, t: World)
    requires Later(w, t) && TablesOk(f, c, w) && t.parses == w.parses && t.stamps == w.stamps
    ensures TablesOk(f, c, t)
  {
    forall p | StoredStamp(t.stamps, p).Some? ensures StampOk(f, t, p, StoredStamp(t.stamps, p).value) {
      StampLater(f, w, t, p, StoredStamp(w.stamps, p).value);
    }
  }

  // --------------------------------------------------- what is put in is right

  /** Content addressing: a fresh payload answers for every source of its key. */
  lemma FreshPayload(f: Frontend, c: Corpus, l: Language, p: Text, s: Text)
    requires Sound(f, c) && (p, s) in c && f.parse(l, p, s).Parsed?
    ensures PayloadOk(f, c, KeyOf(f, l, p, s), Codec.ParsedBytes(f.parse(l, p, s).file))
  {
    var parsed := f.parse(l, p, s).file;
    assert Writes(f, p, s);
    Codec.ParsedRoundTrip(parsed);
    assert Codec.Parsed(Codec.ParsedBytes(parsed)) == Codec.Ok(parsed);
    forall l', p', s' | (p', s') in c && KeyOf(f, l', p', s') == KeyOf(f, l, p, s)
      ensures f.parse(l', p', s') == ParseResult.Parsed(parsed)
    {
      OneKeyOneParse(f, c, l', p', s', l, p, s);
    }
  }

  lemma OneKeyOneParse(f: Frontend, c: Corpus, l': Language, p': Text, s': Text, l: Language, p: Text, s: Text)
    requires Sound(f, c) && (p, s) in c && (p', s') in c && KeyOf(f, l', p', s') == KeyOf(f, l, p, s)
    ensures f.parse(l', p', s') == f.parse(l, p, s)
  {
    var e, g := (p', s'), (p, s);
    assert DigestOk(f, e.1) && DigestOk(f, g.1);
    CacheKeys.KeyInjective(l', f.digest(s').0, f.salt(l', p'), l, f.digest(s).0, f.salt(l, p));
    assert NoCollision(f, e.1, g.1) && SaltDecides(f, e.0, g.0, e.1);
    assert SameParse(f, l, p', p, s);
  }

  lemma SourceKnown(f: Frontend, c: Corpus, w: World, p: Text, r: nat, source: Text, l: Language)
    requires Within(f, c, w) && SourceAt(f, w, p, r, source, l)
    ensures (p, source) in c
  {
    assert VersionIn(f, c, p, History(w, p)[r]);
  }

  lemma OwnKey(f: Frontend, l: Language, p: Text, s: Text)
    ensures !Foreigner(KeyOf(f, l, p, s))
  {
    CacheKeys.KeyHasOurPrefix(l, f.digest(s).0, f.salt(l, p));
  }

  /** The payload found under a source's key is that source's parse. */
  lemma PayloadIsParse(f: Frontend, c: Corpus, parses: map<Text, seq<byte>>, l: Language, p: Text, s: Text)
    requires (p, s) in c && forall k :: k in parses ==> PayloadOk(f, c, k, parses[k])
    requires Payload(parses, KeyOf(f, l, p, s)).Some?
    ensures f.parse(l, p, s) == ParseResult.Parsed(Payload(parses, KeyOf(f, l, p, s)).value)
  {
    OwnKey(f, l, p, s);
    assert PayloadOk(f, c, KeyOf(f, l, p, s), parses[KeyOf(f, l, p, s)]);
  }

  /** A stamp hit is the direct answer for a version no older than the stat. */
  lemma StampHitIsDirect(f: Frontend, c: Corpus, w: World, p: Text, at: nat, st: Stamps.Stat)
    requires Within(f, c, w) && TablesOk(f, c, w) && Seen(w, p, at, Some(st)) && StampHit(w, p, st).Some?
    ensures Direct(f, w, p, at, Row(StampHit(w, p, st).value))
  {
    var fs := StoredStamp(w.stamps, p).value;
    assert StampOk(f, w, p, fs);
    var r, source, l :| StampFrom(f, w, p, fs, r, source, l);
    LanguageRoundTrip(l);
    SourceKnown(f, c, w, p, r, source, l);
    PayloadIsParse(f, c, w.parses, l, p, source);
    assert Stamps.Shows(History(w, p)[at], st.mtime);
    assert DirectAt(f, w, p, r, Row(StampHit(w, p, st).value));
  }

  /** The stamp a job may note tells the truth. */
  lemma NotedStampOk(f: Frontend, c: Corpus, w: World, p: Text, j: Job)
    requires Sound(f, c) && FilesOk(w) && Within(f, c, w) && (j.Known? || j.Unparsed?)
    requires HeldOk(f, w, p, j) && j.trusted
    ensures j.stat.value.mtime >= 0 && j.stat.value.len < U64
    ensures var fs := StampFor(f, p, j.stat.value, j.lang, j.source);
      StampOk(f, w, p, fs) && StampStorable(fs) && Matches(fs, j.stat.value)
  {
    assert Sane(History(w, p)[j.at]);
    var fs := StampFor(f, p, j.stat.value, j.lang, j.source);
    SourceKnown(f, c, w, p, j.from, j.source, j.lang);
    assert DigestOk(f, (p, j.source).1) && Writes(f, (p, j.source).0, j.source);
    OwnKey(f, j.lang, p, j.source);
    assert StampFrom(f, w, p, fs, j.from, j.source, j.lang);
  }

  // ------------------------------------------------ every step keeps it so

  /** `t` with run `r'` follows `w` with run `r`; only job `p` moved. */
  ghost predicate Follows(w: World, r: Run, t: World, r': Run, p: Text) {
    && Later(w, t) && r'.mode == r.mode && r'.full == r.full && r.live <= r'.live
    && (forall k :: Written(w, r, k) ==> Written(t, r', k))
    && (forall q :: q != p ==> NextStamp(t, r', q) == NextStamp(w, r, q))
    && (forall q :: q != p && q in r'.jobs ==> q in r.jobs && r'.jobs[q] == r.jobs[q])
  }

  lemma OtherJobsKept(f: Frontend, w: World, r: Run, t: World, r': Run, p: Text)
    requires JobsOk(f, w, r) && Follows(w, r, t, r', p)
    requires p in r'.jobs && JobOk(f, t, p, r'.jobs[p]) && TraceOk(f, t, r', p, r'.jobs[p])
    ensures JobsOk(f, t, r')
  {
    forall q | q in r'.jobs ensures JobOk(f, t, q, r'.jobs[q]) && TraceOk(f, t, r', q, r'.jobs[q]) {
      if q != p {
        JobLater(f, w, t, q, r.jobs[q]);
        assert TraceOk(f, w, r, q, r.jobs[q]);
      }
    }
  }

  lemma SameWithin(f: Frontend, c: Corpus, w: World, t: World)
    requires Within(f, c, w) && t.files == w.files
    ensures Within(f, c, t)
  {
    forall p, i: nat | i < |History(t, p)| ensures VersionIn(f, c, p, History(t, p)[i]) {
      assert History(t, p) == History(w, p);
    }
  }

  lemma SameWorldLater(w: World, t: World)
    requires t.files == w.files && w.now <= t.now
    ensures Later(w, t)
    ensures FilesOk(w) && t.now < Codec.U128 ==> FilesOk(t)
  {
    forall p ensures History(t, p) == History(w, p) {}
  }

  /** A job event: the world keeps its tables, the run goes on as `r'`. */
  lemma JobEventKeeps(f: Frontend, c: Corpus, w: World, r': Run, p: Text)
    requires Inv(f, c, w) && w.run.Some? && PendingOk(f, c, w, r')
    requires Follows(w, w.run.value, w.(run := Some(r')), r', p)
    requires p in r'.jobs && JobOk(f, w, p, r'.jobs[p]) && TraceOk(f, w, r', p, r'.jobs[p])
    ensures Inv(f, c, w.(run := Some(r')))
  {
    var t := w.(run := Some(r'));
    forall q ensures History(t, q) == History(w, q) {}
    SameWithin(f, c, w, t);
    TablesLater(f, c, w, t);
    JobLater(f, w, t, p, r'.jobs[p]);
    assert TraceOk(f, t, r', p, r'.jobs[p]);
    OtherJobsKept(f, w, w.run.value, t, r', p);
    forall q | q in r'.stamps ensures StampOk(f, t, q, r'.stamps[q]) { StampLater(f, w, t, q, r'.stamps[q]); }
  }

  lemma PlainMove(f: Frontend, c: Corpus, w: World, p: Text, j: Job)
    requires Inv(f, c, w) && w.run.Some? && (p in w.run.value.jobs ==> !w.run.value.jobs[p].Done?)
    requires JobOk(f, w, p, j) && TraceOk(f, w, Advance(w.run.value, p, j), p, j)
    ensures Inv(f, c, w.(run := Some(Advance(w.run.value, p, j))))
  {
    var r' := Advance(w.run.value, p, j);
    SameWorldLater(w, w.(run := Some(r')));
    assert PendingOk(f, c, w, r');
    JobEventKeeps(f, c, w, r', p);
  }

  lemma TryStampKeeps(f: Frontend, c: Corpus, w: World, p: Text)
    requires Inv(f, c, w) && Enabled(f, w, TryStamp(p))
    ensures Inv(f, c, Step(f, w, TryStamp(p)))
  {
    var r := w.run.value;
    var j := r.jobs[p];
    assert JobOk(f, w, p, j);
    if AfterTryStamp(w, r, p, j).jobs[p].Missed? {
      PlainMove(f, c, w, p, Missed(j.at, j.stat, j.trusted));
    } else {
      HitKeeps(f, c, w, p, j, StampHit(w, p, j.stat.value).value, StoredStamp(w.stamps, p).value);
    }
  }

  lemma HitKeeps(f: Frontend, c: Corpus, w: World, p: Text, j: Job, row: ParsedRow, fs: Codec.FileStamp)
    requires Inv(f, c, w) && JobIs(w, p) && j == w.run.value.jobs[p] && j.Checked? && j.trusted && JobOk(f, w, p, j)
    requires StampHit(w, p, j.stat.value) == Some(row) && StoredStamp(w.stamps, p) == Some(fs)
    ensures var d := Done(j.at, j.stat, j.trusted, Row(row));
      Inv(f, c, w.(run := Some(NoteLive(Advance(w.run.value, p, d), p, fs.key))))
  {
    var d := Done(j.at, j.stat, j.trusted, Row(row));
    var r' := NoteLive(Advance(w.run.value, p, d), p, fs.key);
    HitJobOk(f, c, w, p, j, row);
    NotPending(f, c, w, p);
    HitTrace(f, w, r', p, d, fs);
    MovePending(f, c, w, p, d, fs.key);
    MoveFollows(w, p, d, fs.key);
    JobEventKeeps(f, c, w, r', p);
  }

  lemma HitTrace(f: Frontend, w: World, r: Run, p: Text, d: Job, fs: Codec.FileStamp)
    requires d.Done? && d.stat.Some? && Trusted(w.now, d.stat)
    requires StampHit(w, p, d.stat.value).Some? && StoredStamp(w.stamps, p) == Some(fs)
    requires p !in r.stamps && IsLive(r, p, fs.key)
    ensures TraceOk(f, w, r, p, d)
  {
    HitIsWarm(w, r, p, d.stat.value, fs);
  }

  /** A job that references a key without storing anything. */
  lemma MoveFollows(w: World, p: Text, j: Job, key: Text)
    requires w.run.Some?
    ensures var r' := NoteLive(Advance(w.run.value, p, j), p, key);
      Follows(w, w.run.value, w.(run := Some(r')), r', p)
  {
    SameWorldLater(w, w.(run := Some(NoteLive(Advance(w.run.value, p, j), p, key))));
  }

  lemma MovePending(f: Frontend, c: Corpus, w: World, p: Text, j: Job, key: Text)
    requires Inv(f, c, w) && JobIs(w, p) && !w.run.value.jobs[p].Done?
    ensures PendingOk(f, c, w, NoteLive(Advance(w.run.value, p, j), p, key))
  {
    PendingStays(f, c, w, NoteLive(Advance(w.run.value, p, j), p, key));
  }

  lemma HitJobOk(f: Frontend, c: Corpus, w: World, p: Text, j: Job, row: ParsedRow)
    requires Inv(f, c, w) && j.Checked? && j.trusted && JobOk(f, w, p, j) && StampHit(w, p, j.stat.value) == Some(row)
    ensures JobOk(f, w, p, Done(j.at, j.stat, j.trusted, Row(row)))
  {
    StampHitIsDirect(f, c, w, p, j.at, j.stat.value);
  }

  lemma HitIsWarm(w: World, r: Run, p: Text, st: Stamps.Stat, fs: Codec.FileStamp)
    requires StampHit(w, p, st).Some? && StoredStamp(w.stamps, p) == Some(fs)
    requires p !in r.stamps && IsLive(r, p, fs.key)
    ensures Warm(w, r, p, st)
  {}

  lemma NotPending(f: Frontend, c: Corpus, w: World, p: Text)
    requires Inv(f, c, w) && JobIs(w, p) && !w.run.value.jobs[p].Done?
    ensures p !in w.run.value.stamps
  {}

  lemma PendingStays(f: Frontend, c: Corpus, w: World, r': Run)
    requires Inv(f, c, w) && w.run.Some? && r'.parses == w.run.value.parses && r'.stamps == w.run.value.stamps
    requires forall p :: p in w.run.value.jobs && w.run.value.jobs[p].Done? ==> p in r'.jobs && r'.jobs[p].Done?
    ensures PendingOk(f, c, w, r')
  {}

  lemma ReadFileKeeps(f: Frontend, c: Corpus, w: World, p: Text)
    requires Inv(f, c, w) && Enabled(f, w, ReadFile(p))
    ensures Inv(f, c, Step(f, w, ReadFile(p)))
  {
    var j := w.run.value.jobs[p];
    assert JobOk(f, w, p, j);
    var source := SourceOf(f, Disk(w, p));
    if source.None? || LanguageFor(f, p, source.value).None? {
      UnreadKeeps(f, c, w, p, j);
    } else {
      var l := LanguageFor(f, p, source.value).value;
      ReadKeeps(f, c, w, p, j, Known(j.at, j.stat, j.trusted, |History(w, p)| - 1, source.value, l));
    }
  }

  /** A file that cannot be read, or is in no known language, ends there. */
  lemma UnreadKeeps(f: Frontend, c: Corpus, w: World, p: Text, j: Job)
    requires Inv(f, c, w) && JobIs(w, p) && j == w.run.value.jobs[p] && j.Missed? && JobOk(f, w, p, j)
    requires !ReadAndParse(f, p, Disk(w, p).content).Row?
    ensures Inv(f, c, w.(run := Some(Advance(w.run.value, p,
              Done(j.at, j.stat, j.trusted, ReadAndParse(f, p, Disk(w, p).content))))))
  {
    var d := Done(j.at, j.stat, j.trusted, ReadAndParse(f, p, Disk(w, p).content));
    assert DirectAt(f, w, p, |History(w, p)| - 1, d.outcome);
    PlainMove(f, c, w, p, d);
  }

  lemma ReadKeeps(f: Frontend, c: Corpus, w: World, p: Text, j: Job, k: Job)
    requires Inv(f, c, w) && JobIs(w, p) && j == w.run.value.jobs[p] && j.Missed? && JobOk(f, w, p, j)
    requires k.Known? && k == Known(j.at, j.stat, j.trusted, |History(w, p)| - 1, k.source, k.lang)
    requires SourceAt(f, w, p, k.from, k.source, k.lang)
    ensures Inv(f, c, w.(run := Some(NoteLive(Advance(w.run.value, p, k), p, KeyOf(f, k.lang, p, k.source)))))
  {
    var r' := NoteLive(Advance(w.run.value, p, k), p, KeyOf(f, k.lang, p, k.source));
    assert HeldOk(f, w, p, k);
    MovePending(f, c, w, p, k, KeyOf(f, k.lang, p, k.source));
    MoveFollows(w, p, k, KeyOf(f, k.lang, p, k.source));
    JobEventKeeps(f, c, w, r', p);
  }

  lemma RowIsDirect(f: Frontend, w: World, p: Text, j: Job)
    requires (j.Known? || j.Unparsed?) && HeldOk(f, w, p, j)
    ensures Direct(f, w, p, j.at, Finished(f, p, j.source, j.lang, f.parse(j.lang, p, j.source)))
  {
    assert DirectAt(f, w, p, j.from, Finished(f, p, j.source, j.lang, f.parse(j.lang, p, j.source)));
  }

  /** Job `p`, which held `j`, ends as `d`; `r1` may have gained payloads. */
  ghost predicate Ends(f: Frontend, c: Corpus, w: World, p: Text, j: Job, d: Job, r1: Run) {
    && Inv(f, c, w) && w.run.Some? && p in w.run.value.jobs && w.run.value.jobs[p] == j
    && (j.Known? || j.Unparsed?) && d.Done? && (d.at, d.stat, d.trusted) == (j.at, j.stat, j.trusted)
    && Direct(f, w, p, j.at, d.outcome)
    && r1 == Advance(w.run.value, p, d).(parses := r1.parses)
    && w.run.value.parses.Keys <= r1.parses.Keys && (forall k :: k in r1.parses ==> PayloadOk(f, c, k, r1.parses[k]))
    && (r1.mode.Writable? ==> d.outcome.Row? && Written(w, r1, KeyOf(f, j.lang, p, j.source)))
  }

  lemma EndedPending(f: Frontend, c: Corpus, w: World, p: Text, j: Job, d: Job, r1: Run)
    requires Sound(f, c) && Ends(f, c, w, p, j, d, r1)
    ensures PendingOk(f, c, w, NoteStamp(f, r1, p, j))
  {
    EndedBase(f, c, w, p, j, d, r1);
    if j.trusted { NotedStampOk(f, c, w, p, j); }
    NotePending(f, c, w, r1, p, j);
  }

  lemma EndedBase(f: Frontend, c: Corpus, w: World, p: Text, j: Job, d: Job, r1: Run)
    requires Ends(f, c, w, p, j, d, r1)
    ensures PendingOk(f, c, w, r1) && HeldOk(f, w, p, j) && p in r1.jobs && r1.jobs[p].Done? && FilesOk(w)
  {
    assert JobOk(f, w, p, j) && PendingOk(f, c, w, w.run.value);
  }

  lemma NotePending(f: Frontend, c: Corpus, w: World, r: Run, p: Text, j: Job)
    requires PendingOk(f, c, w, r) && p in r.jobs && r.jobs[p].Done? && (j.Known? || j.Unparsed?)
    requires j.trusted ==> j.stat.Some? && j.stat.value.mtime >= 0 && j.stat.value.len < U64
    requires j.trusted ==> StampOk(f, w, p, StampFor(f, p, j.stat.value, j.lang, j.source))
    requires j.trusted ==> StampStorable(StampFor(f, p, j.stat.value, j.lang, j.source))
    ensures PendingOk(f, c, w, NoteStamp(f, r, p, j))
  {}

  lemma EndedTrace(f: Frontend, c: Corpus, w: World, p: Text, j: Job, d: Job, r1: Run)
    requires Sound(f, c) && Ends(f, c, w, p, j, d, r1)
    ensures JobOk(f, w, p, d) && TraceOk(f, w, NoteStamp(f, r1, p, j), p, d)
  {
    assert JobOk(f, w, p, j) && TraceOk(f, w, w.run.value, p, j);
    if j.trusted { NotedStampOk(f, c, w, p, j); }
  }

  lemma EndedFollows(f: Frontend, c: Corpus, w: World, p: Text, j: Job, d: Job, r1: Run)
    requires Ends(f, c, w, p, j, d, r1)
    ensures var r2 := NoteStamp(f, r1, p, j); Follows(w, w.run.value, w.(run := Some(r2)), r2, p)
  {
    SameWorldLater(w, w.(run := Some(NoteStamp(f, r1, p, j))));
  }

  lemma EndKeeps(f: Frontend, c: Corpus, w: World, p: Text, j: Job, d: Job, r1: Run)
    requires Sound(f, c) && Ends(f, c, w, p, j, d, r1)
    ensures Inv(f, c, w.(run := Some(NoteStamp(f, r1, p, j))))
  {
    EndedPending(f, c, w, p, j, d, r1);
    EndedTrace(f, c, w, p, j, d, r1);
    EndedFollows(f, c, w, p, j, d, r1);
    JobEventKeeps(f, c, w, NoteStamp(f, r1, p, j), p);
  }

  lemma ConsultKeeps(f: Frontend, c: Corpus, w: World, p: Text)
    requires Sound(f, c) && Inv(f, c, w) && Enabled(f, w, Consult(p))
    ensures Inv(f, c, Step(f, w, Consult(p)))
  {
    var r := w.run.value;
    var j := r.jobs[p];
    assert JobOk(f, w, p, j) && TraceOk(f, w, r, p, j);
    var found := if r.mode.NoStore? then None else Payload(w.parses, KeyOf(f, j.lang, p, j.source));
    match found
    case None => PlainMove(f, c, w, p, Unparsed(j.at, j.stat, j.trusted, j.from, j.source, j.lang));
    case Some(parsed) =>
      PayloadIsParse(f, c, w.parses, j.lang, p, j.source);
      RowIsDirect(f, w, p, j);
      var d := Done(j.at, j.stat, j.trusted, RowOf(f, p, j, parsed));
      EndKeeps(f, c, w, p, j, d, Advance(r, p, d));
  }

  lemma ParseKeeps(f: Frontend, c: Corpus, w: World, p: Text)
    requires Sound(f, c) && Inv(f, c, w) && Enabled(f, w, Parse(p))
    ensures Inv(f, c, Step(f, w, Parse(p)))
  {
    var r := w.run.value;
    var j := r.jobs[p];
    assert JobOk(f, w, p, j);
    RowIsDirect(f, w, p, j);
    var result := f.parse(j.lang, p, j.source);
    var d := Done(j.at, j.stat, j.trusted, Finished(f, p, j.source, j.lang, result));
    if result.Parsed? && r.mode.Writable? {
      FreshPayload(f, c, j.lang, p, j.source);
      var key := KeyOf(f, j.lang, p, j.source);
      EndKeeps(f, c, w, p, j, d, Advance(r, p, d).(parses := r.parses[key := Codec.ParsedBytes(result.file)]));
    } else {
      PlainMove(f, c, w, p, d);
    }
  }

  /** Writing to or pruning the tables while the jobs stand still. */
  lemma TableEventKeeps(f: Frontend, c: Corpus, w: World, t: World)
    requires Inv(f, c, w) && w.run.Some? && t.run.Some?
    requires t.files == w.files && t.now == w.now && TablesOk(f, c, w.(parses := t.parses, stamps := t.stamps))
    requires var r, r' := w.run.value, t.run.value;
      && r' == r.(stage := r'.stage, parses := r'.parses, stamps := r'.stamps)
      && PendingOk(f, c, w, r')
      && forall p, st :: Warm(w, r, p, st) ==> Warm(t, r', p, st)
    ensures Inv(f, c, t)
  {
    var r, r' := w.run.value, t.run.value;
    SameWorldLater(w, t);
    SameWithin(f, c, w, t);
    var u := w.(parses := t.parses, stamps := t.stamps);
    SameWorldLater(u, t);
    TablesLater(f, c, u, t);
    forall p | p in r'.jobs ensures JobOk(f, t, p, r'.jobs[p]) && TraceOk(f, t, r', p, r'.jobs[p]) {
      JobLater(f, w, t, p, r.jobs[p]);
      assert TraceOk(f, w, r, p, r.jobs[p]);
    }
    forall p | p in r'.stamps ensures StampOk(f, t, p, r'.stamps[p]) { StampLater(f, w, t, p, r'.stamps[p]); }
  }

  lemma CommitKeeps(f: Frontend, c: Corpus, w: World, keys: set<Text>)
    requires Inv(f, c, w) && Enabled(f, w, Commit(keys))
    ensures Inv(f, c, Step(f, w, Commit(keys)))
  {
    var t := Step(f, w, Commit(keys));
    var r, r' := w.run.value, t.run.value;
    var u := w.(parses := t.parses, stamps := t.stamps);
    SameWorldLater(w, u);
    forall p | StoredStamp(u.stamps, p).Some? ensures StampOk(f, u, p, StoredStamp(u.stamps, p).value) {
      StampLater(f, w, u, p, StoredStamp(w.stamps, p).value);
    }
    forall k | Written(w, r, k) ensures Written(t, r', k) {
      assert k in r.parses ==> k in r'.parses || k in Only(r.parses, keys);
    }
    forall p ensures NextStamp(t, r', p) == NextStamp(w, r, p) {}
    TableEventKeeps(f, c, w, t);
  }

  lemma StoredAfterPut(w: World, r: Run, paths: set<Text>, p: Text)
    requires forall q :: q in r.stamps ==> StampStorable(r.stamps[q])
    ensures StoredStamp(w.stamps + StampTable(Only(r.stamps, paths)), p) ==
            if p in r.stamps && p in paths then Some(r.stamps[p]) else StoredStamp(w.stamps, p)
  {
    if p in r.stamps && p in paths { Codec.StampRoundTrip(r.stamps[p]); }
  }

  lemma StampsPut(f: Frontend, c: Corpus, w: World, r: Run, paths: set<Text>)
    requires TablesOk(f, c, w) && PendingOk(f, c, w, r)
    ensures TablesOk(f, c, w.(stamps := w.stamps + StampTable(Only(r.stamps, paths))))
  {
    var u := w.(stamps := w.stamps + StampTable(Only(r.stamps, paths)));
    SameWorldLater(w, u);
    forall p | StoredStamp(u.stamps, p).Some? ensures StampOk(f, u, p, StoredStamp(u.stamps, p).value) {
      StoredAfterPut(w, r, paths, p);
      StampLater(f, w, u, p, StoredStamp(u.stamps, p).value);
    }
  }

  lemma PutStampsKeeps(f: Frontend, c: Corpus, w: World, paths: set<Text>)
    requires Inv(f, c, w) && Enabled(f, w, PutStamps(paths))
    ensures Inv(f, c, Step(f, w, PutStamps(paths)))
  {
    var t := Step(f, w, PutStamps(paths));
    var r, r' := w.run.value, t.run.value;
    StampsPut(f, c, w, r, paths);
    forall p ensures NextStamp(t, r', p) == NextStamp(w, r, p) { StoredAfterPut(w, r, paths, p); }
    TableEventKeeps(f, c, w, t);
  }

  /** Tables that lost entries or gained other versions' stay right. */
  lemma TablesKept(f: Frontend, c: Corpus, w: World, parses: map<Text, seq<byte>>, stamps: map<Text, seq<byte>>)
    requires TablesOk(f, c, w)
    requires forall k :: k in parses ==> Foreigner(k) || (k in w.parses && parses[k] == w.parses[k])
    requires forall p :: p in stamps ==> ForeignStamp(stamps[p]) || (p in w.stamps && stamps[p] == w.stamps[p])
    ensures TablesOk(f, c, w.(parses := parses, stamps := stamps))
  {
    var u := w.(parses := parses, stamps := stamps);
    SameWorldLater(w, u);
    forall k | k in u.parses ensures PayloadOk(f, c, k, u.parses[k]) {
      if !Foreigner(k) { assert PayloadOk(f, c, k, w.parses[k]); }
    }
    forall p | StoredStamp(u.stamps, p).Some? ensures StampOk(f, u, p, StoredStamp(u.stamps, p).value) {
      StampKept(f, c, w, u, p);
    }
  }

  lemma StampKept(f: Frontend, c: Corpus, w: World, u: World, p: Text)
    requires TablesOk(f, c, w) && Later(w, u) && StoredStamp(u.stamps, p).Some?
    requires ForeignStamp(u.stamps[p]) || (p in w.stamps && u.stamps[p] == w.stamps[p])
    ensures StampOk(f, u, p, StoredStamp(u.stamps, p).value)
  {
    var fs := StoredStamp(u.stamps, p).value;
    if !Foreigner(fs.key) {
      assert StoredStamp(w.stamps, p) == Some(fs);
      StampLater(f, w, u, p, fs);
    }
  }

  lemma WarmSurvivesPrune(w: World, r: Run, keys: set<Text>, paths: set<Text>, p: Text, st: Stamps.Stat)
    requires r.full && r.parses == map[] && r.stamps == map[]
    requires forall e :: e in r.live ==> e.1 !in keys && e.0 !in paths
    requires Warm(w, r, p, st)
    ensures Warm(w.(parses := w.parses - keys, stamps := w.stamps - paths), r, p, st)
  {
    assert (p, NextStamp(w, r, p).value.key) in r.live;
  }

  lemma PruneKeeps(f: Frontend, c: Corpus, w: World, keys: set<Text>, paths: set<Text>)
    requires Inv(f, c, w) && Enabled(f, w, Prune(keys, paths))
    ensures Inv(f, c, Step(f, w, Prune(keys, paths)))
  {
    var t := Step(f, w, Prune(keys, paths));
    TablesKept(f, c, w, t.parses, t.stamps);
    forall p, st | Warm(w, w.run.value, p, st) ensures Warm(t, w.run.value, p, st) {
      WarmSurvivesPrune(w, w.run.value, keys, paths, p, st);
    }
    TableEventKeeps(f, c, w, t);
  }

  lemma OtherBinaryKeeps(f: Frontend, c: Corpus, w: World, parses: map<Text, seq<byte>>, stamps: map<Text, seq<byte>>)
    requires Inv(f, c, w) && Enabled(f, w, OtherBinary(parses, stamps))
    ensures Inv(f, c, Step(f, w, OtherBinary(parses, stamps)))
  {
    var t := Step(f, w, OtherBinary(parses, stamps));
    SameWorldLater(w, t);
    SameWithin(f, c, w, t);
    TablesKept(f, c, w, parses, stamps);
    if t.run.Some? { RunLater(f, c, w, t); }
  }

  /** Time and file writes; other binaries while the build has no store. */
  lemma RunLater(f: Frontend, c: Corpus, w: World, t: World)
    requires Inv(f, c, w) && Later(w, t) && w.run.Some? && t.run == w.run
    requires (t.parses == w.parses && t.stamps == w.stamps) || w.run.value.mode.NoStore?
    ensures PendingOk(f, c, t, t.run.value) && JobsOk(f, t, t.run.value)
  {
    var r := w.run.value;
    forall p | p in r.jobs ensures JobOk(f, t, p, r.jobs[p]) && TraceOk(f, t, r, p, r.jobs[p]) {
      JobLater(f, w, t, p, r.jobs[p]);
      assert TraceOk(f, w, r, p, r.jobs[p]);
    }
    forall p | p in r.stamps ensures StampOk(f, t, p, r.stamps[p]) { StampLater(f, w, t, p, r.stamps[p]); }
  }

  lemma OutsideKeeps(f: Frontend, c: Corpus, w: World, e: Event)
    requires Inv(f, c, w) && Enabled(f, w, e) && (e.Tick? || e.Write?) && Within(f, c, Step(f, w, e))
    ensures Inv(f, c, Step(f, w, e))
  {
    var t := Step(f, w, e);
    StepIsLater(f, w, e);
    TablesLater(f, c, w, t);
    if t.run.Some? { RunLater(f, c, w, t); }
    forall p, i: nat | i < |History(t, p)| ensures Sane(History(t, p)[i]) {
      assert HistoryGrew(w, t, p);
      if e.Write? && p == e.path { assert History(t, p) == History(w, p) + [e.version]; }
    }
  }

  lemma JobStepKeeps(f: Frontend, c: Corpus, w: World, e: Event)
    requires Sound(f, c) && Inv(f, c, w) && Enabled(f, w, e) && JobEvent(e)
    ensures Inv(f, c, Step(f, w, e))
  {
    match e
    case Probe(p, script) => ProbeKeeps(f, c, w, p, script);
    case StatFile(p) => StatKeeps(f, c, w, p);
    case Check(p) => CheckKeeps(f, c, w, p);
    case TryStamp(p) => TryStampKeeps(f, c, w, p);
    case ReadFile(p) => ReadFileKeeps(f, c, w, p);
    case Consult(p) => ConsultKeeps(f, c, w, p);
    case Parse(p) => ParseKeeps(f, c, w, p);
  }

  lemma ProbeKeeps(f: Frontend, c: Corpus, w: World, p: Text, script: bool)
    requires Inv(f, c, w) && Enabled(f, w, Probe(p, script))
    ensures Inv(f, c, Step(f, w, Probe(p, script)))
  {
    PlainMove(f, c, w, p, if Worth(f, p, script) then Probed else Turned);
  }

  lemma StatKeeps(f: Frontend, c: Corpus, w: World, p: Text)
    requires Inv(f, c, w) && Enabled(f, w, StatFile(p))
    ensures Inv(f, c, Step(f, w, StatFile(p)))
  {
    PlainMove(f, c, w, p, Statted(|History(w, p)| - 1, FileStat(Disk(w, p))));
  }

  lemma CheckKeeps(f: Frontend, c: Corpus, w: World, p: Text)
    requires Inv(f, c, w) && Enabled(f, w, Check(p))
    ensures Inv(f, c, Step(f, w, Check(p)))
  {
    var j := w.run.value.jobs[p];
    assert JobOk(f, w, p, j);
    PlainMove(f, c, w, p, Checked(j.at, j.stat, Trusted(w.now, j.stat)));
  }

  lemma StepKeepsInv(f: Frontend, c: Corpus, w: World, e: Event)
    requires Sound(f, c) && Inv(f, c, w) && Enabled(f, w, e) && Within(f, c, Step(f, w, e))
    ensures Inv(f, c, Step(f, w, e))
  {
    if JobEvent(e) {
      JobStepKeeps(f, c, w, e);
    } else if e.Tick? || e.Write? {
      OutsideKeeps(f, c, w, e);
    } else if e.OtherBinary? {
      OtherBinaryKeeps(f, c, w, e.parses, e.stamps);
    } else if e.Commit? {
      CommitKeeps(f, c, w, e.keys);
    } else if e.PutStamps? {
      PutStampsKeeps(f, c, w, e.paths);
    } else if e.Prune? {
      PruneKeeps(f, c, w, e.keys, e.paths);
    } else {
      StageKeeps(f, c, w, e);
    }
  }

  lemma StageKeeps(f: Frontend, c: Corpus, w: World, e: Event)
    requires Inv(f, c, w) && Enabled(f, w, e) && (e.Open? || e.Cancel? || e.Finish? || e.Close?)
    ensures Inv(f, c, Step(f, w, e))
  {
    var t := Step(f, w, e);
    SameWorldLater(w, t);
    SameWithin(f, c, w, t);
    TablesLater(f, c, w, t);
    if e.Finish? { TableEventKeeps(f, c, w, t); }
  }

  /** What occurs during a run still stands in the histories at its end. */
  lemma {:induction false} WithinBefore(f: Frontend, c: Corpus, w: World, es: seq<Event>, t: World)
    requires Runs(f, w, es, t) && Within(f, c, t)
    ensures Within(f, c, w)
    decreases |es|
  {
    if es != [] {
      var u := Step(f, w, es[0]);
      WithinBefore(f, c, u, es[1..], t);
      StepIsLater(f, w, es[0]);
      forall p, i: nat | i < |History(w, p)| ensures VersionIn(f, c, p, History(w, p)[i]) {
        assert HistoryGrew(w, u, p) && History(u, p)[i] == History(w, p)[i];
      }
    }
  }

  lemma CorpusHolds(f: Frontend, w: World)
    ensures Within(f, CorpusOf(f, w), w)
  {
    forall p, i: nat | i < |History(w, p)| ensures VersionIn(f, CorpusOf(f, w), p, History(w, p)[i]) {
      if SourceOf(f, History(w, p)[i]).Some? { assert p in w.files && History(w, p)[i] == w.files[p][i]; }
    }
  }

  lemma {:induction false} RunKeepsInv(f: Frontend, c: Corpus, w: World, es: seq<Event>, t: World)
    requires Sound(f, c) && Inv(f, c, w) && Runs(f, w, es, t) && Within(f, c, t)
    ensures Inv(f, c, t)
    decreases |es|
  {
    if es != [] {
      WithinBefore(f, c, Step(f, w, es[0]), es[1..], t);
      StepKeepsInv(f, c, w, es[0]);
      RunKeepsInv(f, c, Step(f, w, es[0]), es[1..], t);
    }
  }

  /** No build yet: whatever the database holds is other versions'. */
  ghost predicate Initial(w: World) {
    w.run.None? && FilesOk(w)
    && (forall k :: k in w.parses ==> Foreigner(k)) && (forall p :: p in w.stamps ==> ForeignStamp(w.stamps[p]))
  }

  // --------------------------------------------------------- main results

  /** The store is transparent: over any run, every outcome a job ends with is
      the outcome of reading and parsing, with no store, some version at or
      after its stat; for a file left alone, of the version it saw. */
  lemma Transparent(f: Frontend, w: World, es: seq<Event>, t: World, p: Text)
    requires Sound(f, CorpusOf(f, t)) && Initial(w) && Runs(f, w, es, t)
    requires JobIs(t, p) && t.run.value.jobs[p].Done?
    ensures Direct(f, t, p, t.run.value.jobs[p].at, t.run.value.jobs[p].outcome)
    ensures
      (t.run.value.jobs[p].at + 1 == |History(t, p)| && Disk(t, p).content.Some?
       && WorthReading(f, p, Disk(t, p).content.value)) ==>
        t.run.value.jobs[p].outcome == Index(f, p, Disk(t, p).content.value)
  {
    var c := CorpusOf(f, t);
    InvAfter(f, c, w, es, t);
    var j := t.run.value.jobs[p];
    assert JobOk(f, t, p, j);
    if j.at + 1 == |History(t, p)| && Disk(t, p).content.Some? && WorthReading(f, p, Disk(t, p).content.value) {
      assert DirectAt(f, t, p, j.at, Index(f, p, Disk(t, p).content.value));
      OneDirectOutcome(f, t, p, j.at, j.outcome, Index(f, p, Disk(t, p).content.value));
    }
  }

  lemma InvAfter(f: Frontend, c: Corpus, w: World, es: seq<Event>, t: World)
    requires Sound(f, c) && Initial(w) && Runs(f, w, es, t) && c == CorpusOf(f, t)
    ensures Inv(f, c, t)
  {
    CorpusHolds(f, t);
    WithinBefore(f, c, w, es, t);
    assert TablesOk(f, c, w);
    RunKeepsInv(f, c, w, es, t);
  }

  /** Warm start: once a build has written what it owed, pruned or not, the
      next one gets the row of every settled, untouched file from the store
      without reading the file. */
  lemma WarmStart(f: Frontend, w: World, es: seq<Event>, t: World, p: Text)
    requires Sound(f, CorpusOf(f, t)) && Initial(w) && Runs(f, w, es, t)
    requires JobIs(t, p) && t.run.value.mode.Writable? && t.run.value.parses == map[] && t.run.value.stamps == map[]
    requires var j := t.run.value.jobs[p];
      j.Done? && j.trusted && j.outcome.Row? && j.at + 1 == |History(t, p)|
    ensures t.run.value.jobs[p].stat.Some?
    ensures StampHit(t, p, t.run.value.jobs[p].stat.value) == Some(t.run.value.jobs[p].outcome.row)
  {
    var c := CorpusOf(f, t);
    InvAfter(f, c, w, es, t);
    WarmRow(f, c, t, p, t.run.value.jobs[p]);
  }

  lemma JobFacts(f: Frontend, c: Corpus, t: World, p: Text, j: Job)
    requires Inv(f, c, t) && JobIs(t, p) && j == t.run.value.jobs[p] && j.Done? && j.trusted && j.outcome.Row?
    requires t.run.value.mode.Writable?
    ensures j.stat.Some? && Seen(t, p, j.at, j.stat) && Direct(f, t, p, j.at, j.outcome)
        && Warm(t, t.run.value, p, j.stat.value)
  {
    assert JobOk(f, t, p, j) && TraceOk(f, t, t.run.value, p, j);
  }

  lemma WarmRow(f: Frontend, c: Corpus, t: World, p: Text, j: Job)
    requires Inv(f, c, t) && JobIs(t, p) && j == t.run.value.jobs[p]
    requires t.run.value.mode.Writable? && t.run.value.parses == map[] && t.run.value.stamps == map[]
    requires j.Done? && j.trusted && j.outcome.Row? && j.at + 1 == |History(t, p)|
    ensures j.stat.Some? && StampHit(t, p, j.stat.value) == Some(j.outcome.row)
  {
    JobFacts(f, c, t, p, j);
    WarmHit(f, c, t, p, j.stat.value);
    StampHitIsDirect(f, c, t, p, j.at, j.stat.value);
    OneDirectOutcome(f, t, p, j.at, Row(StampHit(t, p, j.stat.value).value), j.outcome);
  }

  lemma OneDirectOutcome(f: Frontend, t: World, p: Text, at: nat, a: Outcome, b: Outcome)
    requires at + 1 == |History(t, p)| && Direct(f, t, p, at, a) && Direct(f, t, p, at, b)
    ensures a == b
  {
    var i: nat :| at <= i && DirectAt(f, t, p, i, a);
    var k: nat :| at <= k && DirectAt(f, t, p, k, b);
    assert i == k == at;
  }

  lemma WarmHit(f: Frontend, c: Corpus, t: World, p: Text, st: Stamps.Stat)
    requires Inv(f, c, t) && t.run.Some? && Warm(t, t.run.value, p, st)
    requires t.run.value.parses == map[] && t.run.value.stamps == map[]
    ensures StampHit(t, p, st).Some?
  {
    var fs := StoredStamp(t.stamps, p).value;
    assert StampOk(f, t, p, fs);
    var r, source, l :| StampFrom(f, t, p, fs, r, source, l);
    LanguageRoundTrip(l);
    OwnKey(f, l, p, source);
    assert PayloadOk(f, c, fs.key, t.parses[fs.key]);
  }

  /** Events of one build, from its `Open` on. */
  predicate Inside(es: seq<Event>) {
    forall i :: 0 <= i < |es| ==> !es[i].Open? && !es[i].Cancel? && !es[i].Close? && !es[i].OtherBinary?
  }

  predicate AllEnded(r: Run) { forall p :: p in r.jobs ==> Ended(r.jobs[p]) }

  predicate StageOk(w: World) {
    w.run.Some? && w.run.value.jobs.Keys <= w.run.value.todo && (w.run.value.stage.Finishing? ==> AllEnded(w.run.value))
  }

  predicate NotLive(r: Run, key: Text) { forall e :: e in r.live ==> e.1 != key }

  predicate NotLivePath(r: Run, path: Text) { forall e :: e in r.live ==> e.0 != path }

  predicate MayPrune(r: Run) { r.full && r.mode.Writable? && r.stage.Finishing? }

  /** What `t`, later in the same build, no longer has was not referenced; only
      a full scan that has seen all its files loses anything. */
  predicate OnlyUnreferencedLost(w: World, t: World)
    requires t.run.Some?
  {
    var r := t.run.value;
    && (forall k :: k in w.parses && k !in t.parses ==> NotLive(r, k) && MayPrune(r))
    && (forall p :: p in w.stamps && p !in t.stamps ==> NotLivePath(r, p) && MayPrune(r))
  }

  predicate SameBuild(w: World, t: World)
    requires w.run.Some? && t.run.Some?
  {
    var r, r' := w.run.value, t.run.value;
    r'.mode == r.mode && r'.full == r.full && (r.stage.Finishing? ==> r'.stage.Finishing? && r'.live == r.live)
  }

  predicate JobEvent(e: Event) {
    e.Probe? || e.StatFile? || e.Check? || e.TryStamp? || e.ReadFile? || e.Consult? || e.Parse?
  }

  /** Jobs move only while the build works, and touch no table. */
  lemma JobsMoveWhileWorking(w: World, f: Frontend, e: Event)
    requires Enabled(f, w, e) && StageOk(w) && JobEvent(e)
    ensures w.run.value.stage.Working?
  {
    assert w.run.value.stage.Finishing? && e.path in w.run.value.jobs ==> Ended(w.run.value.jobs[e.path]);
  }

  /** `r'` is `r` after one job moved. */
  predicate JobMoved(r: Run, r': Run, p: Text) {
    r'.mode == r.mode && r'.full == r.full && r'.stage == r.stage && r'.todo == r.todo
    && p in r'.jobs && r'.jobs == r.jobs[p := r'.jobs[p]]
  }

  lemma NoteMoves(f: Frontend, r: Run, r': Run, p: Text, j: Job)
    requires JobMoved(r, r', p)
    ensures j.Known? || j.Unparsed? ==> JobMoved(r, NoteStamp(f, r', p, j), p)
  {}

  lemma StampOrReadMoves(f: Frontend, w: World, r: Run, p: Text, j: Job)
    ensures j.Checked? ==> JobMoved(r, AfterTryStamp(w, r, p, j), p)
    ensures j.Missed? ==> JobMoved(r, AfterRead(f, w, r, p, j), p)
  {}

  lemma ConsultMoves(f: Frontend, w: World, r: Run, p: Text, j: Job)
    requires j.Known?
    ensures JobMoved(r, AfterConsult(f, w, r, p, j), p)
  {
    match (if r.mode.NoStore? then None else Payload(w.parses, KeyOf(f, j.lang, p, j.source)))
    case None =>
    case Some(parsed) =>
      NoteMoves(f, r, Advance(r, p, Done(j.at, j.stat, j.trusted, RowOf(f, p, j, parsed))), p, j);
  }

  lemma ParseMoves(f: Frontend, r: Run, p: Text, j: Job)
    requires j.Unparsed?
    ensures JobMoved(r, AfterParse(f, r, p, j), p)
  {
    var result := f.parse(j.lang, p, j.source);
    var done := Advance(r, p, Done(j.at, j.stat, j.trusted, Finished(f, p, j.source, j.lang, result)));
    if result.Parsed? && r.mode.Writable? {
      NoteMoves(f, r, done.(parses := r.parses[KeyOf(f, j.lang, p, j.source) := Codec.ParsedBytes(result.file)]), p, j);
    }
  }

  lemma JobEventInside(f: Frontend, w: World, e: Event)
    requires Enabled(f, w, e) && StageOk(w) && JobEvent(e)
    ensures w.run.value.stage.Working?
    ensures var t := Step(f, w, e);
      t.parses == w.parses && t.stamps == w.stamps && t.run.Some? && JobMoved(w.run.value, t.run.value, e.path)
  {
    JobsMoveWhileWorking(w, f, e);
    if e.path in w.run.value.jobs {
      var j := w.run.value.jobs[e.path];
      StampOrReadMoves(f, w, w.run.value, e.path, j);
      if e.Consult? { ConsultMoves(f, w, w.run.value, e.path, j); }
      if e.Parse? { ParseMoves(f, w.run.value, e.path, j); }
    }
  }

  lemma OtherEventInside(f: Frontend, w: World, e: Event)
    requires Enabled(f, w, e) && StageOk(w) && Inside([e]) && !JobEvent(e)
    ensures StageOk(Step(f, w, e)) && SameBuild(w, Step(f, w, e))
    ensures OnlyUnreferencedLost(w, Step(f, w, e))
    ensures !e.PutStamps? && !e.Prune? ==> Step(f, w, e).stamps == w.stamps
    ensures !w.run.value.mode.Writable? ==> Step(f, w, e).parses == w.parses && Step(f, w, e).stamps == w.stamps
  {
    assert [e][0] == e;
  }

  lemma InsideStep(f: Frontend, w: World, e: Event)
    requires Enabled(f, w, e) && StageOk(w) && Inside([e])
    ensures StageOk(Step(f, w, e)) && SameBuild(w, Step(f, w, e)) && OnlyUnreferencedLost(w, Step(f, w, e))
    ensures !e.PutStamps? && !e.Prune? ==> Step(f, w, e).stamps == w.stamps
    ensures !w.run.value.mode.Writable? ==> Step(f, w, e).parses == w.parses && Step(f, w, e).stamps == w.stamps
  {
    if JobEvent(e) { JobEventInside(f, w, e); } else { OtherEventInside(f, w, e); }
  }

  /** A build drops from the store only keys and paths it did not reference,
      and only after a full scan has seen every file; a reader drops nothing. */
  lemma {:induction false} BuildLosesOnlyUnreferenced(f: Frontend, w: World, es: seq<Event>, t: World)
    requires Runs(f, w, es, t) && Inside(es) && StageOk(w)
    ensures StageOk(t) && SameBuild(w, t) && OnlyUnreferencedLost(w, t)
    ensures !w.run.value.mode.Writable? ==> t.parses == w.parses && t.stamps == w.stamps
    decreases |es|
  {
    if es != [] {
      var u := Step(f, w, es[0]);
      assert [es[0]][0] == es[0];
      InsideStep(f, w, es[0]);
      BuildLosesOnlyUnreferenced(f, u, es[1..], t);
      LossesJoin(w, u, t);
    }
  }

  lemma LossesJoin(w: World, u: World, t: World)
    requires w.run.Some? && u.run.Some? && t.run.Some? && SameBuild(w, u) && SameBuild(u, t)
    requires OnlyUnreferencedLost(w, u) && OnlyUnreferencedLost(u, t)
    ensures SameBuild(w, t) && OnlyUnreferencedLost(w, t)
  {}

  /** A cancelled build never prunes and leaves every stamp alone; at most it
      has added parses. */
  lemma {:induction false} WorkingOnlyAdds(f: Frontend, w: World, es: seq<Event>, t: World)
    requires Runs(f, w, es, t) && Inside(es) && StageOk(w)
    ensures StageOk(t) && (w.run.value.stage.Finishing? ==> t.run.value.stage.Finishing?)
    ensures t.run.value.stage.Working? ==> w.parses.Keys <= t.parses.Keys && t.stamps == w.stamps
    decreases |es|
  {
    if es != [] {
      var u := Step(f, w, es[0]);
      assert [es[0]][0] == es[0];
      InsideStep(f, w, es[0]);
      WorkingOnlyAdds(f, u, es[1..], t);
    }
  }

  lemma CancelledBuildKeepsStore(f: Frontend, w: World, open: Event, es: seq<Event>, u: World)
    requires open.Open? && Enabled(f, w, open) && Runs(f, Step(f, w, open), es, u) && Inside(es)
        && Enabled(f, u, Cancel)
    ensures var t := Step(f, u, Cancel);
      t.run.None? && w.parses.Keys <= t.parses.Keys && t.stamps == w.stamps
  {
    WorkingOnlyAdds(f, Step(f, w, open), es, u);
  }
}
