/** What the store saves: a second build answers untouched files without a read,
    a known source is parsed once, and only files that are not worth reading are
    turned away. */
module StoreRebuild {
  import opened Types
  import opened Assembly
  import opened ParseOne
  import opened StoreRuns
  import Codec
  import CacheKeys
  import Stamps

  lemma RunsOne(f: Frontend, w: World, e: Event, u: World, es: seq<Event>, t: World)
    requires Enabled(f, w, e) && u == Step(f, w, e) && Runs(f, u, es, t)
    ensures Runs(f, w, [e] + es, t)
  {
    assert ([e] + es)[1..] == es;
  }

  lemma RunsNone(f: Frontend, w: World)
    ensures Runs(f, w, [], w)
  {}

  // ------------------------------------------------------------ second build

  /** The world with one job at another stage. */
  function WithJob(w: World, p: Text, j: Job): World
    requires w.run.Some?
  { w.(run := Some(Advance(w.run.value, p, j))) }

  /** One event leads from `w` to `t`. */
  predicate Leads(f: Frontend, w: World, e: Event, t: World) { Enabled(f, w, e) && t == Step(f, w, e) }

  lemma Stats(f: Frontend, w: World, p: Text)
    requires JobIs(w, p) && w.run.value.jobs[p].Probed?
    ensures Leads(f, w, StatFile(p), WithJob(w, p, Statted(|History(w, p)| - 1, FileStat(Disk(w, p)))))
  {}

  lemma Checks(f: Frontend, w: World, p: Text, j: Job)
    requires JobIs(w, p) && w.run.value.jobs[p] == j && j.Statted? && Trusted(w.now, j.stat)
    ensures Leads(f, w, Check(p), WithJob(w, p, Checked(j.at, j.stat, true)))
  {}

  lemma Hits(f: Frontend, w: World, p: Text, j: Job, row: ParsedRow) returns (t: World)
    requires JobIs(w, p) && w.run.value.jobs[p] == j && j.Checked? && j.trusted && j.stat.Some?
    requires !w.run.value.mode.NoStore? && StampHit(w, p, j.stat.value) == Some(row)
    ensures Leads(f, w, TryStamp(p), t) && JobIs(t, p)
    ensures t.run.value.jobs[p] == Done(j.at, j.stat, true, Row(row))
  {
    t := Step(f, w, TryStamp(p));
  }

  lemma HitStays(w: World, t: World, p: Text, st: Stamps.Stat)
    requires t.parses == w.parses && t.stamps == w.stamps
    ensures StampHit(t, p, st) == StampHit(w, p, st)
  {}

  lemma RunsThree(f: Frontend, w: World, e: Event, u: World, g: Event, v: World, h: Event, t: World)
    requires Leads(f, w, e, u) && Leads(f, u, g, v) && Leads(f, v, h, t)
    ensures Runs(f, w, [e, g, h], t)
  {
    RunsNone(f, t);
    RunsOne(f, v, h, t, [], t);
    RunsOne(f, u, g, v, [h] + [], t);
    RunsOne(f, w, e, u, [g] + ([h] + []), t);
    assert [e] + ([g] + ([h] + [])) == [e, g, h];
  }

  lemma Looks(f: Frontend, w: World, p: Text) returns (u: World, v: World)
    requires JobIs(w, p) && w.run.value.jobs[p].Probed? && Trusted(w.now, FileStat(Disk(w, p)))
    ensures Leads(f, w, StatFile(p), u) && Leads(f, u, Check(p), v)
    ensures v == WithJob(w, p, Checked(|History(w, p)| - 1, FileStat(Disk(w, p)), true))
  {
    var at, st := |History(w, p)| - 1, FileStat(Disk(w, p));
    u := WithJob(w, p, Statted(at, st));
    v := WithJob(u, p, Checked(at, st, true));
    Stats(f, w, p);
    Checks(f, u, p, Statted(at, st));
    assert w.run.value.jobs[p := Statted(at, st)][p := Checked(at, st, true)] ==
           w.run.value.jobs[p := Checked(at, st, true)];
  }

  lemma Finds(f: Frontend, w: World, v: World, p: Text, row: ParsedRow) returns (t: World)
    requires w.run.Some? && !w.run.value.mode.NoStore?
    requires var st := FileStat(Disk(w, p)); st.Some? && StampHit(w, p, st.value) == Some(row)
    requires v == WithJob(w, p, Checked(|History(w, p)| - 1, FileStat(Disk(w, p)), true))
    ensures Leads(f, v, TryStamp(p), t) && JobIs(t, p)
    ensures t.run.value.jobs[p] == Done(|History(w, p)| - 1, FileStat(Disk(w, p)), true, Row(row))
  {
    var st := FileStat(Disk(w, p));
    HitStays(w, v, p, st.value);
    t := Hits(f, v, p, Checked(|History(w, p)| - 1, st, true), row);
  }

  lemma LookRuns(f: Frontend, w: World, p: Text) returns (v: World)
    requires JobIs(w, p) && w.run.value.jobs[p].Probed? && Trusted(w.now, FileStat(Disk(w, p)))
    ensures Runs(f, w, [StatFile(p), Check(p)], v)
    ensures v == WithJob(w, p, Checked(|History(w, p)| - 1, FileStat(Disk(w, p)), true))
  {
    var u;
    u, v := Looks(f, w, p);
    RunsNone(f, v);
    RunsOne(f, u, Check(p), v, [], v);
    RunsOne(f, w, StatFile(p), u, [Check(p)] + [], v);
    assert [StatFile(p)] + ([Check(p)] + []) == [StatFile(p), Check(p)];
  }

  lemma FindRuns(f: Frontend, w: World, v: World, p: Text, row: ParsedRow) returns (t: World)
    requires w.run.Some? && !w.run.value.mode.NoStore?
    requires var st := FileStat(Disk(w, p)); st.Some? && StampHit(w, p, st.value) == Some(row)
    requires v == WithJob(w, p, Checked(|History(w, p)| - 1, FileStat(Disk(w, p)), true))
    ensures Runs(f, v, [TryStamp(p)], t) && JobIs(t, p)
    ensures t.run.value.jobs[p] == Done(|History(w, p)| - 1, FileStat(Disk(w, p)), true, Row(row))
  {
    t := Finds(f, w, v, p, row);
    RunsNone(f, t);
    RunsOne(f, v, TryStamp(p), t, [], t);
    assert [TryStamp(p)] + [] == [TryStamp(p)];
  }

  /** A build is closed; the next one opens and looks one file up. */
  function Rebuild(p: Text, mode: Mode, full: bool, todo: set<Text>, script: bool): seq<Event> {
    [Close, Open(mode, full, todo), Probe(p, script)] + ([StatFile(p), Check(p)] + [TryStamp(p)])
  }

  lemma Reopens(f: Frontend, w: World, p: Text, mode: Mode, full: bool, todo: set<Text>, script: bool)
    returns (t: World)
    requires w.run.Some? && w.run.value.stage.Finishing? && p in todo && Worth(f, p, script)
    ensures Runs(f, w, [Close, Open(mode, full, todo), Probe(p, script)], t)
    ensures t == w.(run := t.run) && JobIs(t, p) && t.run.value.jobs[p].Probed? && t.run.value.mode == mode
  {
    var u := w.(run := None);
    var v := w.(run := Some(Run(mode, full, todo, Working, map[], {}, map[], map[])));
    t := WithJob(v, p, Probed);
    RunsThree(f, w, Close, u, Open(mode, full, todo), v, Probe(p, script), t);
  }

  lemma {:induction false} RunsOn(f: Frontend, w: World, es: seq<Event>, u: World, fs: seq<Event>, t: World)
    requires Runs(f, w, es, u) && Runs(f, u, fs, t)
    ensures Runs(f, w, es + fs, t)
    decreases |es|
  {
    if es == [] {
      assert es + fs == fs;
    } else {
      assert (es + fs)[1..] == es[1..] + fs;
      RunsOn(f, Step(f, w, es[0]), es[1..], u, fs, t);
    }
  }

  /** After a build that has written all it owed, the next one, in whatever mode
      with a store, ends with the same row for every settled, untouched file,
      and reads and parses nothing for it. */
  lemma SecondBuild(
    f: Frontend, w: World, es: seq<Event>, t: World, p: Text, mode: Mode, full: bool, todo: set<Text>, script: bool)
    returns (u: World)
    requires Sound(f, CorpusOf(f, t)) && Initial(w) && Runs(f, w, es, t)
    requires JobIs(t, p) && t.run.value.mode.Writable? && t.run.value.stage.Finishing?
    requires t.run.value.parses == map[] && t.run.value.stamps == map[]
    requires var j := t.run.value.jobs[p];
      j.Done? && j.trusted && j.outcome.Row? && j.at + 1 == |History(t, p)|
    requires p in todo && Worth(f, p, script) && !mode.NoStore?
    ensures Runs(f, w, es + Rebuild(p, mode, full, todo, script), u)
    ensures JobIs(u, p) && u.run.value.jobs[p] == t.run.value.jobs[p]
  {
    var j := t.run.value.jobs[p];
    WarmStart(f, w, es, t, p);
    JobIsTrue(f, w, es, t, p);
    u := RebuildFrom(f, t, p, j.outcome.row, mode, full, todo, script);
    RunsOn(f, w, es, t, Rebuild(p, mode, full, todo, script), u);
  }

  lemma RebuildFrom(
    f: Frontend, t: World, p: Text, row: ParsedRow, mode: Mode, full: bool, todo: set<Text>, script: bool)
    returns (u: World)
    requires t.run.Some? && t.run.value.stage.Finishing? && p in todo && Worth(f, p, script) && !mode.NoStore?
    requires var st := FileStat(Disk(t, p)); Trusted(t.now, st) && StampHit(t, p, st.value) == Some(row)
    ensures Runs(f, t, Rebuild(p, mode, full, todo, script), u) && JobIs(u, p)
    ensures u.run.value.jobs[p] == Done(|History(t, p)| - 1, FileStat(Disk(t, p)), true, Row(row))
  {
    var v := Reopens(f, t, p, mode, full, todo, script);
    SameFile(t, v, p);
    u := LookedUp(f, v, p, row);
    Joins(f, t, p, mode, full, todo, script, v, u);
  }

  lemma SameFile(w: World, t: World, p: Text)
    requires t == w.(run := t.run)
    ensures History(t, p) == History(w, p) && FileStat(Disk(t, p)) == FileStat(Disk(w, p)) && t.now == w.now
    ensures forall st :: StampHit(t, p, st) == StampHit(w, p, st)
  {}

  lemma Joins(
    f: Frontend, t: World, p: Text, mode: Mode, full: bool, todo: set<Text>, script: bool, v: World, u: World)
    requires Runs(f, t, [Close, Open(mode, full, todo), Probe(p, script)], v)
    requires Runs(f, v, [StatFile(p), Check(p)] + [TryStamp(p)], u)
    ensures Runs(f, t, Rebuild(p, mode, full, todo, script), u)
  {
    RunsOn(f, t, [Close, Open(mode, full, todo), Probe(p, script)], v, [StatFile(p), Check(p)] + [TryStamp(p)], u);
  }

  lemma LookedUp(f: Frontend, w: World, p: Text, row: ParsedRow) returns (t: World)
    requires JobIs(w, p) && w.run.value.jobs[p].Probed? && !w.run.value.mode.NoStore?
    requires var st := FileStat(Disk(w, p)); Trusted(w.now, st) && StampHit(w, p, st.value) == Some(row)
    ensures Runs(f, w, [StatFile(p), Check(p)] + [TryStamp(p)], t) && JobIs(t, p)
    ensures t.run.value.jobs[p] == Done(|History(w, p)| - 1, FileStat(Disk(w, p)), true, Row(row))
  {
    var v := LookRuns(f, w, p);
    t := FindRuns(f, w, v, p, row);
    RunsOn(f, w, [StatFile(p), Check(p)], v, [TryStamp(p)], t);
  }

  lemma JobIsTrue(f: Frontend, w: World, es: seq<Event>, t: World, p: Text)
    requires Sound(f, CorpusOf(f, t)) && Initial(w) && Runs(f, w, es, t)
    requires JobIs(t, p) && t.run.value.jobs[p].Done? && t.run.value.jobs[p].trusted
    requires t.run.value.jobs[p].at + 1 == |History(t, p)|
    ensures t.run.value.jobs[p].stat == FileStat(Disk(t, p)) && Trusted(t.now, t.run.value.jobs[p].stat)
  {
    InvAfter(f, CorpusOf(f, t), w, es, t);
    assert JobOk(f, t, p, t.run.value.jobs[p]);
  }

  // ------------------------------------------------------- one parse a source

  /** With the payload of its key in the store, a source is not parsed. */
  lemma ContentHit(f: Frontend, w: World, p: Text, parsed: ParsedFile)
    requires JobIs(w, p) && w.run.value.jobs[p].Known? && !w.run.value.mode.NoStore?
    requires var j := w.run.value.jobs[p];
      KeyOf(f, j.lang, p, j.source) in w.parses
      && Codec.Parsed(w.parses[KeyOf(f, j.lang, p, j.source)]) == Codec.Ok(parsed)
    ensures Enabled(f, w, Consult(p))
    ensures var j, t := w.run.value.jobs[p], Step(f, w, Consult(p));
      && JobIs(t, p) && t.run.value.jobs[p].Done?
      && t.run.value.jobs[p].outcome ==
           Row(ParsedRow(p, j.lang, f.digest(j.source).0, f.digest(j.source).1, parsed))
  {}

  /** A parse is in the store once it is committed, for every file of its key:
      the next job that needs it consults the store and is done. */
  lemma ParsedOnce(f: Frontend, w: World, p: Text, q: Text) returns (t: World)
    requires JobIs(w, p) && JobIs(w, q) && p != q && w.run.value.mode.Writable?
    requires w.run.value.jobs[p].Unparsed? && w.run.value.jobs[q].Known?
    requires var j, i := w.run.value.jobs[p], w.run.value.jobs[q];
      && KeyOf(f, j.lang, p, j.source) == KeyOf(f, i.lang, q, i.source)
      && f.parse(j.lang, p, j.source).Parsed? && Storable(f.parse(j.lang, p, j.source).file)
    ensures var j, i := w.run.value.jobs[p], w.run.value.jobs[q];
      && Runs(f, w, [Parse(p), Commit({KeyOf(f, j.lang, p, j.source)}), Consult(q)], t)
      && JobIs(t, q) && t.run.value.jobs[q].Done?
      && t.run.value.jobs[q].outcome ==
           Row(ParsedRow(q, i.lang, f.digest(i.source).0, f.digest(i.source).1,
                         f.parse(j.lang, p, j.source).file))
  {
    var j, i := w.run.value.jobs[p], w.run.value.jobs[q];
    var key, file := KeyOf(f, j.lang, p, j.source), f.parse(j.lang, p, j.source).file;
    var u := Parses(f, w, p, q);
    var v := Commits(f, u, q, key);
    Codec.ParsedRoundTrip(file);
    ContentHit(f, v, q, file);
    t := Step(f, v, Consult(q));
    RunsThree(f, w, Parse(p), u, Commit({key}), v, Consult(q), t);
  }

  lemma Parses(f: Frontend, w: World, p: Text, q: Text) returns (t: World)
    requires JobIs(w, p) && JobIs(w, q) && p != q && w.run.value.mode.Writable?
    requires w.run.value.jobs[p].Unparsed?
    requires var j := w.run.value.jobs[p]; f.parse(j.lang, p, j.source).Parsed?
    ensures Leads(f, w, Parse(p), t) && JobIs(t, q) && t.run.value.jobs[q] == w.run.value.jobs[q]
    ensures var j := w.run.value.jobs[p];
      t.run.value.mode.Writable? && KeyOf(f, j.lang, p, j.source) in t.run.value.parses
      && t.run.value.parses[KeyOf(f, j.lang, p, j.source)] == Codec.ParsedBytes(f.parse(j.lang, p, j.source).file)
  {
    t := Step(f, w, Parse(p));
    Committable(f, w.run.value, p, w.run.value.jobs[p]);
  }

  lemma Commits(f: Frontend, w: World, q: Text, key: Text) returns (t: World)
    requires JobIs(w, q) && w.run.value.mode.Writable? && key in w.run.value.parses
    ensures Leads(f, w, Commit({key}), t) && JobIs(t, q) && t.run.value.jobs[q] == w.run.value.jobs[q]
    ensures t.run.value.mode.Writable? && key in t.parses && t.parses[key] == w.run.value.parses[key]
  {
    t := Step(f, w, Commit({key}));
  }

  lemma Committable(f: Frontend, r: Run, p: Text, j: Job)
    requires j.Unparsed? && f.parse(j.lang, p, j.source).Parsed? && r.mode.Writable?
    ensures var t, key := AfterParse(f, r, p, j), KeyOf(f, j.lang, p, j.source);
      && key in t.parses && t.parses[key] == Codec.ParsedBytes(f.parse(j.lang, p, j.source).file)
      && t.mode == r.mode
      && forall q :: q != p && q in r.jobs ==> q in t.jobs && t.jobs[q] == r.jobs[q]
  {}

  // ------------------------------------------------------------ turned away

  /** A file is turned away exactly if its bytes are not worth reading, as long
      as the probe knows whether they begin like a script. */
  lemma TurnedIffNotWorth(f: Frontend, w: World, p: Text, bytes: Text)
    requires Enabled(f, w, Probe(p, f.hasShebang(bytes)))
    ensures var t := Step(f, w, Probe(p, f.hasShebang(bytes)));
      JobIs(t, p) && t.run.value.jobs[p] == if WorthReading(f, p, bytes) then Probed else Turned
  {}

  /** Nothing but a probe turns a file away. */
  lemma OnlyProbesTurn(f: Frontend, w: World, e: Event, p: Text)
    requires Enabled(f, w, e) && !(e.Probe? && e.path == p)
    requires JobIs(Step(f, w, e), p) && Step(f, w, e).run.value.jobs[p].Turned?
    ensures JobIs(w, p) && w.run.value.jobs[p].Turned?
  {
    if JobEvent(e) { MovesElsewhere(f, w, e, p); }
  }

  lemma MovesElsewhere(f: Frontend, w: World, e: Event, p: Text)
    requires Enabled(f, w, e) && JobEvent(e) && !(e.Probe? && e.path == p)
    requires JobIs(Step(f, w, e), p) && Step(f, w, e).run.value.jobs[p].Turned?
    ensures JobIs(w, p) && w.run.value.jobs[p].Turned?
  {
    var r := w.run.value;
    if e.path in r.jobs {
      var j := r.jobs[e.path];
      StampOrReadMoves(f, w, r, e.path, j);
      if e.Consult? { ConsultMoves(f, w, r, e.path, j); }
      if e.Parse? { ParseMoves(f, r, e.path, j); }
      TryOrReadTurnsNothing(f, w, r, e.path, j);
      ParseTurnsNothing(f, w, r, e.path, j);
    }
  }

  lemma TryOrReadTurnsNothing(f: Frontend, w: World, r: Run, p: Text, j: Job)
    ensures j.Checked? ==> !AfterTryStamp(w, r, p, j).jobs[p].Turned?
    ensures j.Missed? ==> !AfterRead(f, w, r, p, j).jobs[p].Turned?
  {}

  lemma ParseTurnsNothing(f: Frontend, w: World, r: Run, p: Text, j: Job)
    ensures j.Known? ==> !AfterConsult(f, w, r, p, j).jobs[p].Turned?
    ensures j.Unparsed? ==> !AfterParse(f, r, p, j).jobs[p].Turned?
  {}
}
