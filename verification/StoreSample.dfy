/** A small repository, its frontend and one build of it: the premises of the
    store's theorems can be met, and what they promise then happens. */
module StoreSample {
  import opened Types
  import opened Assembly
  import opened ParseOne
  import Codec
  import CacheKeys
  import Stamps
  import opened StoreRuns

  const LEFT: Text := [0x6C]
  const RIGHT: Text := [0x72]

  const ONE: Text := [0x31]
  const TWO: Text := [0x32]

  const NOTHING: ParsedFile := ParsedFile([], [], [], false, false)

  /** A hash that tells the two sources apart, as no hash can for all texts. */
  function Hash(s: Text): Text { seq(CacheKeys.SHA_LEN, _ => if s == ONE then 0x61 else 0x62) }

  function Front(): Frontend {
    Frontend(
      _ => Some(Python), _ => false, _ => false, b => Some(b), (_, _) => None,
      s => (Hash(s), 1), (_, _) => None, (_, _, _) => ParseResult.Parsed(NOTHING))
  }

  function Before(): World {
    World(10 * Stamps.WINDOW,
      map[LEFT := [Stamps.Version(0, Some(ONE))], RIGHT := [Stamps.Version(0, Some(TWO))]], map[], map[], None)
  }

  function KeyOfLeft(): Text { KeyOf(Front(), Python, LEFT, ONE) }

  // ------------------------------------------------------------- premises

  lemma {:induction false} AsciiIsUtf8(s: Text)
    requires forall b :: b in s ==> b < 0x80
    ensures Codec.ValidUtf8(s)
  {
    if s != [] {
      assert s[0] in s && forall b :: b in s[1..] ==> b in s;
      AsciiIsUtf8(s[1..]);
    }
  }

  lemma KeyIsAscii(prefix: Text, name: Text, hash: Text)
    requires forall b :: b in prefix || b in name || b in hash ==> b < 0x80
    requires |prefix| < 100 && |name| < 100 && |hash| < 100
    ensures Codec.EncodableText(prefix + (name + ([CacheKeys.COLON] + hash)))
  {
    AsciiIsUtf8(prefix + (name + ([CacheKeys.COLON] + hash)));
  }

  lemma KeyIsText(l: Language, p: Text, s: Text)
    ensures Codec.EncodableText(KeyOf(Front(), l, p, s))
  {
    CacheKeys.NamesAreLower(l);
    var (name, prefix) := (CacheKeys.NameBytes(l), CacheKeys.OurPrefix());
    forall b | b in name ensures b < 0x80 {
      var i :| 0 <= i < |name| && name[i] == b;
      assert CacheKeys.LanguageName(l)[i] in CacheKeys.LanguageName(l);
    }
    assert prefix == [0x78, 0x37, 0x2D, 0x66, 0x32, CacheKeys.COLON];
    KeyIsAscii(prefix, name, Hash(s));
    assert KeyOf(Front(), l, p, s) == prefix + (name + ([CacheKeys.COLON] + Hash(s)));
  }

  lemma Premises()
    ensures Sound(Front(), CorpusOf(Front(), Before())) && Initial(Before())
  {
    var f, c := Front(), CorpusOf(Front(), Before());
    forall e | e in c ensures DigestOk(f, e.1) && Writes(f, e.0, e.1) && e.1 in {ONE, TWO} {
      AsciiIsUtf8(Hash(e.1));
      forall l { KeyIsText(l, e.0, e.1); }
    }
    forall e, g | e in c && g in c ensures NoCollision(f, e.1, g.1) && SaltDecides(f, e.0, g.0, e.1) {
      assert Hash(e.1)[0] == (if e.1 == ONE then 0x61 else 0x62);
      assert Hash(g.1)[0] == (if g.1 == ONE then 0x61 else 0x62);
    }
  }

  // -------------------------------------------------------------- the run

  const STAT: Option<Stamps.Stat> := Some(Stamps.Stat(0, 1))

  function LeftRow(): ParsedRow { ParsedRow(LEFT, Python, Hash(ONE), 1, NOTHING) }

  function Live(): set<(Text, Text)> { {(LEFT, KeyOfLeft())} }

  function Payloads(): map<Text, seq<byte>> { map[KeyOfLeft() := Codec.ParsedBytes(NOTHING)] }

  function LeftStamp(): Codec.FileStamp { StampFor(Front(), LEFT, STAT.value, Python, ONE) }

  function Building(jobs: map<Text, Job>, live: set<(Text, Text)>): World {
    Before().(run := Some(Run(Writable, true, {LEFT}, Working, jobs, live, map[], map[])))
  }

  function Parsed(stage: Stage): World {
    Before().(run := Some(Run(Writable, true, {LEFT}, stage, map[LEFT := Done(0, STAT, true, Row(LeftRow()))],
                              Live(), Payloads(), map[LEFT := LeftStamp()])))
  }

  function Committed(): World {
    Before().(parses := Payloads(),
      run := Some(Parsed(Finishing).run.value.(parses := map[])))
  }

  /** Everything is written. */
  function Complete(): World {
    Committed().(stamps := map[LEFT := Codec.StampBytes(LeftStamp())],
      run := Some(Committed().run.value.(stamps := map[])))
  }

  predicate Leads(w: World, e: Event, u: World) { Enabled(Front(), w, e) && Step(Front(), w, e) == u }

  ghost predicate CanReach(w: World, t: World) { exists es :: Runs(Front(), w, es, t) }

  lemma Then(w: World, e: Event, u: World, t: World)
    requires Leads(w, e, u) && CanReach(u, t)
    ensures CanReach(w, t)
  {
    var es :| Runs(Front(), u, es, t);
    assert ([e] + es)[0] == e && ([e] + es)[1..] == es;
    assert Runs(Front(), w, [e] + es, t);
  }

  lemma Moves(old': Job, live: set<(Text, Text)>, new': Job)
    ensures Advance(Building(map[LEFT := old'], live).run.value, LEFT, new') ==
      Building(map[LEFT := new'], live).run.value
  {
    assert map[LEFT := old'][LEFT := new'] == map[LEFT := new'];
  }

  lemma Looks()
    ensures Leads(Before(), Open(Writable, true, {LEFT}), Building(map[], {}))
    ensures Leads(Building(map[], {}), Probe(LEFT, false), Building(map[LEFT := Probed], {}))
    ensures Leads(Building(map[LEFT := Probed], {}), StatFile(LEFT), Building(map[LEFT := Statted(0, STAT)], {}))
  {
    Moves(Probed, {}, Statted(0, STAT));
  }

  lemma Checks()
    ensures Leads(Building(map[LEFT := Statted(0, STAT)], {}), Check(LEFT),
                  Building(map[LEFT := Checked(0, STAT, true)], {}))
    ensures Leads(Building(map[LEFT := Checked(0, STAT, true)], {}), TryStamp(LEFT),
                  Building(map[LEFT := Missed(0, STAT, true)], {}))
  {
    Moves(Statted(0, STAT), {}, Checked(0, STAT, true));
    Moves(Checked(0, STAT, true), {}, Missed(0, STAT, true));
  }

  lemma Reads()
    ensures Leads(Building(map[LEFT := Missed(0, STAT, true)], {}), ReadFile(LEFT),
                  Building(map[LEFT := Known(0, STAT, true, 0, ONE, Python)], Live()))
  {
    Moves(Missed(0, STAT, true), {}, Known(0, STAT, true, 0, ONE, Python));
    var w := Building(map[LEFT := Missed(0, STAT, true)], {});
    assert SourceOf(Front(), Disk(w, LEFT)) == Some(ONE) && LanguageFor(Front(), LEFT, ONE) == Some(Python);
    assert {} + Live() == Live();
  }

  lemma Parses()
    ensures Leads(Building(map[LEFT := Known(0, STAT, true, 0, ONE, Python)], Live()), Consult(LEFT),
                  Building(map[LEFT := Unparsed(0, STAT, true, 0, ONE, Python)], Live()))
    ensures Leads(Building(map[LEFT := Unparsed(0, STAT, true, 0, ONE, Python)], Live()), Parse(LEFT), Parsed(Working))
  {
    Moves(Known(0, STAT, true, 0, ONE, Python), Live(), Unparsed(0, STAT, true, 0, ONE, Python));
    Moves(Unparsed(0, STAT, true, 0, ONE, Python), Live(), Done(0, STAT, true, Row(LeftRow())));
  }

  lemma Finishes()
    ensures Leads(Parsed(Working), Finish, Parsed(Finishing))
  {}

  lemma Commits()
    ensures Leads(Parsed(Finishing), Commit({KeyOfLeft()}), Committed())
  {
    var key := KeyOfLeft();
    assert Only(Payloads(), {key}) == Payloads() && map[] + Payloads() == Payloads();
    assert Payloads() - {key} == map[];
  }

  lemma WriteOne(fs: Codec.FileStamp)
    requires fs.mtimeNs < Codec.U128
    ensures var m := map[LEFT := fs];
      Only(m, {LEFT}) == m && m - {LEFT} == map[] && map[] + StampTable(m) == map[LEFT := Codec.StampBytes(fs)]
  {}

  lemma PutsStamps()
    ensures Leads(Committed(), PutStamps({LEFT}), Complete())
  {
    WriteOne(LeftStamp());
  }

  lemma VisitReaches(t: World)
    requires CanReach(Parsed(Working), t)
    ensures CanReach(Building(map[LEFT := Missed(0, STAT, true)], {}), t)
  {
    Parses();
    Reads();
    Then(Building(map[LEFT := Unparsed(0, STAT, true, 0, ONE, Python)], Live()), Parse(LEFT), Parsed(Working), t);
    Then(Building(map[LEFT := Known(0, STAT, true, 0, ONE, Python)], Live()), Consult(LEFT),
         Building(map[LEFT := Unparsed(0, STAT, true, 0, ONE, Python)], Live()), t);
    Then(Building(map[LEFT := Missed(0, STAT, true)], {}), ReadFile(LEFT),
         Building(map[LEFT := Known(0, STAT, true, 0, ONE, Python)], Live()), t);
  }

  lemma StartReaches(t: World)
    requires CanReach(Building(map[LEFT := Missed(0, STAT, true)], {}), t)
    ensures CanReach(Before(), t)
  {
    Looks();
    Checks();
    Then(Building(map[LEFT := Checked(0, STAT, true)], {}), TryStamp(LEFT),
         Building(map[LEFT := Missed(0, STAT, true)], {}), t);
    Then(Building(map[LEFT := Statted(0, STAT)], {}), Check(LEFT),
         Building(map[LEFT := Checked(0, STAT, true)], {}), t);
    Then(Building(map[LEFT := Probed], {}), StatFile(LEFT), Building(map[LEFT := Statted(0, STAT)], {}), t);
    Then(Building(map[], {}), Probe(LEFT, false), Building(map[LEFT := Probed], {}), t);
    Then(Before(), Open(Writable, true, {LEFT}), Building(map[], {}), t);
  }

  /** A build from an empty store to all written meets the premises, and the
      next build finds the row it stored. */
  lemma PremisesCanBeMet()
    ensures Sound(Front(), CorpusOf(Front(), Complete())) && Initial(Before()) && CanReach(Before(), Complete())
    ensures JobIs(Complete(), LEFT) && Complete().run.value.jobs[LEFT] == Done(0, STAT, true, Row(LeftRow()))
    ensures StampHit(Complete(), LEFT, STAT.value) == Some(LeftRow())
  {
    Premises();
    AllReachable();
    assert CorpusOf(Front(), Complete()) == CorpusOf(Front(), Before());
    var es :| Runs(Front(), Before(), es, Complete());
    WarmStart(Front(), Before(), es, Complete(), LEFT);
  }

  lemma AllReachable()
    ensures CanReach(Before(), Complete())
  {
    assert Runs(Front(), Complete(), [], Complete());
    PutsStamps();
    Commits();
    Finishes();
    Then(Committed(), PutStamps({LEFT}), Complete(), Complete());
    Then(Parsed(Finishing), Commit({KeyOfLeft()}), Committed(), Complete());
    Then(Parsed(Working), Finish, Parsed(Finishing), Complete());
    VisitReaches(Complete());
    StartReaches(Complete());
  }
}
