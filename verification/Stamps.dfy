/** Caches keyed by `(mtime, len)`: file stamps, the binary-sniff cache, the
    ignore-matcher cache and the shebang cache, as one step system in which
    writers interleave anywhere between stat, trust check, look-up, read and
    record.  One path; times are in nanoseconds. */
module Stamps {
  import opened Types

  /** Mtimes younger than this may be shared by two writes. */
  const WINDOW: int := 2_000_000_000

  /** What is on disk after one write or removal. */
  datatype Version = Version(mtime: int, content: Option<Text>)

  datatype Stat = Stat(mtime: int, len: nat)

  function StatOf(v: Version): Option<Stat> {
    match v.content case None => None case Some(c) => Some(Stat(v.mtime, |c|))
  }

  predicate Shows(v: Version, mtime: int) {
    v.content.Some? && v.mtime == mtime
  }

  /** How one cache uses stamps.  `read` is the verdict on what a read finds,
      `absent` the answer for a file whose stat fails, where there is one. */
  datatype Policy<!R> = Policy(
    read: Option<Text> -> R, absent: Option<R>, cachesAbsence: bool, recordsYoung: bool)

  datatype Phase<R> =
    | Idle
    | Statted(at: nat, stat: Option<Stat>)
    | Checked(at: nat, stat: Option<Stat>, trusted: bool)
    | Missed(at: nat, stat: Option<Stat>, trusted: bool)
    | Holding(at: nat, stat: Option<Stat>, trusted: bool, value: R)
    | Answered(at: nat, value: R)

  /** `disk` lists every version so far, the current one last; `at` in a phase
      is the version its stat saw.  Reads are atomic. */
  datatype State<R> = State(
    now: int, disk: seq<Version>, cache: map<Option<Stat>, R>, agents: map<nat, Phase<R>>)

  /** `Forget` is a capacity clear; a recording that replaces the path's only
      entry is `Record` after `Forget`. */
  datatype Event =
    | Tick(ns: nat)
    | Write(version: Version)
    | Forget(keys: set<Option<Stat>>)
    | Start(agent: nat)
    | Check(agent: nat)
    | LookUp(agent: nat)
    | Read(agent: nat)
    | Record(agent: nat)
    | Return(agent: nat)

  function Now<R>(s: State<R>): Version
    requires |s.disk| > 0
  { s.disk[|s.disk| - 1] }

  function PhaseOf<R>(s: State<R>, a: nat): Phase<R> {
    if a in s.agents then s.agents[a] else Idle
  }

  predicate Trusted<R>(p: Policy<R>, s: State<R>, stat: Option<Stat>)
    requires |s.disk| > 0
  {
    match stat
    case None => p.cachesAbsence && Now(s).content.None?
    case Some(st) => s.now - st.mtime >= WINDOW
  }

  /** A write dates the file no later than the clock and less than the window
      before it. */
  predicate Enabled<R>(p: Policy<R>, s: State<R>, e: Event) {
    |s.disk| > 0 &&
    match e
    case Tick(_) => true
    case Write(v) => s.now - WINDOW < v.mtime <= s.now
    case Forget(_) => true
    case Start(a) => PhaseOf(s, a).Idle? || PhaseOf(s, a).Answered?
    case Check(a) => PhaseOf(s, a).Statted?
    case LookUp(a) => PhaseOf(s, a).Checked?
    case Read(a) => PhaseOf(s, a).Missed?
    case Record(a) => var h := PhaseOf(s, a); h.Holding? && (h.trusted || (p.recordsYoung && h.stat.Some?))
    case Return(a) => PhaseOf(s, a).Holding?
  }

  function Step<R>(p: Policy<R>, s: State<R>, e: Event): State<R>
    requires Enabled(p, s, e)
  {
    match e
    case Tick(ns) => s.(now := s.now + ns)
    case Write(v) => s.(disk := s.disk + [v])
    case Forget(keys) => s.(cache := s.cache - keys)
    case Start(a) => s.(agents := s.agents[a := Statted(|s.disk| - 1, StatOf(Now(s)))])
    case Check(a) =>
      var h := PhaseOf(s, a);
      s.(agents := s.agents[a := Checked(h.at, h.stat, Trusted(p, s, h.stat))])
    case LookUp(a) =>
      var h := PhaseOf(s, a);
      s.(agents := s.agents[a :=
        if h.trusted && h.stat in s.cache then Answered(h.at, s.cache[h.stat])
        else Missed(h.at, h.stat, h.trusted)])
    case Read(a) =>
      var h := PhaseOf(s, a);
      var value := if h.stat.None? && p.absent.Some? then p.absent.value else p.read(Now(s).content);
      s.(agents := s.agents[a := Holding(h.at, h.stat, h.trusted, value)])
    case Record(a) =>
      var h := PhaseOf(s, a);
      s.(cache := s.cache[h.stat := h.value], agents := s.agents[a := Answered(h.at, h.value)])
    case Return(a) =>
      var h := PhaseOf(s, a);
      s.(agents := s.agents[a := Answered(h.at, h.value)])
  }

  ghost predicate Runs<R>(p: Policy<R>, s: State<R>, es: seq<Event>, t: State<R>)
    decreases |es|
  {
    if es == [] then s == t
    else Enabled(p, s, es[0]) && Runs(p, Step(p, s, es[0]), es[1..], t)
  }

  predicate Initial<R>(s: State<R>) {
    |s.disk| > 0 && s.cache == map[] && s.agents == map[] && Now(s).mtime <= s.now
  }

  // ------------------------------------------------------------------
  // The invariant

  /** No version after `r` shows this mtime. */
  predicate Settled(disk: seq<Version>, mtime: int, r: nat) {
    forall i :: r < i < |disk| ==> !Shows(disk[i], mtime)
  }

  /** `value` is what a reader of version `r` gets. */
  predicate ReadAt<R(==)>(p: Policy<R>, disk: seq<Version>, r: nat, value: R) {
    r < |disk| && value == p.read(disk[r].content)
  }

  predicate AbsentAt<R(==)>(p: Policy<R>, disk: seq<Version>, r: nat, value: R) {
    r < |disk| && disk[r].content.None? && p.absent == Some(value)
  }

  predicate SettledRead<R(==)>(p: Policy<R>, disk: seq<Version>, mtime: int, r: nat, value: R) {
    ReadAt(p, disk, r, value) && Settled(disk, mtime, r)
  }

  /** An answer given to an agent is what some version at or after its stat
      says: as if the agent had done nothing but read the file. */
  ghost predicate Justified<R>(p: Policy<R>, disk: seq<Version>, at: nat, value: R) {
    exists j: nat :: at <= j && (ReadAt(p, disk, j, value) || AbsentAt(p, disk, j, value))
  }

  /** What a passed trust check leaves true for good. */
  predicate Past<R>(p: Policy<R>, s: State<R>, stat: Option<Stat>) {
    match stat case None => p.absent.Some? case Some(st) => s.now - st.mtime >= WINDOW
  }

  ghost predicate EntryOk<R>(p: Policy<R>, s: State<R>, stat: Option<Stat>, value: R) {
    Past(p, s, stat) &&
    match stat
    case None => p.absent == Some(value)
    case Some(st) => exists r: nat :: SettledRead(p, s.disk, st.mtime, r, value)
  }

  predicate Seen<R>(s: State<R>, at: nat, stat: Option<Stat>) {
    at < |s.disk| && StatOf(s.disk[at]) == stat
  }

  ghost predicate PhaseOk<R>(p: Policy<R>, s: State<R>, h: Phase<R>) {
    match h
    case Idle => true
    case Statted(at, stat) => Seen(s, at, stat)
    case Checked(at, stat, trusted) => Seen(s, at, stat) && (trusted ==> Past(p, s, stat))
    case Missed(at, stat, trusted) => Seen(s, at, stat) && (trusted ==> Past(p, s, stat))
    case Holding(at, stat, trusted, value) =>
      Seen(s, at, stat) && Justified(p, s.disk, at, value) && (trusted ==> EntryOk(p, s, stat, value))
    case Answered(at, value) => Justified(p, s.disk, at, value)
  }

  ghost predicate Inv<R>(p: Policy<R>, s: State<R>) {
    |s.disk| > 0
    && (forall k :: k in s.cache ==> EntryOk(p, s, k, s.cache[k]))
    && (forall a :: a in s.agents ==> PhaseOk(p, s, s.agents[a]))
  }

  /** Caches that hold only settled entries and, if they remember absence at
      all, have an answer for it. */
  predicate Careful<R>(p: Policy<R>) {
    !p.recordsYoung && (p.cachesAbsence ==> p.absent.Some?)
  }

  /** Time passes and versions accumulate. */
  predicate Later<R>(s: State<R>, t: State<R>) {
    s.now <= t.now && |s.disk| <= |t.disk| && t.disk[..|s.disk|] == s.disk
    && forall i :: |s.disk| <= i < |t.disk| ==> s.now - WINDOW < t.disk[i].mtime
  }

  lemma JustifiedLater<R>(p: Policy<R>, s: State<R>, t: State<R>, at: nat, value: R)
    requires Later(s, t) && Justified(p, s.disk, at, value)
    ensures Justified(p, t.disk, at, value)
  {
    var j: nat :| at <= j && (ReadAt(p, s.disk, j, value) || AbsentAt(p, s.disk, j, value));
    assert t.disk[j] == t.disk[..|s.disk|][j] == s.disk[j];
    assert ReadAt(p, t.disk, j, value) || AbsentAt(p, t.disk, j, value);
  }

  /** A settled entry stays settled: later writes carry later mtimes. */
  lemma EntryLater<R>(p: Policy<R>, s: State<R>, t: State<R>, stat: Option<Stat>, value: R)
    requires Later(s, t) && EntryOk(p, s, stat, value)
    ensures EntryOk(p, t, stat, value)
  {
    if stat.Some? {
      var m := stat.value.mtime;
      var r: nat :| SettledRead(p, s.disk, m, r, value);
      forall i | r < i < |t.disk| ensures !Shows(t.disk[i], m) {
        if i < |s.disk| { assert t.disk[i] == t.disk[..|s.disk|][i] == s.disk[i]; }
      }
      assert t.disk[r] == t.disk[..|s.disk|][r] == s.disk[r];
      assert SettledRead(p, t.disk, m, r, value);
    }
  }

  lemma PhaseLater<R>(p: Policy<R>, s: State<R>, t: State<R>, h: Phase<R>)
    requires Later(s, t) && PhaseOk(p, s, h)
    ensures PhaseOk(p, t, h)
  {
    match h
    case Idle =>
    case Statted(at, _) => assert t.disk[at] == t.disk[..|s.disk|][at];
    case Checked(at, _, _) => assert t.disk[at] == t.disk[..|s.disk|][at];
    case Missed(at, _, _) => assert t.disk[at] == t.disk[..|s.disk|][at];
    case Holding(at, stat, trusted, value) =>
      assert t.disk[at] == t.disk[..|s.disk|][at];
      JustifiedLater(p, s, t, at, value);
      if trusted { EntryLater(p, s, t, stat, value); }
    case Answered(at, value) => JustifiedLater(p, s, t, at, value);
  }

  /** A read after a passed trust check may be recorded under the old stamp. */
  lemma FreshReadIsSettled<R>(p: Policy<R>, s: State<R>, at: nat, stat: Option<Stat>, value: R)
    requires Careful(p) && |s.disk| > 0 && Seen(s, at, stat)
    requires value == if stat.None? && p.absent.Some? then p.absent.value else p.read(Now(s).content)
    ensures Justified(p, s.disk, at, value)
    ensures Past(p, s, stat) ==> EntryOk(p, s, stat, value)
  {
    var last := |s.disk| - 1;
    if stat.None? && p.absent.Some? {
      assert AbsentAt(p, s.disk, at, value);
    } else {
      assert ReadAt(p, s.disk, last, value);
      if stat.Some? { assert SettledRead(p, s.disk, stat.value.mtime, last, value); }
    }
  }

  /** A hit answers for a version no older than the agent's stat. */
  lemma HitIsJustified<R>(p: Policy<R>, s: State<R>, at: nat, stat: Option<Stat>, value: R)
    requires Seen(s, at, stat) && EntryOk(p, s, stat, value)
    ensures Justified(p, s.disk, at, value)
  {
    match stat
    case None => assert AbsentAt(p, s.disk, at, value);
    case Some(st) =>
      var r: nat :| SettledRead(p, s.disk, st.mtime, r, value);
      assert Shows(s.disk[at], st.mtime);
  }

  lemma StepKeepsInv<R>(p: Policy<R>, s: State<R>, e: Event)
    requires Careful(p) && Inv(p, s) && Enabled(p, s, e)
    ensures Inv(p, Step(p, s, e)) && Later(s, Step(p, s, e))
  {
    var t := Step(p, s, e);
    assert Later(s, t) by {
      if e.Write? { assert t.disk[..|s.disk|] == s.disk; } else { assert t.disk[..|s.disk|] == s.disk; }
    }
    forall k | k in t.cache ensures EntryOk(p, t, k, t.cache[k]) {
      if e.Record? && k == PhaseOf(s, e.agent).stat {
        assert PhaseOk(p, s, s.agents[e.agent]);
        EntryLater(p, s, t, k, t.cache[k]);
      } else {
        EntryLater(p, s, t, k, s.cache[k]);
      }
    }
    forall a | a in t.agents ensures PhaseOk(p, t, t.agents[a]) {
      if a in s.agents && t.agents[a] == s.agents[a] {
        PhaseLater(p, s, t, s.agents[a]);
      } else {
        MoveKeepsPhase(p, s, e, a);
      }
    }
  }

  lemma MoveKeepsPhase<R>(p: Policy<R>, s: State<R>, e: Event, a: nat)
    requires Careful(p) && Inv(p, s) && Enabled(p, s, e)
    requires a in Step(p, s, e).agents && !(a in s.agents && Step(p, s, e).agents[a] == s.agents[a])
    ensures PhaseOk(p, Step(p, s, e), Step(p, s, e).agents[a])
  {
    var h := PhaseOf(s, a);
    match e
    case Start(_) =>
    case Check(_) =>
    case LookUp(_) =>
      if h.trusted && h.stat in s.cache { HitIsJustified(p, s, h.at, h.stat, s.cache[h.stat]); }
    case Read(_) =>
      var value := if h.stat.None? && p.absent.Some? then p.absent.value else p.read(Now(s).content);
      FreshReadIsSettled(p, s, h.at, h.stat, value);
      var t := Step(p, s, e);
      if h.trusted { EntryLater(p, s, t, h.stat, value); }
    case Record(_) =>
    case Return(_) =>
  }

  lemma {:induction false} RunKeepsInv<R>(p: Policy<R>, s: State<R>, es: seq<Event>, t: State<R>)
    requires Careful(p) && Inv(p, s) && Runs(p, s, es, t)
    ensures Inv(p, t)
    decreases |es|
  {
    if es != [] {
      StepKeepsInv(p, s, es[0]);
      RunKeepsInv(p, Step(p, s, es[0]), es[1..], t);
    }
  }

  /** A recorded stamp never yields a stale answer: whatever the interleaving,
      an entry whose key is the present `(mtime, len)` holds what the present
      bytes say. */
  lemma NoStaleEntry<R>(p: Policy<R>, s: State<R>, es: seq<Event>, t: State<R>)
    requires Careful(p) && Initial(s) && Runs(p, s, es, t)
    ensures |t.disk| > 0
    ensures StatOf(Now(t)) in t.cache ==>
              var found := t.cache[StatOf(Now(t))];
              if StatOf(Now(t)).None? then p.absent == Some(found) else found == p.read(Now(t).content)
  {
    RunKeepsInv(p, s, es, t);
    var k := StatOf(Now(t));
    if k in t.cache && k.Some? {
      var r: nat :| SettledRead(p, t.disk, k.value.mtime, r, t.cache[k]);
      assert Shows(t.disk[|t.disk| - 1], k.value.mtime);
    }
  }

  /** Every answer, hit or miss, is one a plain read after the stat gives; with
      no write in between it is the answer of the bytes the stat saw. */
  lemma AnswersAreLinearizable<R>(p: Policy<R>, s: State<R>, es: seq<Event>, t: State<R>, a: nat)
    requires Careful(p) && Initial(s) && Runs(p, s, es, t) && PhaseOf(t, a).Answered?
    ensures Justified(p, t.disk, PhaseOf(t, a).at, PhaseOf(t, a).value)
    ensures |t.disk| == PhaseOf(t, a).at + 1 ==>
              ReadAt(p, t.disk, |t.disk| - 1, PhaseOf(t, a).value)
                  || AbsentAt(p, t.disk, |t.disk| - 1, PhaseOf(t, a).value)
  {
    RunKeepsInv(p, s, es, t);
    assert PhaseOk(p, t, t.agents[a]);
  }

  /** A recorded answer is used: as long as the file is left alone, the next
      agent that finds it old enough gets the recorded value without a read. */
  lemma RecordedAnswers<R>(p: Policy<R>, s: State<R>, a: nat, b: nat) returns (t: State<R>)
    requires Enabled(p, s, Record(a)) && a != b && (PhaseOf(s, b).Idle? || PhaseOf(s, b).Answered?)
    requires StatOf(Now(s)) == PhaseOf(s, a).stat && Trusted(p, s, StatOf(Now(s)))
    ensures Runs(p, s, [Record(a), Start(b), Check(b), LookUp(b)], t)
    ensures PhaseOf(t, b) == Answered(|s.disk| - 1, PhaseOf(s, a).value)
  {
    var s1 := Step(p, s, Record(a));
    var s2 := Step(p, s1, Start(b));
    var s3 := Step(p, s2, Check(b));
    t := Step(p, s3, LookUp(b));
    assert Runs(p, t, [], t);
    assert [LookUp(b)][1..] == [];
    assert Runs(p, s3, [LookUp(b)], t);
    assert [Check(b), LookUp(b)][1..] == [LookUp(b)];
    assert Runs(p, s2, [Check(b), LookUp(b)], t);
    assert [Start(b), Check(b), LookUp(b)][1..] == [Check(b), LookUp(b)];
    assert Runs(p, s1, [Start(b), Check(b), LookUp(b)], t);
    assert [Record(a), Start(b), Check(b), LookUp(b)][1..] == [Start(b), Check(b), LookUp(b)];
    assert Runs(p, s, [Record(a), Start(b), Check(b), LookUp(b)], t);
  }

  /** The caches that fit: persisted file stamps and the binary-sniff cache
      never cache absence, the ignore-matcher cache answers it without a read. */
  lemma CarefulCaches<R>(stampRead: Option<Text> -> R, matcherRead: Option<Text> -> R, noMatcher: R)
    ensures Careful(Policy(stampRead, None, false, false))
    ensures Careful(Policy(matcherRead, Some(noMatcher), true, false))
  {}

  // ------------------------------------------------------------------
  // The shebang cache records young entries too

  const BOM: Text := [0xEF, 0xBB, 0xBF]
  const HASH_BANG: Text := [0x23, 0x21]

  /** The verdict on the first five bytes. */
  function HasShebang(content: Option<Text>): bool {
    match content
    case None => false
    case Some(c) =>
      var head := if |c| <= 5 then c else c[..5];
      var rest := if BOM <= head then head[3..] else head;
      HASH_BANG <= rest
  }

  function ShebangPolicy(): Policy<bool> { Policy(HasShebang, Some(false), false, true) }

  predicate OnlyDiskMoves(es: seq<Event>) {
    forall i :: 0 <= i < |es| ==> es[i].Tick? || es[i].Write?
  }

  /** A trusted hit on this entry now would contradict the bytes on disk. */
  predicate Stale<R(==)>(p: Policy<R>, s: State<R>, st: Stat) {
    |s.disk| > 0 && Some(st) in s.cache && StatOf(Now(s)) == Some(st)
    && Trusted(p, s, Some(st)) && s.cache[Some(st)] != p.read(Now(s).content)
  }

  /** Some writes and some waiting make the entry stale. */
  ghost predicate CanGoStale<R(!new)>(p: Policy<R>, s: State<R>, st: Stat) {
    exists es, t :: OnlyDiskMoves(es) && Runs(p, s, es, t) && Stale(p, t, st)
  }

  /** Not contradicted by the bytes on disk now. */
  predicate RightNow<R(==)>(p: Policy<R>, s: State<R>, st: Stat) {
    |s.disk| > 0 && Some(st) in s.cache
    && (StatOf(Now(s)) == Some(st) ==> s.cache[Some(st)] == p.read(Now(s).content))
  }

  ghost predicate Refutable<R>(p: Policy<R>, value: R, len: nat) {
    exists c: Text :: |c| == len && p.read(Some(c)) != value
  }

  lemma {:induction false} OldEntriesStayRight<R>(p: Policy<R>, s: State<R>, es: seq<Event>, t: State<R>, st: Stat)
    requires RightNow(p, s, st) && s.now - st.mtime >= WINDOW
    requires OnlyDiskMoves(es) && Runs(p, s, es, t)
    ensures RightNow(p, t, st)
    decreases |es|
  {
    if es != [] {
      OldEntriesStayRight(p, Step(p, s, es[0]), es[1..], t, st);
    }
  }

  /** The exact condition: an entry that is right now can go stale iff it is
      still inside the window and other bytes of its length have the other
      verdict. */
  lemma StaleIffYoung<R(!new)>(p: Policy<R>, s: State<R>, st: Stat)
    requires RightNow(p, s, st) && st.mtime <= s.now
    ensures CanGoStale(p, s, st) <==> s.now - st.mtime < WINDOW && Refutable(p, s.cache[Some(st)], st.len)
  {
    if CanGoStale(p, s, st) {
      var es, t :| OnlyDiskMoves(es) && Runs(p, s, es, t) && Stale(p, t, st);
      CacheKept(p, s, es, t);
      if s.now - st.mtime >= WINDOW { OldEntriesStayRight(p, s, es, t, st); }
      assert |Now(t).content.value| == st.len;
    }
    if s.now - st.mtime < WINDOW && Refutable(p, s.cache[Some(st)], st.len) {
      var c: Text :| |c| == st.len && p.read(Some(c)) != s.cache[Some(st)];
      var es := [Write(Version(st.mtime, Some(c))), Tick(WINDOW)];
      var u := Step(p, s, es[0]);
      var t := Step(p, u, es[1]);
      assert es[1..] == [Tick(WINDOW)] && es[1..][1..] == [];
      assert Runs(p, u, es[1..], t);
      assert Runs(p, s, es, t) && Stale(p, t, st);
    }
  }

  lemma {:induction false} CacheKept<R>(p: Policy<R>, s: State<R>, es: seq<Event>, t: State<R>)
    requires OnlyDiskMoves(es) && Runs(p, s, es, t)
    ensures t.cache == s.cache
    decreases |es|
  {
    if es != [] { CacheKept(p, Step(p, s, es[0]), es[1..], t); }
  }

  /** A script begins with `#!`, alone or after a byte order mark. */
  lemma ShebangIff(c: Text)
    ensures HasShebang(Some(c)) <==>
      || (|c| >= 2 && c[0] == '#' as int && c[1] == '!' as int)
      || (|c| >= 5 && c[0] == 0xEF && c[1] == 0xBB && c[2] == 0xBF && c[3] == '#' as int && c[4] == '!' as int)
  {
    var head := if |c| <= 5 then c else c[..5];
    assert BOM <= head <==> |c| >= 3 && c[0] == 0xEF && c[1] == 0xBB && c[2] == 0xBF;
    var rest := if BOM <= head then head[3..] else head;
    assert HASH_BANG <= rest <==> |rest| >= 2 && rest[0] == 0x23 && rest[1] == 0x21;
  }

  lemma VerdictByHead(c: Text)
    ensures |c| >= 2 && c[0] == 0x23 && c[1] == 0x21 ==> HasShebang(Some(c))
    ensures |c| == 0 || (c[0] != 0x23 && c[0] != 0xEF) ==> !HasShebang(Some(c))
  {
    var head := if |c| <= 5 then c else c[..5];
    if |c| > 0 && BOM <= head { assert head[0] == BOM[0] == 0xEF; }
    if |c| >= 2 && c[0] == 0x23 && c[1] == 0x21 { assert head[..2] == HASH_BANG; }
    if |c| == 0 || c[0] != 0x23 {
      assert |head| == 0 || head[0] != HASH_BANG[0];
    }
  }

  /** For `#!`: young, and long enough to hold the two characters or already
      judged a script. */
  lemma ShebangStaleIff(s: State<bool>, st: Stat)
    requires RightNow(ShebangPolicy(), s, st) && st.mtime <= s.now
    ensures CanGoStale(ShebangPolicy(), s, st) <==>
            s.now - st.mtime < 2_000_000_000 && (st.len >= 2 || s.cache[Some(st)])
  {
    StaleIffYoung(ShebangPolicy(), s, st);
    var plain: Text := seq(st.len, _ => 0);
    VerdictByHead(plain);
    if st.len >= 2 {
      var script: Text := HASH_BANG + seq(st.len - 2, _ => 0);
      VerdictByHead(script);
      assert |script| == st.len && ShebangPolicy().read(Some(script));
    }
    assert |plain| == st.len && !ShebangPolicy().read(Some(plain));
    if Refutable(ShebangPolicy(), s.cache[Some(st)], st.len) && !s.cache[Some(st)] {
      var c: Text :| |c| == st.len && ShebangPolicy().read(Some(c)) != s.cache[Some(st)];
    }
  }

  ghost predicate Reaches<R(!new)>(p: Policy<R>, s: State<R>, t: State<R>) {
    exists es :: Runs(p, s, es, t)
  }

  lemma ReachesSelf<R(!new)>(p: Policy<R>, s: State<R>)
    ensures Reaches(p, s, s)
  {
    assert Runs(p, s, [], s);
  }

  lemma ReachesFirst<R(!new)>(p: Policy<R>, s: State<R>, e: Event, u: State<R>, t: State<R>)
    requires Enabled(p, s, e) && u == Step(p, s, e) && Reaches(p, u, t)
    ensures Reaches(p, s, t)
  {
    var es :| Runs(p, u, es, t);
    assert ([e] + es)[1..] == es;
    assert Runs(p, s, [e] + es, t);
  }

  /** From a fresh start, agent `a` got an answer no version since its stat
      supports. */
  ghost predicate ServesStale(s: State<bool>, t: State<bool>, a: nat) {
    Initial(s) && Reaches(ShebangPolicy(), s, t) && PhaseOf(t, a).Answered?
    && !Justified(ShebangPolicy(), t.disk, PhaseOf(t, a).at, PhaseOf(t, a).value)
  }

  function Wrote(c: Text): Version { Version(0, Some(c)) }

  lemma {:induction false} YoungRead(c: Text, t: State<bool>)
    requires |c| == 2 && !HasShebang(Some(c))
    requires Reaches(ShebangPolicy(),
        State(0, [Wrote(c)], map[Some(Stat(0, 2)) := false], map[0 := Answered(0, false)]), t)
    ensures Reaches(ShebangPolicy(), State(0, [Wrote(c)], map[], map[0 := Missed(0, Some(Stat(0, 2)), false)]), t)
  {
    var p := ShebangPolicy();
    var k := Some(Stat(0, 2));
    var s: State<bool> := State(0, [Wrote(c)], map[], map[]);
    var s3 := s.(agents := map[0 := Missed(0, k, false)]);
    var s4 := s.(agents := map[0 := Holding(0, k, false, false)]);
    var s5 := s.(cache := map[k := false], agents := map[0 := Answered(0, false)]);
    ReachesFirst(p, s4, Record(0), s5, t);
    ReachesFirst(p, s3, Read(0), s4, t);
  }

  /** The verdict on two plain bytes is recorded within the window. */
  lemma YoungRecord(c: Text, t: State<bool>)
    requires |c| == 2 && !HasShebang(Some(c))
    requires Reaches(ShebangPolicy(),
        State(0, [Wrote(c)], map[Some(Stat(0, 2)) := false], map[0 := Answered(0, false)]), t)
    ensures Reaches(ShebangPolicy(), State(0, [Wrote(c)], map[], map[]), t)
  {
    var p := ShebangPolicy();
    var k := Some(Stat(0, 2));
    var s: State<bool> := State(0, [Wrote(c)], map[], map[]);
    var s1 := s.(agents := map[0 := Statted(0, k)]);
    var s2 := s.(agents := map[0 := Checked(0, k, false)]);
    var s3 := s.(agents := map[0 := Missed(0, k, false)]);
    YoungRead(c, t);
    ReachesFirst(p, s2, LookUp(0), s3, t);
    ReachesFirst(p, s1, Check(0), s2, t);
    ReachesFirst(p, s, Start(0), s1, t);
  }

  /** The state once the rewritten file is old. */
  function Rewritten(c: Text, script: Text): State<bool> {
    State(WINDOW, [Wrote(c), Wrote(script)], map[Some(Stat(0, 2)) := false], map[0 := Answered(0, false)])
  }

  lemma LateProbe(c: Text, script: Text, t: State<bool>)
    requires |script| == 2
        && t == Rewritten(c, script).(agents := map[0 := Answered(0, false), 1 := Answered(1, false)])
    ensures Reaches(ShebangPolicy(), Rewritten(c, script), t)
  {
    var p := ShebangPolicy();
    var k := Some(Stat(0, 2));
    var s7 := Rewritten(c, script);
    var s8 := s7.(agents := map[0 := Answered(0, false), 1 := Statted(1, k)]);
    var s9 := s7.(agents := map[0 := Answered(0, false), 1 := Checked(1, k, true)]);
    ReachesSelf(p, t);
    ReachesFirst(p, s9, LookUp(1), t, t);
    ReachesFirst(p, s8, Check(1), s9, t);
    ReachesFirst(p, s7, Start(1), s8, t);
  }

  /** A file probed within the window of its write, rewritten at once with the
      same length and mtime, then probed when the stamp is old. */
  lemma ShebangServesStale()
    ensures exists s, t :: ServesStale(s, t, 1)
  {
    var c: Text, script: Text := [0, 0], HASH_BANG;
    VerdictByHead(c);
    VerdictByHead(script);
    var p := ShebangPolicy();
    var s7 := Rewritten(c, script);
    var s6 := s7.(now := 0);
    var s5 := s6.(disk := [Wrote(c)]);
    var t := s7.(agents := map[0 := Answered(0, false), 1 := Answered(1, false)]);
    LateProbe(c, script, t);
    ReachesFirst(p, s6, Tick(WINDOW), s7, t);
    ReachesFirst(p, s5, Write(Wrote(script)), s6, t);
    YoungRecord(c, t);
    assert ServesStale(State(0, [Wrote(c)], map[], map[]), t, 1);
  }
}
