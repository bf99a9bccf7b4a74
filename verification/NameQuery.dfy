/** A whole name-path query: reading its text, names that hold slashes, the
    candidates from the name table or a scan, and the ordered result. */
module NameQuery {
  import opened Types
  import opened Sorting
  import opened NamePath
  import opened NameMatch
  import NameTable
  import Paths

  // ---------------------------------------------------------- candidates

  /** Positions below `n` whose lower-case name the segment matches. */
  function Named(names: seq<Text>, n: nat, seg: Text, substring: bool): (r: seq<nat>)
    requires n <= |names|
    ensures Ascending(r) && forall i: nat :: i in r <==> i < n && NameMatches(names[i], seg, substring)
  {
    if n == 0 then [] else
    var r := Named(names, n - 1, seg, substring);
    assert forall k :: 0 <= k < |r| ==> r[k] in r;
    r + (if NameMatches(names[n - 1], seg, substring) then [n - 1] else [])
  }

  /** The table, if there is one, was built from these names. */
  ghost predicate TableOf(names: seq<Text>, table: Option<NameTable.Table>) {
    table.Some? ==> table.value.Valid() && table.value.lower == names
  }

  lemma ExactIsNamed(names: seq<Text>, seg: Text)
    ensures NameTable.Matching(names, |names|, seg) == Named(names, |names|, seg, false)
  {
    AscendingUnique(NameTable.Matching(names, |names|, seg), Named(names, |names|, seg, false));
  }

  /** With or without a table, in table order either way. */
  method Candidates(names: seq<Text>, table: Option<NameTable.Table>, seg: Text, substring: bool) returns (r: seq<nat>)
    requires TableOf(names, table)
    ensures r == Named(names, |names|, seg, substring)
  {
    if table.Some? && !substring {
      ExactIsNamed(names, seg);
      r := NameTable.Exact(table.value, seg);
    } else {
      r := [];
      for i := 0 to |names|
        invariant r == Named(names, i, seg, substring)
      {
        if NameMatches(names[i], seg, substring) { r := r + [i]; }
      }
    }
  }

  predicate AnyNamed(names: seq<Text>, seg: Text, substring: bool) {
    exists i :: 0 <= i < |names| && NameMatches(names[i], seg, substring)
  }

  method IsNamed(names: seq<Text>, table: Option<NameTable.Table>, seg: Text, substring: bool) returns (r: bool)
    requires TableOf(names, table)
    ensures r <==> AnyNamed(names, seg, substring)
  {
    var found := Candidates(names, table, seg, substring);
    assert forall i: nat :: i in found <==> i < |names| && NameMatches(names[i], seg, substring);
    r := found != [];
    if r { assert found[0] in found; }
  }

  // ------------------------------------------------------------- reading

  /** Segments as written, outermost first. */
  datatype Parts = Parts(segments: seq<Text>, absolute: bool, trailingSlash: bool)

  function Segments(trim: Text -> Text, s: Text): (r: seq<Text>)
    ensures forall seg :: seg in r <==> exists piece :: piece in Paths.Split(s) && trim(piece) == seg && seg != []
  {
    NonEmpty(trim, Paths.Split(s))
  }

  function NonEmpty(trim: Text -> Text, pieces: seq<Text>): (r: seq<Text>)
    ensures forall seg :: seg in r <==> exists piece :: piece in pieces && trim(piece) == seg && seg != []
  {
    if pieces == [] then [] else
    assert pieces == [pieces[0]] + pieces[1..];
    (if trim(pieces[0]) == [] then [] else [trim(pieces[0])]) + NonEmpty(trim, pieces[1..])
  }

  function PartsOf(trim: Text -> Text, whole: Text): Parts {
    var n := |whole|;
    Parts(Segments(trim, whole), n > 0 && whole[0] == Paths.SLASH, n > 0 && whole[n - 1] == Paths.SLASH)
  }

  /** Past the slash at `pos` stands a name that itself holds a slash. */
  predicate SlashedName(
    names: seq<Text>, lower: Text -> Text, trim: Text -> Text, whole: Text, pos: nat, substring: bool) {
    && pos < |whole| && whole[pos] == Paths.SLASH
    && Paths.SLASH in trim(whole[pos + 1..]) && AnyNamed(names, lower(trim(whole[pos + 1..])), substring)
  }

  /** The longest tail that is such a name starts after `pos`. */
  predicate FirstTail(
    names: seq<Text>, lower: Text -> Text, trim: Text -> Text, whole: Text, pos: nat, substring: bool) {
    SlashedName(names, lower, trim, whole, pos, substring)
    && forall earlier :: 0 <= earlier < pos ==> !SlashedName(names, lower, trim, whole, earlier, substring)
  }

  /** How a query is understood: as one name if its whole text names something;
      else with the longest tail that is a name with a slash; else slash by
      slash. */
  ghost predicate Understood(
    names: seq<Text>, lower: Text -> Text, trim: Text -> Text, whole: Text, substring: bool, parts: Parts)
  {
    var plain := PartsOf(trim, whole);
    if Paths.SLASH in whole && AnyNamed(names, lower(whole), substring) then parts == Parts([whole], false, false)
    else if exists pos: nat :: SlashedName(names, lower, trim, whole, pos, substring) then
      exists pos: nat :: FirstTail(names, lower, trim, whole, pos, substring)
        && parts == Parts(Segments(trim, whole[..pos]) + [trim(whole[pos + 1..])], plain.absolute, false)
    else parts == plain
  }

  method Understand(
    names: seq<Text>, table: Option<NameTable.Table>, lower: Text -> Text, trim: Text -> Text, whole: Text,
    substring: bool)
    returns (parts: Parts)
    requires TableOf(names, table)
    ensures Understood(names, lower, trim, whole, substring, parts)
  {
    parts := PartsOf(trim, whole);
    if Paths.SLASH !in whole { return; }
    var named := IsNamed(names, table, lower(whole), substring);
    if named { return Parts([whole], false, false); }
    for pos := 0 to |whole|
      invariant forall earlier :: 0 <= earlier < pos ==> !SlashedName(names, lower, trim, whole, earlier, substring)
    {
      if whole[pos] == Paths.SLASH {
        var tail := trim(whole[pos + 1..]);
        if tail != [] && Paths.SLASH in tail {
          var isName := IsNamed(names, table, lower(tail), substring);
          if isName {
            assert FirstTail(names, lower, trim, whole, pos, substring);
            return Parts(Segments(trim, whole[..pos]) + [tail], parts.absolute, false);
          }
        }
      }
    }
  }

  /** A query is understood in one way. */
  lemma {:induction false} UnderstoodOnce(
    names: seq<Text>, lower: Text -> Text, trim: Text -> Text, whole: Text, substring: bool, a: Parts, b: Parts)
    requires Understood(names, lower, trim, whole, substring, a) && Understood(names, lower, trim, whole, substring, b)
    ensures a == b
  {
    if pos: nat :| SlashedName(names, lower, trim, whole, pos, substring) {
      TailOnce(names, lower, trim, whole, substring);
    }
  }

  lemma {:induction false} TailOnce(
    names: seq<Text>, lower: Text -> Text, trim: Text -> Text, whole: Text, substring: bool)
    ensures forall p: nat, q: nat ::
      FirstTail(names, lower, trim, whole, p, substring) && FirstTail(names, lower, trim, whole, q, substring) ==>
        p == q
  {}

  // ------------------------------------------------- reading inverts writing

  /** Segments a query can spell: not empty, without slashes or outer blanks. */
  predicate Spellable(trim: Text -> Text, segs: seq<Text>) {
    && segs != [] && trim([]) == []
    && forall k :: 0 <= k < |segs| ==> segs[k] != [] && Paths.SLASH !in segs[k] && trim(segs[k]) == segs[k]
  }

  /** A path as it is written, from the outermost name to the innermost. */
  function Written(segs: seq<Text>, absolute: bool, trailingSlash: bool): Text {
    (if absolute then [Paths.SLASH] else []) + Paths.Joined(segs) + (if trailingSlash then [Paths.SLASH] else [])
  }

  lemma {:induction false} JoinedEnds(trim: Text -> Text, segs: seq<Text>)
    requires Spellable(trim, segs)
    ensures var s := Paths.Joined(segs); s != [] && s[0] != Paths.SLASH && s[|s| - 1] != Paths.SLASH
    ensures Paths.Joined(segs + [[]]) == Paths.Joined(segs) + [Paths.SLASH]
    decreases |segs|
  {
    assert segs[0] != [] && segs[0][0] in segs[0] && segs[0][|segs[0]| - 1] in segs[0];
    if |segs| > 1 {
      JoinedEnds(trim, segs[1..]);
      assert (segs + [[]])[1..] == segs[1..] + [[]];
    } else {
      assert (segs + [[]])[1..] == [[]];
    }
  }

  lemma {:induction false} NonEmptyKeeps(trim: Text -> Text, segs: seq<Text>)
    requires forall k :: 0 <= k < |segs| ==> segs[k] != [] && trim(segs[k]) == segs[k]
    ensures NonEmpty(trim, segs) == segs
  {
    if segs != [] { NonEmptyKeeps(trim, segs[1..]); }
  }

  lemma {:induction false} NonEmptyConcat(trim: Text -> Text, a: seq<Text>, b: seq<Text>)
    ensures NonEmpty(trim, a + b) == NonEmpty(trim, a) + NonEmpty(trim, b)
  {
    if a == [] {
      assert a + b == b;
    } else {
      assert (a + b)[1..] == a[1..] + b;
      NonEmptyConcat(trim, a[1..], b);
    }
  }

  function SlashPiece(on: bool): (r: seq<Text>)
    ensures forall k :: 0 <= k < |r| ==> r[k] == []
  { if on then [[]] else [] }

  lemma WrittenIsJoined(trim: Text -> Text, segs: seq<Text>, absolute: bool, trailingSlash: bool)
    requires Spellable(trim, segs)
    ensures Written(segs, absolute, trailingSlash) ==
      Paths.Joined(SlashPiece(absolute) + (segs + SlashPiece(trailingSlash)))
  {
    var inner := segs + SlashPiece(trailingSlash);
    var slash: Text := if trailingSlash then [Paths.SLASH] else [];
    JoinedBack(trim, segs, trailingSlash);
    JoinedFront(inner, absolute);
    assert (if absolute then [Paths.SLASH] else []) + Paths.Joined(segs) + slash ==
           (if absolute then [Paths.SLASH] else []) + (Paths.Joined(segs) + slash);
  }

  lemma JoinedBack(trim: Text -> Text, segs: seq<Text>, on: bool)
    requires Spellable(trim, segs)
    ensures Paths.Joined(segs + SlashPiece(on)) == Paths.Joined(segs) + if on then [Paths.SLASH] else []
  {
    JoinedEnds(trim, segs);
    if !on { assert segs + [] == segs; }
  }

  lemma JoinedFront(inner: seq<Text>, on: bool)
    requires inner != []
    ensures Paths.Joined(SlashPiece(on) + inner) == (if on then [Paths.SLASH] else []) + Paths.Joined(inner)
  {
    if on {
      assert ([[]] + inner)[1..] == inner;
      assert [] + [Paths.SLASH] + Paths.Joined(inner) == [Paths.SLASH] + Paths.Joined(inner);
    } else {
      assert [] + inner == inner;
    }
  }

  lemma {:induction false} PiecesRead(trim: Text -> Text, segs: seq<Text>, front: bool, back: bool)
    requires Spellable(trim, segs)
    ensures NonEmpty(trim, SlashPiece(front) + (segs + SlashPiece(back))) == segs
  {
    NonEmptyConcat(trim, SlashPiece(front), segs + SlashPiece(back));
    NonEmptyConcat(trim, segs, SlashPiece(back));
    NonEmptyKeeps(trim, segs);
    NothingKept(trim, front);
    NothingKept(trim, back);
    assert [] + (segs + []) == segs;
  }

  lemma NothingKept(trim: Text -> Text, on: bool)
    requires trim([]) == []
    ensures NonEmpty(trim, SlashPiece(on)) == []
  {
    assert SlashPiece(on) != [] ==> SlashPiece(on)[1..] == [];
  }

  /** Reading a written path gives its names back, in order; a slash in front
      or at the end only sets its flag. */
  lemma ReadsWritten(trim: Text -> Text, segs: seq<Text>, absolute: bool, trailingSlash: bool)
    requires Spellable(trim, segs)
    ensures PartsOf(trim, Written(segs, absolute, trailingSlash)) == Parts(segs, absolute, trailingSlash)
  {
    var pieces := SlashPiece(absolute) + (segs + SlashPiece(trailingSlash));
    WrittenIsJoined(trim, segs, absolute, trailingSlash);
    Paths.SplitJoined(pieces);
    PiecesRead(trim, segs, absolute, trailingSlash);
    WrittenEnds(trim, segs, absolute, trailingSlash);
  }

  lemma WrittenEnds(trim: Text -> Text, segs: seq<Text>, absolute: bool, trailingSlash: bool)
    requires Spellable(trim, segs)
    ensures var s := Written(segs, absolute, trailingSlash);
      s != [] && (s[0] == Paths.SLASH <==> absolute) && (s[|s| - 1] == Paths.SLASH <==> trailingSlash)
  {
    JoinedEnds(trim, segs);
  }

  /** Neither the whole text nor a tail of it names a symbol with a slash in
      its name. */
  ghost predicate PlainlyRead(
    names: seq<Text>, lower: Text -> Text, trim: Text -> Text, whole: Text, substring: bool) {
    && !(Paths.SLASH in whole && AnyNamed(names, lower(whole), substring))
    && forall pos: nat :: !SlashedName(names, lower, trim, whole, pos, substring)
  }

  // -------------------------------------------------------------- result

  datatype Match = Match(symbol: CodeSymbol, at: nat, depth: nat)

  predicate MatchLe(m: Match, n: Match) {
    var a, b := m.symbol, n.symbol;
    if a.file != b.file then a.file < b.file
    else if a.startLine != b.startLine then a.startLine < b.startLine
    else if a.name != b.name then TextLe(a.name, b.name)
    else if a.endLine != b.endLine then a.endLine < b.endLine
    else a.id <= b.id
  }

  lemma MatchOrder()
    ensures TotalPreorder(MatchLe)
  {
    TextOrder();
  }

  function QueryOf(lower: Text -> Text, parts: Parts, substring: bool): Query
    requires parts.segments != []
  {
    var n := |parts.segments| - 1;
    Query(Lowered(lower, parts.segments[..n]), lower(parts.segments[n]), parts.absolute, parts.trailingSlash, substring)
  }

  function Lowered(lower: Text -> Text, segs: seq<Text>): (r: seq<Text>)
    ensures |r| == |segs| && forall i :: 0 <= i < |segs| ==> r[i] == lower(segs[i])
  { seq(|segs|, i requires 0 <= i < |segs| => lower(segs[i])) }

  /** `x` lies `d` covering steps below some match of the path. */
  ghost predicate BelowMatch(syms: seq<CodeSymbol>, lower: Text -> Text, q: Query, x: nat, d: nat) {
    exists m: nat :: Matches(syms, lower, q, m) && Chain(syms, m, x, d)
  }

  /** A symbol of the wanted kind at its least depth within the asked one; the
      matches themselves count at depth 0 only when nothing deeper is asked. */
  ghost predicate Reported(
    syms: seq<CodeSymbol>, lower: Text -> Text, q: Query, kind: Option<SymbolKind>, depth: nat, m: Match) {
    var lo := if depth == 0 then 0 else 1;
    && m.at < |syms| && m.symbol == syms[m.at] && (kind.Some? ==> m.symbol.kind == kind.value)
    && lo <= m.depth <= depth && BelowMatch(syms, lower, q, m.at, m.depth)
    && forall e: nat :: lo <= e < m.depth ==> !BelowMatch(syms, lower, q, m.at, e)
  }

  ghost predicate Answer(
    syms: seq<CodeSymbol>, lower: Text -> Text, q: Query, kind: Option<SymbolKind>, depth: nat, out: seq<Match>) {
    && SortedBy(out, MatchLe) && Distinct(out)
    && forall m :: m in out <==> Reported(syms, lower, q, kind, depth, m)
  }

  /** Ancestors at these places of the chain, outermost first, are called as the
      segments before the last say. */
  predicate Leads(chain: seq<CodeSymbol>, lower: Text -> Text, segs: seq<Text>, places: seq<nat>) {
    && |places| == |segs| - 1
    && (forall j :: 0 <= j < |places| ==> places[j] < |chain| && lower(chain[places[j]].name) == lower(segs[j]))
    && forall i, j :: 0 <= i < j < |places| ==> places[i] > places[j]
  }

  /** Such ancestors exist; those of an absolute path begin with the last one. */
  ghost predicate LeadsThere(chain: seq<CodeSymbol>, lower: Text -> Text, segs: seq<Text>, absolute: bool)
    requires |segs| > 1
  {
    exists places :: Leads(chain, lower, segs, places) && (absolute ==> places[0] == |chain| - 1)
  }

  /** The path of these names, outermost first, leads to symbol `x`. */
  ghost predicate Spelled(
    syms: seq<CodeSymbol>, lower: Text -> Text, segs: seq<Text>, absolute: bool, trailingSlash: bool,
    substring: bool, x: nat)
    requires segs != []
  {
    && x < |syms| && NameMatches(lower(syms[x].name), lower(segs[|segs| - 1]), substring)
    && (if |segs| == 1 then absolute ==> IsTop(syms, syms[x])
        else LeadsThere(AncestorChain(syms, syms[x]), lower, segs, absolute))
    && (trailingSlash ==> exists i :: 0 <= i < |syms| && Inside(syms, x, i))
  }

  /** `x` lies `d` covering steps below a symbol the path leads to. */
  ghost predicate NearSpelled(
    syms: seq<CodeSymbol>, lower: Text -> Text, segs: seq<Text>, absolute: bool, trailingSlash: bool,
    substring: bool, x: nat, d: nat)
    requires segs != []
  {
    exists m: nat :: Spelled(syms, lower, segs, absolute, trailingSlash, substring, m) && Chain(syms, m, x, d)
  }

  /** The answer to a path of names: every symbol of the wanted kind at most
      `depth` below one the path leads to, with its least depth. */
  ghost predicate SpelledAnswer(
    syms: seq<CodeSymbol>, lower: Text -> Text, segs: seq<Text>, absolute: bool, trailingSlash: bool,
    substring: bool, kind: Option<SymbolKind>, depth: nat, out: seq<Match>)
    requires segs != []
  {
    && SortedBy(out, MatchLe) && Distinct(out)
    && forall m: Match :: m in out <==>
         var lo := if depth == 0 then 0 else 1;
         && m.at < |syms| && m.symbol == syms[m.at] && (kind.Some? ==> m.symbol.kind == kind.value)
         && lo <= m.depth <= depth
         && NearSpelled(syms, lower, segs, absolute, trailingSlash, substring, m.at, m.depth)
         && forall e: nat :: lo <= e < m.depth ==>
              !NearSpelled(syms, lower, segs, absolute, trailingSlash, substring, m.at, e)
  }

  lemma {:induction false} AcceptedLeads(chain: seq<CodeSymbol>, lower: Text -> Text, segs: seq<Text>, absolute: bool)
    requires |segs| > 1
    requires Accepts(NamesOf(chain, lower), NameMatch.Reversed(Lowered(lower, segs[..|segs| - 1])), absolute)
    ensures LeadsThere(chain, lower, segs, absolute)
  {
    var names, inner := NamesOf(chain, lower), NameMatch.Reversed(Lowered(lower, segs[..|segs| - 1]));
    var pos :| Embeds(names, inner, pos) && (absolute ==> pos[|pos| - 1] == |names| - 1);
    assert Backwards(Backwards(pos)) == pos;
    EmbedsLeads(chain, lower, segs, Backwards(pos));
    assert Leads(chain, lower, segs, Backwards(pos));
  }

  lemma {:induction false} LeadingAccepted(chain: seq<CodeSymbol>, lower: Text -> Text, segs: seq<Text>, absolute: bool)
    requires |segs| > 1 && LeadsThere(chain, lower, segs, absolute)
    ensures Accepts(NamesOf(chain, lower), NameMatch.Reversed(Lowered(lower, segs[..|segs| - 1])), absolute)
  {
    var names, inner := NamesOf(chain, lower), NameMatch.Reversed(Lowered(lower, segs[..|segs| - 1]));
    var places :| Leads(chain, lower, segs, places) && (absolute ==> places[0] == |chain| - 1);
    EmbedsLeads(chain, lower, segs, places);
    assert Embeds(names, inner, Backwards(places));
  }

  /** Matching from the inside out accepts exactly if the names lead there. */
  lemma {:induction false} AcceptsIffLeads(
    chain: seq<CodeSymbol>, lower: Text -> Text, segs: seq<Text>, absolute: bool)
    requires |segs| > 1
    ensures Accepts(NamesOf(chain, lower), NameMatch.Reversed(Lowered(lower, segs[..|segs| - 1])), absolute) <==>
      LeadsThere(chain, lower, segs, absolute)
  {
    if Accepts(NamesOf(chain, lower), NameMatch.Reversed(Lowered(lower, segs[..|segs| - 1])), absolute) {
      AcceptedLeads(chain, lower, segs, absolute);
    }
    if LeadsThere(chain, lower, segs, absolute) { LeadingAccepted(chain, lower, segs, absolute); }
  }

  lemma EmbedsLeads(chain: seq<CodeSymbol>, lower: Text -> Text, segs: seq<Text>, places: seq<nat>)
    requires |segs| > 1
    ensures Embeds(NamesOf(chain, lower), NameMatch.Reversed(Lowered(lower, segs[..|segs| - 1])),
        Backwards(places)) <==>
      Leads(chain, lower, segs, places)
  {
    var names, n, pos := NamesOf(chain, lower), |segs| - 1, Backwards(places);
    var inner := NameMatch.Reversed(Lowered(lower, segs[..n]));
    if |places| == n {
      forall j | 0 <= j < n
        ensures pos[n - 1 - j] == places[j] && inner[n - 1 - j] == lower(segs[j])
        ensures pos[j] == places[n - 1 - j] && inner[j] == lower(segs[n - 1 - j])
      {}
      if Embeds(names, inner, pos) {
        forall j | 0 <= j < n ensures places[j] < |chain| && lower(chain[places[j]].name) == lower(segs[j]) {
          assert names[pos[n - 1 - j]] == inner[n - 1 - j];
        }
        forall i, j | 0 <= i < j < n ensures places[i] > places[j] { assert pos[n - 1 - j] < pos[n - 1 - i]; }
      }
      if Leads(chain, lower, segs, places) {
        forall j | 0 <= j < n ensures pos[j] < |names| && names[pos[j]] == inner[j] {
          assert lower(chain[places[n - 1 - j]].name) == lower(segs[n - 1 - j]);
        }
        forall i, j | 0 <= i < j < n ensures pos[i] < pos[j] { assert places[n - 1 - j] > places[n - 1 - i]; }
      }
    }
  }

  function Backwards(s: seq<nat>): (r: seq<nat>)
    ensures |r| == |s| && forall i :: 0 <= i < |r| ==> r[i] == s[|s| - 1 - i]
  { seq(|s|, i requires 0 <= i < |s| => s[|s| - 1 - i]) }

  lemma MatchesIffSpelled(
    syms: seq<CodeSymbol>, lower: Text -> Text, segs: seq<Text>, absolute: bool, trailingSlash: bool,
    substring: bool, x: nat)
    requires segs != []
    ensures Matches(syms, lower, QueryOf(lower, Parts(segs, absolute, trailingSlash), substring), x) <==>
      Spelled(syms, lower, segs, absolute, trailingSlash, substring, x)
  {
    if |segs| > 1 && x < |syms| { AcceptsIffLeads(AncestorChain(syms, syms[x]), lower, segs, absolute); }
  }

  lemma AnswerIsSpelled(
    syms: seq<CodeSymbol>, lower: Text -> Text, segs: seq<Text>, absolute: bool, trailingSlash: bool,
    substring: bool, kind: Option<SymbolKind>, depth: nat, out: seq<Match>)
    requires segs != []
    requires Answer(syms, lower, QueryOf(lower, Parts(segs, absolute, trailingSlash), substring), kind, depth, out)
    ensures SpelledAnswer(syms, lower, segs, absolute, trailingSlash, substring, kind, depth, out)
  {
    var q := QueryOf(lower, Parts(segs, absolute, trailingSlash), substring);
    forall x: nat, d: nat ensures
      BelowMatch(syms, lower, q, x, d) <==> NearSpelled(syms, lower, segs, absolute, trailingSlash, substring, x, d)
    {
      BelowIffNear(syms, lower, segs, absolute, trailingSlash, substring, x, d);
    }
  }

  lemma BelowIffNear(
    syms: seq<CodeSymbol>, lower: Text -> Text, segs: seq<Text>, absolute: bool, trailingSlash: bool,
    substring: bool, x: nat, d: nat)
    requires segs != []
    ensures BelowMatch(syms, lower, QueryOf(lower, Parts(segs, absolute, trailingSlash), substring), x, d) <==>
      NearSpelled(syms, lower, segs, absolute, trailingSlash, substring, x, d)
  {
    forall m: nat ensures Matches(syms, lower, QueryOf(lower, Parts(segs, absolute, trailingSlash), substring), m) <==>
        Spelled(syms, lower, segs, absolute, trailingSlash, substring, m)
    {
      MatchesIffSpelled(syms, lower, segs, absolute, trailingSlash, substring, m);
    }
  }

  /** The kind filter on the depth table, in the order of the report. */
  method Report(syms: seq<CodeSymbol>, all: map<nat, nat>, kind: Option<SymbolKind>) returns (out: seq<Match>)
    ensures SortedBy(out, MatchLe) && Distinct(out)
    ensures forall m: Match :: m in out <==>
      && m.at in all && m.at < |syms| && m.symbol == syms[m.at] && m.depth == all[m.at]
      && (kind.Some? ==> m.symbol.kind == kind.value)
  {
    var found: seq<Match> := [];
    var rest := all.Keys;
    while rest != {}
      invariant rest <= all.Keys && Distinct(found)
      invariant forall m: Match :: m in found <==>
        && m.at in all && m.at !in rest && m.at < |syms| && m.symbol == syms[m.at] && m.depth == all[m.at]
        && (kind.Some? ==> m.symbol.kind == kind.value)
      decreases rest
    {
      var x :| x in rest;
      assert forall i :: 0 <= i < |found| ==> found[i] in found;
      rest := rest - {x};
      if x < |syms| && (kind.Some? ==> syms[x].kind == kind.value) { found := found + [Match(syms[x], x, all[x])]; }
    }
    MatchOrder();
    SortCorrect(found, MatchLe);
    SortMembers(found, MatchLe);
    out := Sort(found, MatchLe);
    DistinctPermutation(found, out);
  }

  lemma LeastIsReported(
    syms: seq<CodeSymbol>, lower: Text -> Text, q: Query, kind: Option<SymbolKind>, depth: nat,
    matched: seq<nat>, all: map<nat, nat>, m: Match)
    requires forall x: nat :: x in matched <==> Matches(syms, lower, q, x)
    requires LeastDepths(syms, matched, if depth == 0 then 0 else 1, depth, all)
    ensures Reported(syms, lower, q, kind, depth, m) <==>
      && m.at in all && m.at < |syms| && m.symbol == syms[m.at] && m.depth == all[m.at]
      && (kind.Some? ==> m.symbol.kind == kind.value)
  {
    forall d: nat ensures BelowMatch(syms, lower, q, m.at, d) <==> Below(syms, matched, m.at, d) {}
  }

  lemma WrittenHasNames(trim: Text -> Text, whole: Text)
    requires PartsOf(trim, whole).segments == []
    ensures forall segs, absolute, trailingSlash {:trigger Written(segs, absolute, trailingSlash)} ::
      Spellable(trim, segs) ==> whole != Written(segs, absolute, trailingSlash)
  {
    forall segs, absolute, trailingSlash {:trigger Written(segs, absolute, trailingSlash)} | Spellable(trim, segs)
      ensures whole != Written(segs, absolute, trailingSlash)
    {
      ReadsWritten(trim, segs, absolute, trailingSlash);
    }
  }

  /** With a plainly read path the answer is the one to its names. */
  lemma WrittenAnswer(
    syms: seq<CodeSymbol>, lower: Text -> Text, trim: Text -> Text, whole: Text, substring: bool,
    kind: Option<SymbolKind>, depth: nat, parts: Parts, out: seq<Match>)
    requires Understood(NamesOf(syms, lower), lower, trim, whole, substring, parts) && parts.segments != []
    requires Answer(syms, lower, QueryOf(lower, parts, substring), kind, depth, out)
    ensures forall segs, absolute, trailingSlash {:trigger Written(segs, absolute, trailingSlash)} ::
      && Spellable(trim, segs) && whole == Written(segs, absolute, trailingSlash)
      && PlainlyRead(NamesOf(syms, lower), lower, trim, whole, substring) ==>
        SpelledAnswer(syms, lower, segs, absolute, trailingSlash, substring, kind, depth, out)
  {
    forall segs, absolute, trailingSlash {:trigger Written(segs, absolute, trailingSlash)} |
      && Spellable(trim, segs) && whole == Written(segs, absolute, trailingSlash)
      && PlainlyRead(NamesOf(syms, lower), lower, trim, whole, substring)
      ensures SpelledAnswer(syms, lower, segs, absolute, trailingSlash, substring, kind, depth, out)
    {
      ReadsWritten(trim, segs, absolute, trailingSlash);
      AnswerIsSpelled(syms, lower, segs, absolute, trailingSlash, substring, kind, depth, out);
    }
  }

  /** Every symbol of the wanted kind that lies within the depth below a match
      of the query, with its least depth, once, in file and line order; the
      name table makes no difference. */
  method MatchNamePath(
    syms: seq<CodeSymbol>, table: Option<NameTable.Table>, lower: Text -> Text, trim: Text -> Text,
    query: Text, substring: bool, kind: Option<SymbolKind>, depth: nat)
    returns (out: seq<Match>)
    requires TableOf(NamesOf(syms, lower), table)
    ensures PartsOf(trim, trim(query)).segments == [] ==> out == []
    ensures PartsOf(trim, trim(query)).segments != [] ==> exists parts ::
      && Understood(NamesOf(syms, lower), lower, trim, trim(query), substring, parts) && parts.segments != []
      && Answer(syms, lower, QueryOf(lower, parts, substring), kind, depth, out)
    ensures forall segs, absolute, trailingSlash {:trigger Written(segs, absolute, trailingSlash)} ::
      && Spellable(trim, segs) && trim(query) == Written(segs, absolute, trailingSlash)
      && PlainlyRead(NamesOf(syms, lower), lower, trim, trim(query), substring) ==>
        SpelledAnswer(syms, lower, segs, absolute, trailingSlash, substring, kind, depth, out)
  {
    var whole, names := trim(query), NamesOf(syms, lower);
    if PartsOf(trim, whole).segments == [] {
      WrittenHasNames(trim, whole);
      return [];
    }
    var parts := Understand(names, table, lower, trim, whole, substring);
    var q := QueryOf(lower, parts, substring);
    var cands := Candidates(names, table, q.last, substring);
    var matched := MatchAll(syms, lower, q, cands);
    var buckets := BucketByFile(syms);
    var all := Expand(syms, buckets, matched, depth);
    out := Report(syms, all, kind);
    forall m ensures m in out <==> Reported(syms, lower, q, kind, depth, m) {
      LeastIsReported(syms, lower, q, kind, depth, matched, all, m);
    }
    assert Answer(syms, lower, q, kind, depth, out);
    WrittenAnswer(syms, lower, trim, whole, substring, kind, depth, parts, out);
  }

  /** An answer goes through the files in order, and through each from its first
      line on; names, ends and ids break ties. */
  lemma AnswerOrder(out: seq<Match>, i: nat, j: nat)
    requires SortedBy(out, MatchLe) && i < j < |out|
    ensures var a, b := out[i].symbol, out[j].symbol;
      && a.file <= b.file && (a.file == b.file ==> a.startLine <= b.startLine)
      && (a.file == b.file && a.startLine == b.startLine ==> TextLe(a.name, b.name))
      && (a.file == b.file && a.startLine == b.startLine && a.name == b.name ==>
            a.endLine < b.endLine || (a.endLine == b.endLine && a.id <= b.id))
  {
    TextLeTotal(out[i].symbol.name, out[j].symbol.name);
    assert MatchLe(out[i], out[j]);
  }

  /** With ids that tell symbols apart, the answer is one sequence. */
  lemma AnswerOnce(
    syms: seq<CodeSymbol>, lower: Text -> Text, q: Query, kind: Option<SymbolKind>, depth: nat,
    a: seq<Match>, b: seq<Match>)
    requires forall i, j :: 0 <= i < j < |syms| ==> syms[i].id != syms[j].id
    requires Answer(syms, lower, q, kind, depth, a) && Answer(syms, lower, q, kind, depth, b)
    ensures a == b
  {
    DistinctCounts(a);
    DistinctCounts(b);
    forall m ensures multiset(a)[m] == multiset(b)[m] { assert m in a <==> m in multiset(a); }
    MatchOrder();
    forall x, y | x in a && y in a && MatchLe(x, y) && MatchLe(y, x) ensures x == y {
      OneDepth(syms, lower, q, kind, depth, x, y);
    }
    SortedUnique(a, b, MatchLe);
  }

  lemma OneDepth(
    syms: seq<CodeSymbol>, lower: Text -> Text, q: Query, kind: Option<SymbolKind>, depth: nat, x: Match, y: Match)
    requires forall i, j :: 0 <= i < j < |syms| ==> syms[i].id != syms[j].id
    requires Reported(syms, lower, q, kind, depth, x) && Reported(syms, lower, q, kind, depth, y)
    requires MatchLe(x, y) && MatchLe(y, x)
    ensures x == y
  {
    TextLeTotal(x.symbol.name, y.symbol.name);
    assert x.at == y.at;
  }
}
