/** What whole lines come to: how a line ends, which lines are heredoc bodies,
    and which are Ruby comment blocks. */
module MaskHeredocs {
  import opened Types
  import opened MaskLang
  import opened MaskLexer
  import opened MaskOpeners
  import opened CodeMask
  import opened MaskMeaning

  lemma AfterOne(lg: Lang, lines: seq<Line>, l: nat)
    requires l < |lines|
    ensures AfterLines(lg, lines[..l + 1]) == LexLine(lg, AfterLines(lg, lines[..l]), lines[l]).lex
  {
    assert lines[..l + 1][..l] == lines[..l];
  }

  // ---------------------------------------------------------- ends of lines

  /** A line read token by token from its start. */
  predicate ByTokens(lg: Lang, lex: Lexer, b: Line) {
    !lex.state.Heredocs? && !lex.state.LineBlock? && !(lg.Ruby? && lex.state.Code? && StartsAt(b, 0, Text1("=begin")))
  }

  /** Where the tokens of such a line end. */
  function LineTokens(lg: Lang, lines: seq<Line>, l: nat): Lexed
    requires l < |lines|
  { RunTokens(lg, AfterLines(lg, lines[..l]), lines[l], 0, Unpainted(|lines[l]|)) }

  predicate NoStringAround(frames: seq<Frame>) { forall k :: 0 <= k < |frames| ==> !frames[k].resume.Str? }

  predicate OutermostString(frames: seq<Frame>, p: nat) {
    p < |frames| && frames[p].resume.Str? && forall k :: 0 <= k < p ==> !frames[k].resume.Str?
  }

  /** Code, or the bodies of the heredocs the line has opened, in order. */
  function Following(pending: seq<Heredoc>): State { if pending == [] then Code else Heredocs(pending) }

  lemma BeginIs(b: Line)
    ensures BEGIN <= b <==> StartsAt(b, 0, Text1("=begin"))
    ensures END <= b <==> StartsAt(b, 0, Text1("=end"))
  {
    assert Text1("=begin") == BEGIN && Text1("=end") == END;
    assert |BEGIN| <= |b| && b[0..|BEGIN|] == BEGIN ==> BEGIN <= b;
    assert |END| <= |b| && b[0..|END|] == END ==> END <= b;
  }

  /** A Rust string goes on with the next line. */
  predicate RustString(lg: Lang, lex: Lexer) { lg.Rust? && lex.state == Str(DQ) }

  lemma FirstStrIs(frames: seq<Frame>)
    ensures NoStringAround(frames) ==> FirstStr(frames) == |frames|
    ensures forall p: nat :: OutermostString(frames, p) ==> FirstStr(frames) == p
  {}

  /** What ends with the line: strings of one line and with them every
      interpolation they hold.  Heredocs opened outside of other literals are
      next; anything else goes on. */
  ghost predicate LineEnds(r: Lexer, after: Lexer) {
    && after.pending == [] && after.fstr == r.fstr
    && (NoStringAround(r.frames) ==>
          after.frames == r.frames
          && after.state == if r.state.Code? || r.state.Str? then Following(r.pending) else r.state)
    && (forall p: nat :: OutermostString(r.frames, p) ==>
          after.frames == r.frames[..p]
          && after.state == if r.state.Multi? || r.state.Percent? then r.state else Following(r.pending))
  }

  lemma EndLineEnds(lg: Lang, r: Lexer)
    requires LexOk(lg, r)
    ensures if RustString(lg, r) then EndLine(lg, r) == r else LineEnds(r, EndLine(lg, r))
  {
    FirstStrIs(r.frames);
  }

  /** The end of a line read token by token. */
  lemma EndOfLine(lg: Lang, lines: seq<Line>, l: nat)
    requires l < |lines| && ByTokens(lg, AfterLines(lg, lines[..l]), lines[l])
    ensures LineLabels(lg, lines, l) == LineTokens(lg, lines, l).labels
    ensures var r, after := LineTokens(lg, lines, l).lex, AfterLines(lg, lines[..l + 1]);
      if RustString(lg, r) then after == r else LineEnds(r, after)
  {
    AfterOne(lg, lines, l);
    BeginIs(lines[l]);
    EndLineEnds(lg, LineTokens(lg, lines, l).lex);
  }

  // ---------------------------------------------------------------- openers

  predicate QuietTo(b: Line, i: nat, j: nat) { i <= j <= |b| && forall k :: i <= k < j ==> Quiet(b[k]) }

  datatype Opener = Opener(at: nat, len: nat, doc: Heredoc)

  predicate OpensFirst(lg: Lang, b: Line, i: nat, o: Opener) {
    && QuietTo(b, i, o.at) && o.at < |b| && b[o.at] == LT && Get(b, o.at + 1) == LT
    && HeredocOpen(lg, b, o.at) == Some((o.len, o.doc))
  }

  function EndOfOpener(o: Opener): nat { o.at + o.len }

  /** Where the first `n` openers of a line end. */
  function Before(openers: seq<Opener>, n: nat): nat
    requires n <= |openers|
  { if n == 0 then 0 else EndOfOpener(openers[n - 1]) }

  /** The line opens these heredocs, with quiet code around. */
  predicate Opens(lg: Lang, b: Line, openers: seq<Opener>) {
    && (forall n :: 0 <= n < |openers| ==> OpensFirst(lg, b, Before(openers, n), openers[n]))
    && QuietTo(b, Before(openers, |openers|), |b|)
  }

  function Docs(openers: seq<Opener>): (q: seq<Heredoc>)
    ensures |q| == |openers| && forall n :: 0 <= n < |q| ==> q[n] == openers[n].doc
  { seq(|openers|, n requires 0 <= n < |openers| => openers[n].doc) }

  predicate InOpener(openers: seq<Opener>, k: nat) { exists o :: o in openers && o.at <= k < o.at + o.len }

  ghost function PaintOpeners(labels: seq<Paint>, openers: seq<Opener>): (r: seq<Paint>)
    ensures |r| == |labels|
  {
    if openers == [] then labels
    else
      var n := |openers| - 1;
      Fill(PaintOpeners(labels, openers[..n]), openers[n].at, EndOfOpener(openers[n]), StringByte)
  }

  lemma {:induction false} OpenersAreStrings(labels: seq<Paint>, openers: seq<Opener>, k: nat)
    requires k < |labels|
    ensures PaintOpeners(labels, openers)[k] == if InOpener(openers, k) then StringByte else labels[k]
    decreases |openers|
  {
    if openers != [] {
      var n := |openers| - 1;
      OpenersAreStrings(labels, openers[..n], k);
      assert forall x :: x in openers <==> x == openers[n] || x in openers[..n];
    }
  }

  /** Where the lexer is after some openers. */
  ghost function AtOpeners(lex: Lexer, labels: seq<Paint>, openers: seq<Opener>): At {
    At(lex.(pending := lex.pending + Docs(openers)), Before(openers, |openers|), PaintOpeners(labels, openers))
  }

  /** An opener is string and adds its heredoc to those the next lines hold. */
  lemma OpenerToken(lg: Lang, b: Line, run: At -> Lexed, lex: Lexer, i: nat, o: Opener, labels: seq<Paint>)
    requires Stepwise(lg, b, run) && InCode(lg, lex) && |labels| == |b| && !lg.Rust? && OpensFirst(lg, b, i, o)
    ensures InCode(lg, lex.(pending := lex.pending + [o.doc]))
    ensures run(At(lex, i, labels)) ==
      run(At(lex.(pending := lex.pending + [o.doc]), EndOfOpener(o), Fill(labels, o.at, EndOfOpener(o), StringByte)))
  {
    QuietRun(lg, b, run, lex, i, o.at, labels);
    assert Next(lg, b, At(lex, o.at, labels),
      At(lex.(pending := lex.pending + [o.doc]), EndOfOpener(o), Fill(labels, o.at, EndOfOpener(o), StringByte)));
  }

  lemma AtOneMore(lex: Lexer, labels: seq<Paint>, openers: seq<Opener>)
    requires openers != []
    ensures var n := |openers| - 1;
      var c, o := AtOpeners(lex, labels, openers[..n]), openers[n];
      && c.i == Before(openers, n)
      && AtOpeners(lex, labels, openers) ==
           At(c.lex.(pending := c.lex.pending + [o.doc]), EndOfOpener(o),
               Fill(c.labels, o.at, EndOfOpener(o), StringByte))
  {
    var n := |openers| - 1;
    assert Docs(openers) == Docs(openers[..n]) + [openers[n].doc];
  }

  lemma {:induction false} OpensAll(
    lg: Lang, b: Line, run: At -> Lexed, lex: Lexer, openers: seq<Opener>, n: nat, labels: seq<Paint>)
    requires Stepwise(lg, b, run) && InCode(lg, lex) && |labels| == |b| && !lg.Rust?
    requires n <= |openers| && Opens(lg, b, openers)
    ensures InCode(lg, AtOpeners(lex, labels, openers[..n]).lex)
    ensures run(At(lex, 0, labels)) == run(AtOpeners(lex, labels, openers[..n]))
    decreases n
  {
    if n == 0 {
      assert lex.pending + Docs([]) == lex.pending;
    } else {
      OpensAll(lg, b, run, lex, openers, n - 1, labels);
      assert openers[..n][..n - 1] == openers[..n - 1];
      AtOneMore(lex, labels, openers[..n]);
      var c := AtOpeners(lex, labels, openers[..n - 1]);
      OpenerToken(lg, b, run, c.lex, Before(openers, n - 1), openers[n - 1], c.labels);
    }
  }

  /** After the line its heredocs follow, one body after the other. */
  lemma OpeningLine(lg: Lang, lines: seq<Line>, l: nat, openers: seq<Opener>, stringsAreCode: bool)
    requires l < |lines| && InCode(lg, AfterLines(lg, lines[..l])) && ByTokens(lg, AfterLines(lg, lines[..l]), lines[l])
    requires !lg.Rust? && Opens(lg, lines[l], openers)
    ensures AfterLines(lg, lines[..l + 1]) == AfterLines(lg, lines[..l]).(state := Following(Docs(openers)))
    ensures var m := Masks(lg, lines, stringsAreCode)[l];
      |m| == |lines[l]| && forall k :: 0 <= k < |m| ==> m[k] == (stringsAreCode || !InOpener(openers, k))
  {
    EndOfLine(lg, lines, l);
    MaskAt(lg, lines, l, stringsAreCode);
    OpeningTokens(lg, AfterLines(lg, lines[..l]), lines[l], openers);
    forall k | 0 <= k < |lines[l]|
      ensures PaintOpeners(Unpainted(|lines[l]|), openers)[k] == if InOpener(openers, k) then StringByte else CodeByte
    {
      OpenersAreStrings(Unpainted(|lines[l]|), openers, k);
    }
  }

  lemma OpeningTokens(lg: Lang, lex: Lexer, b: Line, openers: seq<Opener>)
    requires InCode(lg, lex) && lex.pending == [] && !lg.Rust? && Opens(lg, b, openers)
    ensures RunTokens(lg, lex, b, 0, Unpainted(|b|)) ==
      Lexed(lex.(pending := Docs(openers)), PaintOpeners(Unpainted(|b|), openers))
  {
    var run := RestOf(lg, b);
    RestIsStepwise(lg, b);
    OpensAll(lg, b, run, lex, openers, |openers|, Unpainted(|b|));
    assert openers[..|openers|] == openers && [] + Docs(openers) == Docs(openers);
    var c := AtOpeners(lex, Unpainted(|b|), openers);
    QuietRun(lg, b, run, c.lex, c.i, |b|, c.labels);
  }

  // ----------------------------------------------------------------- bodies

  /** From `s` to `e` the line holds the terminator, indented if it may be, with
      white space after it, or in PHP no more of a word. */
  predicate TerminatorAt(h: Heredoc, b: Line, s: nat, e: nat) {
    && StartsAt(b, s, h.term) && e == s + |h.term| && (forall k :: 0 <= k < s ==> Blank(b[k])) && (!h.indent ==> s == 0)
    && (if h.php then e == |b| || !IsIdent(b[e]) else forall k :: e <= k < |b| ==> IsWhite(b[k]))
  }

  ghost predicate Terminates(h: Heredoc, b: Line, e: nat) { exists s: nat :: TerminatorAt(h, b, s, e) }

  lemma CloseIff(h: Heredoc, b: Line, e: nat)
    requires Word(h.term)
    ensures HeredocClose(h, b) == Some(e) <==> Terminates(h, b, e)
  {
    var s := if h.indent then RunOn(b, 0, Blank) else 0;
    if HeredocClose(h, b) == Some(e) {
      forall k | e <= k < |b| && !h.php ensures IsWhite(b[k]) { assert b[e..][k - e] == b[k]; }
      assert TerminatorAt(h, b, s, e);
    }
    if s': nat :| TerminatorAt(h, b, s', e) {
      assert b[s'] == b[s'..s' + |h.term|][0] == h.term[0];
      assert !Blank(b[s']);
      assert s == s';
    }
  }

  lemma OpenedIsWord(lg: Lang, b: Line, i: nat)
    requires i < |b| && HeredocOpen(lg, b, i).Some?
    ensures Word(HeredocOpen(lg, b, i).value.1.term)
  {
    var flag := Get(b, i + 2) == TILDE || Get(b, i + 2) == MINUS;
    var j := if lg.Php? then RunOn(b, i + 3, Blank) else if flag then i + 3 else i + 2;
    IdentIsText(b, j);
  }

  predicate Interpolated(h: Heredoc, b: Line, k: nat) {
    h.interp && exists r :: r in HeredocInterp(b, h.php, 0) && r.0 <= k < r.1
  }

  /** A body line is string, but for its interpolations. */
  predicate BodyMask(m: seq<bool>, h: Heredoc, b: Line, stringsAreCode: bool) {
    |m| == |b| && forall k :: 0 <= k < |b| ==> m[k] == (stringsAreCode || Interpolated(h, b, k))
  }

  lemma {:induction false} GapsAt(labels: seq<Paint>, ranges: seq<(nat, nat)>, from: nat, k: nat)
    requires k < |labels| && forall n :: 0 <= n < |ranges| ==> from <= ranges[n].0 <= ranges[n].1
    requires forall n, m :: 0 <= n < m < |ranges| ==> ranges[n].1 <= ranges[m].0
    ensures PaintGaps(labels, ranges, from)[k] ==
      if k < from || exists r :: r in ranges && r.0 <= k < r.1 then labels[k] else StringByte
    decreases |ranges|
  {
    if ranges != [] {
      var first, rest := ranges[0], ranges[1..];
      assert forall n :: 0 <= n < |rest| ==> rest[n] == ranges[n + 1];
      GapsAt(Fill(labels, from, first.0, StringByte), rest, first.1, k);
      assert forall r :: r in ranges <==> r == first || r in rest;
      assert forall r :: r in rest ==> first.1 <= r.0;
    }
  }

  lemma {:induction false} RangesApart(b: Line, php: bool, n: nat, m: nat)
    requires n < m < |HeredocInterp(b, php, 0)|
    ensures HeredocInterp(b, php, 0)[n].1 <= HeredocInterp(b, php, 0)[m].0
    decreases m
  {
    if n + 1 < m { RangesApart(b, php, n, m - 1); }
  }

  lemma BodyLabels(h: Heredoc, b: Line, k: nat)
    requires k < |b|
    ensures HeredocBody(h, b)[k] == if Interpolated(h, b, k) then CodeByte else StringByte
  {
    var ranges := if h.interp then HeredocInterp(b, h.php, 0) else [];
    forall n, m | 0 <= n < m < |ranges| ensures ranges[n].1 <= ranges[m].0 { RangesApart(b, h.php, n, m); }
    GapsAt(Unpainted(|b|), ranges, 0, k);
  }

  predicate InBodies(lg: Lang, lines: seq<Line>, l: nat, q: seq<Heredoc>)
    requires l <= |lines|
  {
    q != [] && AfterLines(lg, lines[..l]).state == Heredocs(q)
  }

  /** Until its terminator, lines are the body of the first heredoc. */
  lemma BodyLine(lg: Lang, lines: seq<Line>, l: nat, q: seq<Heredoc>, stringsAreCode: bool)
    requires l < |lines| && InBodies(lg, lines, l, q) && Word(q[0].term)
    requires forall e: nat :: !Terminates(q[0], lines[l], e)
    ensures BodyMask(Masks(lg, lines, stringsAreCode)[l], q[0], lines[l], stringsAreCode)
    ensures AfterLines(lg, lines[..l + 1]) == AfterLines(lg, lines[..l])
  {
    MaskAt(lg, lines, l, stringsAreCode);
    AfterOne(lg, lines, l);
    var h, b := q[0], lines[l];
    if HeredocClose(h, b).Some? { CloseIff(h, b, HeredocClose(h, b).value); }
    forall k | 0 <= k < |b|
        ensures LineLabels(lg, lines, l)[k] == if Interpolated(h, b, k) then CodeByte else StringByte
    {
      BodyLabels(h, b, k);
    }
  }

  /** The terminator is string, what follows it code. */
  predicate EndMask(m: seq<bool>, b: Line, e: nat, stringsAreCode: bool) {
    |m| == |b| && forall k :: 0 <= k < |b| ==> m[k] == (k >= e || stringsAreCode)
  }

  /** After the last terminator PHP reads on in the same line. */
  predicate CodeAfter(lg: Lang, frames: seq<Frame>, q: seq<Heredoc>, b: Line, e: nat) {
    |q| == 1 && q[0].php ==> lg.Php? && frames == [] && QuietTo(b, e, |b|)
  }

  lemma PhpReadsOn(lg: Lang, before: Lexer, q: seq<Heredoc>, b: Line, e: nat)
    requires BoundaryOk(lg, before) && before.state == Heredocs(q) && HeredocClose(q[0], b) == Some(e)
    requires |q| == 1 && q[0].php && CodeAfter(lg, before.frames, q, b, e)
    ensures LexLine(lg, before, b) == Lexed(before.(state := Code), Fill(Unpainted(|b|), 0, e, StringByte))
  {
    var lex, labels := before.(state := Code), Fill(Unpainted(|b|), 0, e, StringByte);
    RestIsStepwise(lg, b);
    QuietRun(lg, b, RestOf(lg, b), lex, e, |b|, labels);
    assert RunTokens(lg, lex, b, e, labels) == Lexed(lex, labels);
    assert EndLine(lg, lex) == lex by { FirstStrIs(lex.frames); }
  }

  /** With the terminator the next body begins, or code. */
  lemma LastOfBody(lg: Lang, lines: seq<Line>, l: nat, q: seq<Heredoc>, e: nat, stringsAreCode: bool)
    requires l < |lines| && InBodies(lg, lines, l, q) && Word(q[0].term) && Terminates(q[0], lines[l], e)
    requires CodeAfter(lg, AfterLines(lg, lines[..l]).frames, q, lines[l], e)
    ensures EndMask(Masks(lg, lines, stringsAreCode)[l], lines[l], e, stringsAreCode)
    ensures AfterLines(lg, lines[..l + 1]) == AfterLines(lg, lines[..l]).(state := Following(q[1..]))
  {
    MaskAt(lg, lines, l, stringsAreCode);
    AfterOne(lg, lines, l);
    CloseIff(q[0], lines[l], e);
    if |q| == 1 && q[0].php { PhpReadsOn(lg, AfterLines(lg, lines[..l]), q, lines[l], e); }
  }

  /** The lexer at the start of each line. */
  ghost function Starts(lg: Lang, lines: seq<Line>): nat -> Lexer {
    (l: nat) => if l <= |lines| then AfterLines(lg, lines[..l]) else FRESH
  }

  ghost predicate Kept(at: nat -> Lexer, lex: Lexer, j: nat) { at(j) == lex ==> at(j + 1) == lex }

  lemma {:induction false} Stays(at: nat -> Lexer, lex: Lexer, l: nat, m: nat)
    requires l <= m && at(l) == lex && forall j: nat :: l <= j < m ==> Kept(at, lex, j)
    ensures at(m) == lex
    decreases m
  {
    if l < m {
      Stays(at, lex, l, m - 1);
      assert Kept(at, lex, m - 1);
    }
  }

  lemma BodyKept(lg: Lang, lines: seq<Line>, lex: Lexer, j: nat, q: seq<Heredoc>)
    requires j < |lines| && lex.state == Heredocs(q) && q != [] && Word(q[0].term)
    requires forall e: nat :: !Terminates(q[0], lines[j], e)
    ensures Kept(Starts(lg, lines), lex, j)
  {
    if AfterLines(lg, lines[..j]) == lex { BodyLine(lg, lines, j, q, false); }
  }

  lemma BodyGoesOn(lg: Lang, lines: seq<Line>, l: nat, m: nat, q: seq<Heredoc>)
    requires l <= m <= |lines| && InBodies(lg, lines, l, q) && Word(q[0].term)
    requires forall j, e: nat :: l <= j < m ==> !Terminates(q[0], lines[j], e)
    ensures AfterLines(lg, lines[..m]) == AfterLines(lg, lines[..l])
  {
    var lex := AfterLines(lg, lines[..l]);
    forall j: nat | l <= j < m ensures Kept(Starts(lg, lines), lex, j) { BodyKept(lg, lines, lex, j, q); }
    Stays(Starts(lg, lines), lex, l, m);
  }

  // ------------------------------------------------------------ all bodies

  /** The body that starts at line `from` ends at the first line that holds its
      terminator; the last one leaves plain code after it. */
  ghost predicate EndsBody(lg: Lang, frames: seq<Frame>, q: seq<Heredoc>, lines: seq<Line>, from: nat, end: nat)
    requires q != []
  {
    && from <= end < |lines| && (exists e: nat :: Terminates(q[0], lines[end], e))
    && (forall j, e: nat :: from <= j < end ==> !Terminates(q[0], lines[j], e))
    && (forall e: nat :: Terminates(q[0], lines[end], e) ==> CodeAfter(lg, frames, q, lines[end], e))
  }

  /** How the lines of one body are masked. */
  ghost predicate BodyMasked(
    masks: seq<seq<bool>>, h: Heredoc, lines: seq<Line>, from: nat, end: nat, stringsAreCode: bool)
  {
    && |masks| == |lines| && from <= end < |lines|
    && (forall j :: from <= j < end ==> BodyMask(masks[j], h, lines[j], stringsAreCode))
    && (forall e: nat :: Terminates(h, lines[end], e) ==> EndMask(masks[end], lines[end], e, stringsAreCode))
  }

  /** One body is string up to its terminator, but for its interpolations; the
      next one, or code, begins on the line after. */
  lemma OneBody(lg: Lang, lines: seq<Line>, l: nat, q: seq<Heredoc>, end: nat, stringsAreCode: bool)
    requires l <= |lines| && InBodies(lg, lines, l, q) && Word(q[0].term)
    requires EndsBody(lg, AfterLines(lg, lines[..l]).frames, q, lines, l, end)
    ensures BodyMasked(Masks(lg, lines, stringsAreCode), q[0], lines, l, end, stringsAreCode)
    ensures AfterLines(lg, lines[..end + 1]) == AfterLines(lg, lines[..l]).(state := Following(q[1..]))
  {
    var masks := Masks(lg, lines, stringsAreCode);
    forall j | l <= j < end ensures BodyMask(masks[j], q[0], lines[j], stringsAreCode) {
      BodyGoesOn(lg, lines, l, j, q);
      BodyLine(lg, lines, j, q, stringsAreCode);
    }
    BodyGoesOn(lg, lines, l, end, q);
    forall e: nat | Terminates(q[0], lines[end], e)
      ensures EndMask(masks[end], lines[end], e, stringsAreCode)
      ensures AfterLines(lg, lines[..end + 1]) == AfterLines(lg, lines[..l]).(state := Following(q[1..]))
    {
      LastOfBody(lg, lines, end, q, e, stringsAreCode);
    }
  }

  /** Each body ends where `ends` says, the next one begins after it. */
  ghost predicate BodiesEnd(lg: Lang, frames: seq<Frame>, q: seq<Heredoc>, lines: seq<Line>, l: nat, ends: seq<nat>)
    decreases |q|
  {
    && |ends| == |q|
    && (q == [] || (EndsBody(lg, frames, q, lines, l, ends[0])
                    && BodiesEnd(lg, frames, q[1..], lines, ends[0] + 1, ends[1..])))
  }

  ghost predicate BodiesMasked(
    masks: seq<seq<bool>>, q: seq<Heredoc>, lines: seq<Line>, l: nat, ends: seq<nat>, stringsAreCode: bool)
    decreases |q|
  {
    && |ends| == |q|
    && (q == [] || (BodyMasked(masks, q[0], lines, l, ends[0], stringsAreCode)
                    && BodiesMasked(masks, q[1..], lines, ends[0] + 1, ends[1..], stringsAreCode)))
  }

  predicate Words(q: seq<Heredoc>) { forall n :: 0 <= n < |q| ==> Word(q[n].term) }

  function LineAfter(l: nat, ends: seq<nat>): nat { if ends == [] then l else ends[|ends| - 1] + 1 }

  ghost predicate BodyByBody(
    lg: Lang, lines: seq<Line>, at: nat -> Lexer, masks: seq<seq<bool>>, stringsAreCode: bool)
  {
    forall frames, l: nat, q: seq<Heredoc>, end: nat {:trigger EndsBody(lg, frames, q, lines, l, end), at(l)} ::
      q != [] && at(l).frames == frames && at(l).state == Heredocs(q) && Word(q[0].term)
      && EndsBody(lg, frames, q, lines, l, end) ==>
        && BodyMasked(masks, q[0], lines, l, end, stringsAreCode)
        && at(end + 1) == at(l).(state := Following(q[1..]))
  }

  lemma OneBodyStarts(lg: Lang, lines: seq<Line>, l: nat, q: seq<Heredoc>, end: nat, stringsAreCode: bool)
    requires l <= |lines| && InBodies(lg, lines, l, q) && Word(q[0].term)
    requires EndsBody(lg, Starts(lg, lines)(l).frames, q, lines, l, end)
    ensures BodyMasked(Masks(lg, lines, stringsAreCode), q[0], lines, l, end, stringsAreCode)
    ensures Starts(lg, lines)(end + 1) == Starts(lg, lines)(l).(state := Following(q[1..]))
  {
    OneBody(lg, lines, l, q, end, stringsAreCode);
  }

  lemma ReadsBodyByBody(lg: Lang, lines: seq<Line>, stringsAreCode: bool)
    ensures BodyByBody(lg, lines, Starts(lg, lines), Masks(lg, lines, stringsAreCode), stringsAreCode)
  {
    var at := Starts(lg, lines);
    forall frames, l: nat, q: seq<Heredoc>, end: nat {:trigger EndsBody(lg, frames, q, lines, l, end), at(l)} |
      && q != [] && at(l).frames == frames && at(l).state == Heredocs(q) && Word(q[0].term)
      && EndsBody(lg, frames, q, lines, l, end)
      ensures BodyMasked(Masks(lg, lines, stringsAreCode), q[0], lines, l, end, stringsAreCode)
      ensures at(end + 1) == at(l).(state := Following(q[1..]))
    {
      OneBodyStarts(lg, lines, l, q, end, stringsAreCode);
    }
  }

  lemma {:induction false} BodiesInOrder(
    lg: Lang, lines: seq<Line>, at: nat -> Lexer, masks: seq<seq<bool>>, stringsAreCode: bool,
    l: nat, before: Lexer, q: seq<Heredoc>, ends: seq<nat>)
    requires BodyByBody(lg, lines, at, masks, stringsAreCode)
    requires at(l) == before.(state := Following(q)) && Words(q) && BodiesEnd(lg, before.frames, q, lines, l, ends)
    ensures BodiesMasked(masks, q, lines, l, ends, stringsAreCode)
    ensures at(LineAfter(l, ends)) == before.(state := Code)
    decreases |q|
  {
    if q != [] {
      assert EndsBody(lg, at(l).frames, q, lines, l, ends[0]);
      BodiesInOrder(lg, lines, at, masks, stringsAreCode, ends[0] + 1, before, q[1..], ends[1..]);
      assert LineAfter(l, ends) == LineAfter(ends[0] + 1, ends[1..]);
    }
  }

  lemma {:induction false} EndsInside(
    lg: Lang, frames: seq<Frame>, q: seq<Heredoc>, lines: seq<Line>, l: nat, ends: seq<nat>)
    requires l <= |lines| && BodiesEnd(lg, frames, q, lines, l, ends)
    ensures LineAfter(l, ends) <= |lines|
    decreases |q|
  {
    if q != [] { EndsInside(lg, frames, q[1..], lines, ends[0] + 1, ends[1..]); }
  }

  /** The bodies follow in the order of their openers, each string but for its
      interpolations up to its own terminator; then code goes on. */
  lemma Bodies(
    lg: Lang, lines: seq<Line>, l: nat, before: Lexer, q: seq<Heredoc>, ends: seq<nat>, stringsAreCode: bool)
    requires l <= |lines| && AfterLines(lg, lines[..l]) == before.(state := Following(q)) && Words(q)
    requires BodiesEnd(lg, before.frames, q, lines, l, ends)
    ensures BodiesMasked(Masks(lg, lines, stringsAreCode), q, lines, l, ends, stringsAreCode)
    ensures LineAfter(l, ends) <= |lines|
    ensures AfterLines(lg, lines[..LineAfter(l, ends)]) == before.(state := Code)
  {
    var at := Starts(lg, lines);
    ReadsBodyByBody(lg, lines, stringsAreCode);
    assert at(l) == before.(state := Following(q));
    BodiesInOrder(lg, lines, at, Masks(lg, lines, stringsAreCode), stringsAreCode, l, before, q, ends);
    EndsInside(lg, before.frames, q, lines, l, ends);
  }

  /** A line that opens heredocs, the bodies that follow, and what comes after:
      the lexer is back where it was before the line. */
  lemma HeredocsRead(
    lg: Lang, lines: seq<Line>, l: nat, openers: seq<Opener>, ends: seq<nat>, stringsAreCode: bool)
    requires l < |lines| && InCode(lg, AfterLines(lg, lines[..l])) && ByTokens(lg, AfterLines(lg, lines[..l]), lines[l])
    requires !lg.Rust? && Opens(lg, lines[l], openers)
    requires BodiesEnd(lg, AfterLines(lg, lines[..l]).frames, Docs(openers), lines, l + 1, ends)
    ensures var masks := Masks(lg, lines, stringsAreCode);
      && |masks[l]| == |lines[l]|
      && (forall k :: 0 <= k < |lines[l]| ==> masks[l][k] == (stringsAreCode || !InOpener(openers, k)))
      && BodiesMasked(masks, Docs(openers), lines, l + 1, ends, stringsAreCode)
    ensures LineAfter(l + 1, ends) <= |lines|
    ensures AfterLines(lg, lines[..LineAfter(l + 1, ends)]) == AfterLines(lg, lines[..l])
  {
    OpeningLine(lg, lines, l, openers, stringsAreCode);
    OpenersAreWords(lg, lines[l], openers);
    Bodies(lg, lines, l + 1, AfterLines(lg, lines[..l]), Docs(openers), ends, stringsAreCode);
  }

  lemma OpenersAreWords(lg: Lang, b: Line, openers: seq<Opener>)
    requires Opens(lg, b, openers)
    ensures Words(Docs(openers))
  {
    forall n | 0 <= n < |openers| ensures Word(Docs(openers)[n].term) {
      assert OpensFirst(lg, b, Before(openers, n), openers[n]);
      OpenedIsWord(lg, b, openers[n].at);
    }
  }

  // ---------------------------------------------------- Ruby comment blocks

  /** Is line `l` in a Ruby comment block that began at line `from`? */
  predicate InBlock(lines: seq<Line>, from: nat, l: nat) {
    && from <= l < |lines| && StartsAt(lines[from], 0, Text1("=begin"))
    && forall j :: from <= j < l ==> !StartsAt(lines[j], 0, Text1("=end"))
  }

  lemma BlockStep(lg: Lang, lines: seq<Line>, l: nat, lex: Lexer)
    requires l < |lines| && lg.Ruby? && lex.state.Code?
    requires var at := AfterLines(lg, lines[..l]);
      (at == lex && StartsAt(lines[l], 0, Text1("=begin"))) || at == lex.(state := LineBlock)
    ensures forall k :: 0 <= k < |lines[l]| ==> LineLabels(lg, lines, l)[k].CommentByte?
    ensures AfterLines(lg, lines[..l + 1]) ==
      lex.(state := if StartsAt(lines[l], 0, Text1("=end")) then Code else LineBlock)
  {
    AfterOne(lg, lines, l);
    BeginIs(lines[l]);
  }

  lemma BlockKept(lg: Lang, lines: seq<Line>, l: nat, lex: Lexer)
    requires l < |lines| && lg.Ruby? && lex.state.LineBlock? && !StartsAt(lines[l], 0, Text1("=end"))
    ensures Kept(Starts(lg, lines), lex, l)
  {
    if AfterLines(lg, lines[..l]) == lex { BlockStep(lg, lines, l, lex.(state := Code)); }
  }

  lemma BlockGoesOn(lg: Lang, lines: seq<Line>, from: nat, l: nat)
    requires lg.Ruby? && InBlock(lines, from, l) && AfterLines(lg, lines[..from]).state.Code? && from < l
    ensures AfterLines(lg, lines[..l]) == AfterLines(lg, lines[..from]).(state := LineBlock)
  {
    var lex := AfterLines(lg, lines[..from]).(state := LineBlock);
    BlockStep(lg, lines, from, AfterLines(lg, lines[..from]));
    forall j: nat | from < j < l ensures Kept(Starts(lg, lines), lex, j) { BlockKept(lg, lines, j, lex); }
    Stays(Starts(lg, lines), lex, from + 1, l);
  }

  lemma BlockMask(lg: Lang, lines: seq<Line>, l: nat, stringsAreCode: bool)
    requires l < |lines| && forall k :: 0 <= k < |lines[l]| ==> LineLabels(lg, lines, l)[k].CommentByte?
    ensures var m := Masks(lg, lines, stringsAreCode)[l];
      |m| == |lines[l]| && forall k :: 0 <= k < |m| ==> !m[k]
  {
    MaskAt(lg, lines, l, stringsAreCode);
  }

  /** From `=begin` through the first `=end` everything is comment; then the
      lexer is where it was. */
  lemma CommentBlock(lg: Lang, lines: seq<Line>, from: nat, l: nat, stringsAreCode: bool)
    requires lg.Ruby? && InBlock(lines, from, l) && AfterLines(lg, lines[..from]).state.Code?
    ensures var m := Masks(lg, lines, stringsAreCode)[l];
      |m| == |lines[l]| && forall k :: 0 <= k < |m| ==> !m[k]
    ensures StartsAt(lines[l], 0, Text1("=end")) ==> AfterLines(lg, lines[..l + 1]) == AfterLines(lg, lines[..from])
  {
    var lex := AfterLines(lg, lines[..from]);
    if from < l { BlockGoesOn(lg, lines, from, l); }
    BlockStep(lg, lines, l, lex);
    BlockMask(lg, lines, l, stringsAreCode);
  }
}
