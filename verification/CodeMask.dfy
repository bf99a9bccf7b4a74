/** Masks of whole files: which bytes of each line are code. */
module CodeMask {
  import opened Types
  import opened MaskLang
  import opened MaskLexer
  import opened MaskScan

  // ------------------------------------------------------------------ paint

  function Fill(labels: seq<Paint>, from: nat, to: nat, p: Paint): (r: seq<Paint>)
    ensures |r| == |labels|
    ensures forall k :: 0 <= k < |r| ==> r[k] == if from <= k < to then p else labels[k]
  {
    seq(|labels|, k requires 0 <= k < |labels| => if from <= k < to then p else labels[k])
  }

  function Unpainted(n: nat): (r: seq<Paint>)
    ensures |r| == n && forall k :: 0 <= k < n ==> r[k] == CodeByte
  { seq(n, _ => CodeByte) }

  function Applied(labels: seq<Paint>, t: Token): (r: seq<Paint>)
    ensures |r| == |labels|
  {
    if t.paint.CodeByte? then labels else Fill(labels, t.from, t.to, t.paint)
  }

  /** With strings as code, only comments are masked. */
  function MaskOf(labels: seq<Paint>, stringsAreCode: bool): (m: seq<bool>)
    ensures |m| == |labels|
    ensures forall k :: 0 <= k < |m| ==> m[k] == (labels[k].CodeByte? || (stringsAreCode && labels[k].StringByte?))
  {
    seq(|labels|, k requires 0 <= k < |labels| => labels[k].CodeByte? || (stringsAreCode && labels[k].StringByte?))
  }

  // --------------------------------------------------------------- one line

  datatype Lexed = Lexed(lex: Lexer, labels: seq<Paint>)

  /** Steps from `i` to the end of the line; what lies before `i` is final. */
  function RunTokens(lg: Lang, lex: Lexer, b: Line, i: nat, labels: seq<Paint>): (r: Lexed)
    requires LexOk(lg, lex) && |labels| == |b|
    ensures LexOk(lg, r.lex) && |r.labels| == |b|
    ensures forall k :: 0 <= k < i && k < |b| ==> r.labels[k] == labels[k]
    decreases |b| - i
  {
    if i >= |b| then Lexed(lex, labels) else
    TokenGood(lg, lex, b, i);
    var t := NextToken(lg, lex, b, i);
    RunTokens(lg, t.lex, b, t.next, Applied(labels, t))
  }

  /** Where the first frame that resumes a single-line string lies. */
  function FirstStr(frames: seq<Frame>): (p: nat)
    ensures p <= |frames| && (p < |frames| ==> frames[p].resume.Str?)
    ensures forall k :: 0 <= k < p ==> !frames[k].resume.Str?
  {
    if frames == [] || frames[0].resume.Str? then 0
    else
      var q := FirstStr(frames[1..]);
      assert forall k :: 1 <= k < q + 1 ==> frames[k] == frames[1..][k - 1];
      q + 1
  }

  /** Single-line strings end with the line, and so does what they opened. */
  function CloseStrings(lex: Lexer): Lexer {
    var state := if lex.state.Str? then Code else lex.state;
    var p := FirstStr(lex.frames);
    if p == |lex.frames| then lex.(state := state)
    else lex.(frames := lex.frames[..p], state := if state.Multi? || state.Percent? then state else Code)
  }

  /** Rust strings may continue; heredoc bodies start on the next line. */
  function EndLine(lg: Lang, lex: Lexer): Lexer {
    var l := if lg.Rust? && lex.state == Str(DQ) then lex else CloseStrings(lex);
    if l.pending == [] then l
    else if l.state.Code? then l.(state := Heredocs(l.pending), pending := [])
    else l.(pending := [])
  }

  /** How a line begins: dealt with as a whole, or lexed from a position. */
  datatype Start = Whole(done: Lexed) | From(lex: Lexer, i: nat, labels: seq<Paint>)

  function PaintGaps(labels: seq<Paint>, ranges: seq<(nat, nat)>, from: nat): (r: seq<Paint>)
    ensures |r| == |labels|
    decreases |ranges|
  {
    if ranges == [] then Fill(labels, from, |labels|, StringByte)
    else PaintGaps(Fill(labels, from, ranges[0].0, StringByte), ranges[1..], ranges[0].1)
  }

  function HeredocBody(h: Heredoc, b: Line): (r: seq<Paint>)
    ensures |r| == |b|
  { PaintGaps(Unpainted(|b|), if h.interp then HeredocInterp(b, h.php, 0) else [], 0) }

  const BEGIN: Line := [0x3D, 0x62, 0x65, 0x67, 0x69, 0x6E]
  const END: Line := [0x3D, 0x65, 0x6E, 0x64]

  /** Ruby `=begin` … `=end` blocks take whole lines. */
  function RubyStart(lg: Lang, lex: Lexer, b: Line, i: nat, labels: seq<Paint>): Start {
    if lg.Ruby? && (lex.state.LineBlock? || (lex.state.Code? && BEGIN <= b)) then
      Whole(Lexed(lex.(state := if END <= b then Code else LineBlock), Fill(labels, 0, |labels|, CommentByte)))
    else From(lex, i, labels)
  }

  function StartLine(lg: Lang, lex: Lexer, b: Line): (s: Start)
    requires LexOk(lg, lex)
    ensures s.Whole? ==> LexOk(lg, s.done.lex) && |s.done.labels| == |b|
    ensures s.From? ==> LexOk(lg, s.lex) && |s.labels| == |b| && !s.lex.state.Heredocs?
  {
    if !lex.state.Heredocs? then RubyStart(lg, lex, b, 0, Unpainted(|b|)) else
    var h, rest := lex.state.queue[0], lex.state.queue[1..];
    match HeredocClose(h, b)
    case None => Whole(Lexed(lex, HeredocBody(h, b)))
    case Some(end) =>
      var labels := Fill(Unpainted(|b|), 0, end, StringByte);
      if rest != [] then Whole(Lexed(lex.(state := Heredocs(rest)), labels))
      else if !h.php then Whole(Lexed(lex.(state := Code), labels))
      else RubyStart(lg, lex.(state := Code), b, end, labels)
  }

  function LexLine(lg: Lang, lex: Lexer, b: Line): (r: Lexed)
    requires LexOk(lg, lex)
    ensures |r.labels| == |b|
  {
    match StartLine(lg, lex, b)
    case Whole(done) => done
    case From(l, i, labels) =>
      var r := RunTokens(lg, l, b, i, labels);
      Lexed(EndLine(lg, r.lex), r.labels)
  }

  // --------------------------------------------------- between two lines

  /** At a line boundary: only a Rust `"` string is pending, no interpolation
      resumes a single-line string, no opened heredoc is forgotten. */
  predicate BoundaryOk(lg: Lang, lex: Lexer) {
    LexOk(lg, lex)
    && (lex.state.Str? ==> lg.Rust? && lex.state.q == DQ)
    && (forall k :: 0 <= k < |lex.frames| ==> !lex.frames[k].resume.Str?)
    && lex.pending == []
  }

  lemma EndLineBoundary(lg: Lang, lex: Lexer)
    requires LexOk(lg, lex)
    ensures BoundaryOk(lg, EndLine(lg, lex))
  {}

  lemma StartKeepsBoundary(lg: Lang, lex: Lexer, b: Line)
    requires BoundaryOk(lg, lex) && StartLine(lg, lex, b).Whole?
    ensures BoundaryOk(lg, StartLine(lg, lex, b).done.lex)
  {}

  /** Every line leads from boundary to boundary. */
  lemma LineKeepsBoundary(lg: Lang, lex: Lexer, b: Line)
    requires BoundaryOk(lg, lex)
    ensures BoundaryOk(lg, LexLine(lg, lex, b).lex)
  {
    match StartLine(lg, lex, b)
    case Whole(done) => StartKeepsBoundary(lg, lex, b);
    case From(l, i, labels) => EndLineBoundary(lg, RunTokens(lg, l, b, i, labels).lex);
  }

  const FRESH: Lexer := Lexer(Code, [], false, [])

  function AfterLines(lg: Lang, lines: seq<Line>): (lex: Lexer)
    ensures BoundaryOk(lg, lex)
  {
    if lines == [] then FRESH
    else
      var before := AfterLines(lg, lines[..|lines| - 1]);
      LineKeepsBoundary(lg, before, lines[|lines| - 1]);
      LexLine(lg, before, lines[|lines| - 1]).lex
  }

  /** Labels of line `l`, given the lines before it. */
  function LineLabels(lg: Lang, lines: seq<Line>, l: nat): (r: seq<Paint>)
    requires l < |lines|
    ensures |r| == |lines[l]|
  { LexLine(lg, AfterLines(lg, lines[..l]), lines[l]).labels }

  function Masks(lg: Lang, lines: seq<Line>, stringsAreCode: bool): (r: seq<seq<bool>>)
    ensures |r| == |lines|
  {
    if lines == [] then [] else
    Masks(lg, lines[..|lines| - 1], stringsAreCode) + [MaskOf(LineLabels(lg, lines, |lines| - 1), stringsAreCode)]
  }

  /** The mask of the first lines does not depend on the rest. */
  lemma {:induction false} MaskOfPrefix(lg: Lang, lines: seq<Line>, more: seq<Line>, stringsAreCode: bool)
    ensures Masks(lg, lines + more, stringsAreCode)[..|lines|] == Masks(lg, lines, stringsAreCode)
    decreases |more|
  {
    if more == [] {
      assert lines + more == lines;
    } else {
      var n := |more| - 1;
      assert (lines + more)[..|lines + more| - 1] == lines + more[..n];
      MaskOfPrefix(lg, lines, more[..n], stringsAreCode);
    }
  }

  lemma {:induction false} MaskAt(lg: Lang, lines: seq<Line>, l: nat, stringsAreCode: bool)
    requires l < |lines|
    ensures Masks(lg, lines, stringsAreCode)[l] == MaskOf(LineLabels(lg, lines, l), stringsAreCode)
    decreases |lines|
  {
    var init := lines[..|lines| - 1];
    if l < |init| {
      MaskAt(lg, init, l, stringsAreCode);
      assert init[..l] == lines[..l];
    }
  }

  /** The two modes label every byte alike: strings as code turns on exactly the
      string bytes, never a comment byte. */
  lemma TwoModes(lg: Lang, lines: seq<Line>, l: nat, k: nat)
    requires l < |lines| && k < |lines[l]|
    ensures |Masks(lg, lines, true)[l]| == |Masks(lg, lines, false)[l]| == |lines[l]|
    ensures var all, some, paint := Masks(lg, lines, true)[l][k], Masks(lg, lines, false)[l][k],
        LineLabels(lg, lines, l)[k];
      (some ==> all) && (all && !some <==> paint.StringByte?) && (!all <==> paint.CommentByte?)
  {
    MaskAt(lg, lines, l, true);
    MaskAt(lg, lines, l, false);
  }

  // ------------------------------------------------------- what is comment

  predicate Closes(b: Line, k: nat) { k + 1 < |b| && b[k] == STAR && b[k + 1] == SLASH }

  lemma {:induction false} UnclosedBlockRunsOut(b: Line, i: nat, depth: pos, nested: bool)
    requires forall k: nat :: i <= k ==> !Closes(b, k)
    ensures ScanBlock(b, i, depth, nested).ending.RanOut? && ScanBlock(b, i, depth, nested).depth >= depth
    decreases |b| - i
  {
    if i < |b| {
      assert !Closes(b, i);
      if nested && b[i] == SLASH && Get(b, i + 1) == STAR {
        UnclosedBlockRunsOut(b, i + 2, depth + 1, nested);
      } else {
        UnclosedBlockRunsOut(b, i + 1, depth, nested);
      }
    }
  }

  /** A line inside a block comment that does not close it is all comment, and
      the comment goes on, no shallower. */
  lemma LineInsideBlock(lg: Lang, lex: Lexer, b: Line)
    requires BoundaryOk(lg, lex) && lex.state.Block? && forall k: nat :: !Closes(b, k)
    ensures var r := LexLine(lg, lex, b);
      (forall k :: 0 <= k < |b| ==> r.labels[k].CommentByte?) && r.lex.state.Block?
          && r.lex.state.depth >= lex.state.depth
  {
    if b != [] {
      UnclosedBlockRunsOut(b, 0, lex.state.depth, Nested(lg));
      var t := BlockToken(lg, lex, b, 0);
      TokenGood(lg, lex, b, 0);
      assert RunTokens(lg, lex, b, 0, Unpainted(|b|)) == RunTokens(lg, t.lex, b, t.next, Applied(Unpainted(|b|), t));
    }
  }

  /** From a line comment on, everything is comment. */
  lemma SlashCommentRunsToEnd(lg: Lang, lex: Lexer, b: Line, i: nat, labels: seq<Paint>)
    requires LexOk(lg, lex) && |labels| == |b| && lex.state.Code? && lex.frames == []
    requires SlashLine(lg) && i + 1 < |b| && b[i] == SLASH && b[i + 1] == SLASH
    ensures forall k :: i <= k < |b| ==> RunTokens(lg, lex, b, i, labels).labels[k].CommentByte?
  {
    var t := NextToken(lg, lex, b, i);
    assert CommentToken(lg, lex, b, i) == Some(t) && t == Comment(lex, |b|, i, |b|);
    TokenGood(lg, lex, b, i);
    assert RunTokens(lg, lex, b, i, labels) == RunTokens(lg, t.lex, b, t.next, Applied(labels, t));
  }

  // ------------------------------------------------------------- the program

  /** Marks a range as not code, clipped to the line. */
  method Clear(mask: array<bool>, from: nat, to: nat)
    modifies mask
    ensures forall k :: 0 <= k < mask.Length ==> mask[k] == (old(mask[k]) && !(from <= k < to))
  {
    var k := if from < mask.Length then from else mask.Length;
    var end := if to < mask.Length then to else mask.Length;
    while k < end
      invariant from <= mask.Length ==> from <= k
      invariant from >= mask.Length ==> k == mask.Length
      invariant forall j :: 0 <= j < mask.Length ==> mask[j] == (old(mask[j]) && !(from <= j < k && j < end))
    {
      mask[k] := false;
      k := k + 1;
    }
  }

  /** The mask shows these labels in this mode. */
  ghost predicate Shows(mask: array<bool>, labels: seq<Paint>, stringsAreCode: bool)
    reads mask
  {
    mask[..] == MaskOf(labels, stringsAreCode)
  }

  predicate UnpaintedFrom(labels: seq<Paint>, i: nat) {
    forall k :: i <= k < |labels| ==> labels[k].CodeByte?
  }

  /** Comments are always cleared, strings only in the strict mode; nothing is
      painted twice. */
  method PaintOver(mask: array<bool>, p: Paint, from: nat, to: nat, stringsAreCode: bool, ghost labels: seq<Paint>)
    requires Shows(mask, labels, stringsAreCode)
    requires !p.CodeByte? && (p.CommentByte? || UnpaintedFrom(labels, from))
    modifies mask
    ensures Shows(mask, Fill(labels, from, to, p), stringsAreCode)
  {
    if p.CommentByte? || !stringsAreCode { Clear(mask, from, to); }
  }

  method FreshMask(n: nat, stringsAreCode: bool) returns (mask: array<bool>)
    ensures fresh(mask) && Shows(mask, Unpainted(n), stringsAreCode)
  {
    mask := new bool[n](_ => true);
  }

  /** A heredoc body: everything is string but the interpolations. */
  method PaintBody(mask: array<bool>, h: Heredoc, b: Line, stringsAreCode: bool)
    requires Shows(mask, Unpainted(|b|), stringsAreCode)
    modifies mask
    ensures Shows(mask, HeredocBody(h, b), stringsAreCode)
  {
    var ranges := [];
    if h.interp { ranges := LoopInterp(b, h.php); }
    var from: nat := 0;
    ghost var labels := Unpainted(|b|);
    for k := 0 to |ranges|
      invariant |labels| == |b| && UnpaintedFrom(labels, from) && Shows(mask, labels, stringsAreCode)
      invariant k < |ranges| ==> from <= ranges[k].0
      invariant PaintGaps(labels, ranges[k..], from) == HeredocBody(h, b)
    {
      assert ranges[k..][0] == ranges[k] && ranges[k..][1..] == ranges[k + 1..];
      PaintOver(mask, StringByte, from, ranges[k].0, stringsAreCode, labels);
      labels := Fill(labels, from, ranges[k].0, StringByte);
      from := ranges[k].1;
    }
    PaintOver(mask, StringByte, from, |b|, stringsAreCode, labels);
  }

  /** The main loop over one line. */
  method LoopTokens(
    lg: Lang, lex0: Lexer, b: Line, start: nat, mask: array<bool>, stringsAreCode: bool, ghost labels0: seq<Paint>)
    returns (lex: Lexer)
    requires LexOk(lg, lex0) && |labels0| == |b| && UnpaintedFrom(labels0, start)
        && Shows(mask, labels0, stringsAreCode)
    modifies mask
    ensures lex == RunTokens(lg, lex0, b, start, labels0).lex
    ensures Shows(mask, RunTokens(lg, lex0, b, start, labels0).labels, stringsAreCode)
  {
    lex := lex0;
    var i := start;
    ghost var labels := labels0;
    while i < |b|
      invariant LexOk(lg, lex) && |labels| == |b| && UnpaintedFrom(labels, i) && Shows(mask, labels, stringsAreCode)
      invariant RunTokens(lg, lex0, b, start, labels0) == RunTokens(lg, lex, b, i, labels)
      decreases |b| - i
    {
      TokenGood(lg, lex, b, i);
      var t := TakeToken(lg, lex, b, i);
      if !t.paint.CodeByte? { PaintOver(mask, t.paint, t.from, t.to, stringsAreCode, labels); }
      labels := Applied(labels, t);
      lex, i := t.lex, t.next;
    }
  }

  /** The start of a line: heredoc bodies and Ruby comment blocks. */
  method OpenLine(lg: Lang, lex0: Lexer, b: Line, mask: array<bool>, stringsAreCode: bool)
    returns (lex: Lexer, i: nat, done: bool)
    requires LexOk(lg, lex0) && Shows(mask, Unpainted(|b|), stringsAreCode)
    modifies mask
    ensures match StartLine(lg, lex0, b)
      case Whole(d) => done && lex == d.lex && Shows(mask, d.labels, stringsAreCode)
      case From(l, at, labels) =>
        !done && lex == l && i == at && Shows(mask, labels, stringsAreCode) && UnpaintedFrom(labels, i)
  {
    lex, i, done := lex0, 0, true;
    ghost var labels := Unpainted(|b|);
    if lex.state.Heredocs? {
      var h, rest := lex.state.queue[0], lex.state.queue[1..];
      var close := LoopHeredocClose(h, b);
      if close.None? {
        PaintBody(mask, h, b, stringsAreCode);
        return;
      }
      PaintOver(mask, StringByte, 0, close.value, stringsAreCode, labels);
      labels := Fill(labels, 0, close.value, StringByte);
      lex := lex.(state := if rest == [] then Code else Heredocs(rest));
      if !h.php || rest != [] { return; }
      i := close.value;
    }
    if lg.Ruby? && (lex.state.LineBlock? || (lex.state.Code? && BEGIN <= b)) {
      PaintOver(mask, CommentByte, 0, |b|, stringsAreCode, labels);
      lex := lex.(state := if END <= b then Code else LineBlock);
      return;
    }
    done := false;
  }

  method MaskLine(lg: Lang, lex0: Lexer, b: Line, stringsAreCode: bool) returns (lex: Lexer, mask: array<bool>)
    requires LexOk(lg, lex0)
    ensures lex == LexLine(lg, lex0, b).lex
    ensures fresh(mask) && Shows(mask, LexLine(lg, lex0, b).labels, stringsAreCode)
  {
    mask := FreshMask(|b|, stringsAreCode);
    var i, done;
    lex, i, done := OpenLine(lg, lex0, b, mask, stringsAreCode);
    if done { return; }
    ghost var s := StartLine(lg, lex0, b);
    lex := LoopTokens(lg, lex, b, i, mask, stringsAreCode, s.labels);
    lex := EndLine(lg, lex);
  }

  /** Whole files, in either mode: the labels do not depend on the mode, every
      mask is as long as its line, and every line ends at a boundary. */
  method MaskLines(lg: Lang, lines: seq<Line>, stringsAreCode: bool) returns (out: seq<seq<bool>>)
    ensures out == Masks(lg, lines, stringsAreCode)
  {
    out := [];
    var lex := FRESH;
    for l := 0 to |lines|
      invariant lex == AfterLines(lg, lines[..l])
      invariant out == Masks(lg, lines[..l], stringsAreCode)
    {
      var mask;
      lex, mask := MaskNext(lg, lex, lines, l, stringsAreCode);
      MasksGrow(lg, lines, l, stringsAreCode);
      out := out + [mask];
    }
    assert lines[..|lines|] == lines;
  }

  lemma MasksGrow(lg: Lang, lines: seq<Line>, l: nat, stringsAreCode: bool)
    requires l < |lines|
    ensures Masks(lg, lines[..l + 1], stringsAreCode) ==
            Masks(lg, lines[..l], stringsAreCode) + [MaskOf(LineLabels(lg, lines, l), stringsAreCode)]
  {
    var some := lines[..l + 1];
    assert some[..l] == lines[..l] && some[l] == lines[l];
  }

  method MaskNext(lg: Lang, lex0: Lexer, lines: seq<Line>, l: nat, stringsAreCode: bool)
    returns (lex: Lexer, mask: seq<bool>)
    requires l < |lines| && lex0 == AfterLines(lg, lines[..l])
    ensures lex == AfterLines(lg, lines[..l + 1])
    ensures mask == MaskOf(LineLabels(lg, lines, l), stringsAreCode)
  {
    NextLine(lg, lines, l);
    var m;
    lex, m := MaskLine(lg, lex0, lines[l], stringsAreCode);
    mask := m[..];
  }

  lemma NextLine(lg: Lang, lines: seq<Line>, l: nat)
    requires l < |lines|
    ensures AfterLines(lg, lines[..l + 1]) == LexLine(lg, AfterLines(lg, lines[..l]), lines[l]).lex
  {
    assert lines[..l + 1][..l] == lines[..l];
  }
}
