/** What the lexer makes of text, said of whole stretches of a line and of whole
    lines: which bytes are code, string or comment, and where each kind ends. */
module MaskMeaning {
  import opened Types
  import opened MaskLang
  import opened MaskLexer
  import opened MaskOpeners
  import opened CodeMask

  // ------------------------------------------------------- stretches of code

  /** The lexer at position `i` of a line, with what it has painted so far. */
  datatype At = At(lex: Lexer, i: nat, labels: seq<Paint>)

  /** One token leads from `c` to `d`. */
  ghost predicate Next(lg: Lang, b: Line, c: At, d: At) {
    && LexOk(lg, c.lex) && |c.labels| == |b| && c.i < |b|
    && var t := NextToken(lg, c.lex, b, c.i); d == At(t.lex, t.next, Applied(c.labels, t))
  }

  /** A function of where the lexer is that no token changes, such as what the
      rest of the line comes to. */
  ghost predicate Stepwise(lg: Lang, b: Line, run: At -> Lexed) {
    forall c, d {:trigger Next(lg, b, c, d)} :: Next(lg, b, c, d) ==> run(c) == run(d)
  }

  ghost function RestOf(lg: Lang, b: Line): At -> Lexed {
    (c: At) =>
      if LexOk(lg, c.lex) && |c.labels| == |b| then RunTokens(lg, c.lex, b, c.i, c.labels) else Lexed(c.lex, c.labels)
  }

  lemma RestIsStepwise(lg: Lang, b: Line)
    ensures Stepwise(lg, b, RestOf(lg, b))
  {
    forall c, d | Next(lg, b, c, d) ensures RestOf(lg, b)(c) == RestOf(lg, b)(d) {
      TokenGood(lg, c.lex, b, c.i);
    }
  }

  /** Where block comments are read, and where they nest. */
  lemma {:induction false} CommentDialects(lg: Lang)
    ensures BlockC(lg) <==> lg !in [Lang.Python, Lang.Ruby, Lang.Shell, Lang.Yaml, Lang.Toml, Lang.Lua, Lang.Vb]
    ensures Nested(lg) <==> lg in [Lang.Rust, Lang.Dart, Lang.Kotlin, Lang.Swift, Lang.Scala]
  {}

  /** Where three quotes or a backtick begin strings that span lines. */
  lemma {:induction false} MultilineDialects(lg: Lang, q: byte)
    ensures q == SQ ==> (Triple(lg, q) <==> lg in [Lang.Python, Lang.Dart, Lang.Toml])
    ensures q == DQ ==> (Triple(lg, q) <==>
      lg.Python? || lg.Dart? || lg.Toml? || lg.Java? || lg.Kotlin? || lg.Swift? || lg.CSharp? || lg.Scala?)
    ensures BacktickMulti(lg) <==> lg.Go? || lg.Js?
  {}

  /** Where a backslash in a string is just a backslash. */
  lemma {:induction false} EscapeDialects(lg: Lang, q: byte)
    ensures !Escapes(lg, q) <==> lg.Sql? || lg.Vb? || (lg.Shell? && q == SQ) || (lg.Go? && q == BACKTICK)
  {}

  /** Bytes that open nothing in any language but Rust. */
  predicate Quiet(c: byte) {
    c !in [SLASH, HASH, LT, PERCENT, SQ, DQ, BACKTICK, MINUS, LBRACKET, BACKSLASH]
  }

  /** Plain code outside of interpolations. */
  predicate InCode(lg: Lang, lex: Lexer) { LexOk(lg, lex) && lex.state.Code? && lex.frames == [] }

  lemma QuietToken(lg: Lang, lex: Lexer, b: Line, i: nat, labels: seq<Paint>)
    requires InCode(lg, lex) && !lg.Rust? && |labels| == |b| && i < |b| && Quiet(b[i])
    ensures Next(lg, b, At(lex, i, labels), At(lex, i + 1, labels))
  {
    assert NextToken(lg, lex, b, i) == Moved(lex, i + 1);
  }

  /** Quiet bytes stay code and change nothing. */
  lemma {:induction false} QuietRun(
    lg: Lang, b: Line, run: At -> Lexed, lex: Lexer, i: nat, j: nat, labels: seq<Paint>)
    requires Stepwise(lg, b, run) && InCode(lg, lex) && !lg.Rust? && |labels| == |b| && i <= j <= |b|
    requires forall k :: i <= k < j ==> Quiet(b[k])
    ensures run(At(lex, i, labels)) == run(At(lex, j, labels))
    decreases j - i
  {
    if i < j {
      QuietToken(lg, lex, b, i, labels);
      QuietRun(lg, b, run, lex, i + 1, j, labels);
    }
  }

  // --------------------------------------------------------------- comments

  predicate DoubleAt(b: Line, i: nat, c: byte) { i + 1 < |b| && b[i] == c && b[i + 1] == c }

  /** Does a comment to the end of the line start here? */
  predicate LineCommentAt(lg: Lang, b: Line, i: nat) {
    i < |b| &&
    match lg
    case Python => b[i] == HASH
    case Ruby => b[i] == HASH
    case Toml => b[i] == HASH
    case Shell => b[i] == HASH && (i == 0 || b[i - 1] in [SPACE, TAB, SEMI, PIPE, AMP, LPAREN, BACKTICK])
    case Yaml => b[i] == HASH && (i == 0 || b[i - 1] == SPACE || b[i - 1] == TAB)
    case Php => DoubleAt(b, i, SLASH) || (b[i] == HASH && !(i + 1 < |b| && b[i + 1] == LBRACKET))
    case Vb => b[i] == SQ
    case Sql => DoubleAt(b, i, MINUS)
    case Lua => DoubleAt(b, i, MINUS) && LuaLongOpen(b, i + 2) == None
    case _ => DoubleAt(b, i, SLASH)
  }

  /** A line comment takes the rest of the line and nothing else. */
  lemma LineComment(lg: Lang, b: Line, run: At -> Lexed, lex: Lexer, i: nat, labels: seq<Paint>)
    requires Stepwise(lg, b, run) && InCode(lg, lex) && |labels| == |b| && LineCommentAt(lg, b, i)
    ensures run(At(lex, i, labels)) == run(At(lex, |b|, Fill(labels, i, |b|, CommentByte)))
  {
    assert NextToken(lg, lex, b, i) == Comment(lex, |b|, i, |b|);
    assert Next(lg, b, At(lex, i, labels), At(lex, |b|, Fill(labels, i, |b|, CommentByte)));
  }

  /** A hash that starts no comment is code. */
  lemma HashIsCode(lg: Lang, b: Line, run: At -> Lexed, lex: Lexer, i: nat, labels: seq<Paint>)
    requires Stepwise(lg, b, run) && InCode(lg, lex) && |labels| == |b|
    requires i < |b| && b[i] == HASH && !LineCommentAt(lg, b, i)
    ensures run(At(lex, i, labels)) == run(At(lex, i + 1, labels))
  {
    assert NextToken(lg, lex, b, i) == Moved(lex, i + 1);
    assert Next(lg, b, At(lex, i, labels), At(lex, i + 1, labels));
  }

  predicate OpenerAt(b: Line, i: nat) { i + 1 < |b| && b[i] == SLASH && b[i + 1] == STAR }

  predicate CloserAt(b: Line, i: nat) { i + 1 < |b| && b[i] == STAR && b[i + 1] == SLASH }

  /** Text with balanced nested comments and no other opener or closer. */
  ghost predicate Balanced(b: Line, i: nat, j: nat)
    decreases if j >= i then j - i else 0
  {
    i <= j <= |b| &&
    (i == j
     || (!OpenerAt(b, i) && !CloserAt(b, i) && Balanced(b, i + 1, j))
     || (OpenerAt(b, i) && exists m: nat ::
           i + 2 <= m && m + 2 <= j && Balanced(b, i + 2, m) && CloserAt(b, m) && Balanced(b, m + 2, j)))
  }

  lemma {:induction false} BalancedPasses(b: Line, i: nat, j: nat, depth: pos)
    requires Balanced(b, i, j)
    ensures ScanBlock(b, i, depth, true) == ScanBlock(b, j, depth, true)
    decreases j - i
  {
    if i < j {
      if OpenerAt(b, i) {
        var m: nat :| i + 2 <= m && m + 2 <= j && Balanced(b, i + 2, m) && CloserAt(b, m) && Balanced(b, m + 2, j);
        BalancedPasses(b, i + 2, m, depth + 1);
        BalancedPasses(b, m + 2, j, depth);
      } else {
        BalancedPasses(b, i + 1, j, depth);
      }
    }
  }

  lemma {:induction false} UnclosedPasses(b: Line, i: nat, j: nat, depth: pos)
    requires i <= j <= |b| && forall k :: i <= k < j ==> !CloserAt(b, k)
    ensures ScanBlock(b, i, depth, false) == ScanBlock(b, j, depth, false)
    decreases j - i
  {
    if i < j {
      assert !CloserAt(b, i);
      UnclosedPasses(b, i + 1, j, depth);
    }
  }

  /** The comment that starts before `i` ends with the closer at `e`: the first
      one, or in languages where comments nest the one that balances. */
  ghost predicate CommentEnds(lg: Lang, b: Line, i: nat, e: nat) {
    i <= e && CloserAt(b, e) && if Nested(lg) then Balanced(b, i, e) else forall k :: i <= k < e ==> !CloserAt(b, k)
  }

  lemma BlockOpens(lg: Lang, lex: Lexer, b: Line, i: nat, labels: seq<Paint>)
    requires InCode(lg, lex) && BlockC(lg) && OpenerAt(b, i) && |labels| == |b|
    ensures Next(lg, b, At(lex, i, labels), At(lex.(state := Block(1)), i + 2, Fill(labels, i, i + 2, CommentByte)))
  {
    assert NextToken(lg, lex, b, i) == Comment(lex.(state := Block(1)), i + 2, i, i + 2);
  }

  lemma BlockEnds(lg: Lang, lex: Lexer, b: Line, i: nat, e: nat, labels: seq<Paint>)
    requires LexOk(lg, lex) && lex.state == Block(1) && |labels| == |b| && i < |b| && CommentEnds(lg, b, i, e)
    ensures Next(lg, b, At(lex, i, labels), At(lex.(state := Code), e + 2, Fill(labels, i, e + 2, CommentByte)))
  {
    if Nested(lg) { BalancedPasses(b, i, e, 1); } else { UnclosedPasses(b, i, e, 1); }
    assert ScanBlock(b, e, 1, Nested(lg)) == Scan(e + 2, 0, Closed);
    assert NextToken(lg, lex, b, i) == Comment(lex.(state := Code), e + 2, i, e + 2);
  }

  lemma FillTwice(labels: seq<Paint>, i: nat, m: nat, e: nat, p: Paint)
    requires i <= m <= e
    ensures Fill(Fill(labels, i, m, p), m, e, p) == Fill(labels, i, e, p)
  {}

  /** A block comment is comment from opener through closer, and code goes on
      after it. */
  lemma BlockComment(lg: Lang, b: Line, run: At -> Lexed, lex: Lexer, i: nat, e: nat, labels: seq<Paint>)
    requires Stepwise(lg, b, run) && InCode(lg, lex) && BlockC(lg) && |labels| == |b|
    requires OpenerAt(b, i) && CommentEnds(lg, b, i + 2, e)
    ensures run(At(lex, i, labels)) == run(At(lex, e + 2, Fill(labels, i, e + 2, CommentByte)))
  {
    BlockOpens(lg, lex, b, i, labels);
    BlockEnds(lg, lex.(state := Block(1)), b, i + 2, e, Fill(labels, i, i + 2, CommentByte));
    FillTwice(labels, i, i + 2, e + 2, CommentByte);
    assert lex.(state := Block(1)).(state := Code) == lex;
  }

  // ---------------------------------------------------------------- strings

  /** A string with this quote has no interpolation. */
  predicate NoInterpolation(lg: Lang, q: byte, fstr: bool) {
    match lg
    case Swift => false
    case Dart => false
    case Python => !fstr
    case CSharp => !fstr
    case Php => q != DQ
    case Kotlin => q != DQ
    case Js => q != BACKTICK
    case Scala => q != DQ || !fstr
    case Ruby => q != DQ && q != BACKTICK
    case _ => true
  }

  predicate TripleAt(b: Line, k: nat, q: byte) { k + 2 < |b| && b[k] == q && b[k + 1] == q && b[k + 2] == q }

  /** Three quotes end a string that may span lines, unless backticks do. */
  function EndWidth(multi: bool, q: byte): nat { if multi && q != BACKTICK then 3 else 1 }

  /** The closing quotes of a string whose body starts at `s` stand at `k`,
      unless they are escaped. */
  predicate ClosesAt(lg: Lang, multi: bool, q: byte, b: Line, s: nat, k: nat) {
    && s <= k < |b| && (if multi && q != BACKTICK then TripleAt(b, k, q) else b[k] == q)
    && !(Escapes(lg, q) && Escaped(b, s, k))
  }

  predicate FirstClose(lg: Lang, multi: bool, q: byte, b: Line, s: nat, e: nat) {
    ClosesAt(lg, multi, q, b, s, e) && forall k :: s <= k < e ==> !ClosesAt(lg, multi, q, b, s, k)
  }

  lemma PlainStep(lg: Lang, q: byte, fstr: bool, b: Line, i: nat)
    requires NoInterpolation(lg, q, fstr) && i < |b|
    ensures StringStep(lg, q, fstr, b, i) == if b[i] == BACKSLASH && Escapes(lg, q) then Skip(2) else Plain
  {}

  lemma {:induction false} ScanCloses(
    lg: Lang, multi: bool, q: byte, fstr: bool, b: Line, s: nat, i: nat, e: nat)
    requires NoInterpolation(lg, q, fstr) && q != BACKSLASH && FirstClose(lg, multi, q, b, s, e)
    requires s <= i <= e && !(Escapes(lg, q) && Escaped(b, s, i))
    ensures ScanString(lg, multi, q, fstr, b, i) == Scan(e + EndWidth(multi, q), 0, Closed)
    decreases |b| - i
  {
    PlainStep(lg, q, fstr, b, i);
    if i < e {
      assert !ClosesAt(lg, multi, q, b, s, i);
      if b[i] == BACKSLASH && Escapes(lg, q) {
        assert Escaped(b, s, i + 1) && !Escaped(b, s, i + 2);
        ScanCloses(lg, multi, q, fstr, b, s, i + 2, e);
      } else {
        ScanCloses(lg, multi, q, fstr, b, s, i + 1, e);
      }
    }
  }

  lemma {:induction false} ScanRunsOut(lg: Lang, multi: bool, q: byte, fstr: bool, b: Line, s: nat, i: nat)
    requires NoInterpolation(lg, q, fstr) && q != BACKSLASH && s <= i
    requires forall k: nat :: !ClosesAt(lg, multi, q, b, s, k)
    requires !(Escapes(lg, q) && Escaped(b, s, i))
    ensures ScanString(lg, multi, q, fstr, b, i).ending.RanOut?
    decreases |b| - i
  {
    if i < |b| {
      PlainStep(lg, q, fstr, b, i);
      assert !ClosesAt(lg, multi, q, b, s, i);
      if b[i] == BACKSLASH && Escapes(lg, q) {
        assert Escaped(b, s, i + 1) && (i + 2 <= |b| ==> !Escaped(b, s, i + 2));
        ScanRunsOut(lg, multi, q, fstr, b, s, i + 2);
      } else {
        ScanRunsOut(lg, multi, q, fstr, b, s, i + 1);
      }
    }
  }

  function StringState(multi: bool, q: byte): State { if multi then Multi(q) else Str(q) }

  /** A string body is string through its first unescaped closing quote. */
  lemma StringBody(
    lg: Lang, b: Line, run: At -> Lexed, lex: Lexer, multi: bool, q: byte, i: nat, e: nat, labels: seq<Paint>)
    requires Stepwise(lg, b, run) && LexOk(lg, lex) && lex.state == StringState(multi, q) && |labels| == |b|
    requires NoInterpolation(lg, q, lex.fstr) && q != BACKSLASH && FirstClose(lg, multi, q, b, i, e)
    ensures var end := e + EndWidth(multi, q);
      run(At(lex, i, labels)) == run(At(lex.(state := Code), end, Fill(labels, i, end, StringByte)))
  {
    ScanCloses(lg, multi, q, lex.fstr, b, i, i, e);
    var end := e + EndWidth(multi, q);
    assert NextToken(lg, lex, b, i) == Literal(lex.(state := Code), end, i, end);
    assert Next(lg, b, At(lex, i, labels), At(lex.(state := Code), end, Fill(labels, i, end, StringByte)));
  }

  /** Without one the rest of the line is string, and the string goes on. */
  lemma StringGoesOn(
    lg: Lang, b: Line, run: At -> Lexed, lex: Lexer, multi: bool, q: byte, i: nat, labels: seq<Paint>)
    requires Stepwise(lg, b, run) && LexOk(lg, lex) && lex.state == StringState(multi, q) && |labels| == |b|
    requires NoInterpolation(lg, q, lex.fstr) && q != BACKSLASH && i < |b|
    requires forall k: nat :: !ClosesAt(lg, multi, q, b, i, k)
    ensures exists end: nat ::
      end >= |b| && run(At(lex, i, labels)) == run(At(lex, end, Fill(labels, i, |b|, StringByte)))
  {
    ScanRunsOut(lg, multi, q, lex.fstr, b, i, i);
    var s := ScanString(lg, multi, q, lex.fstr, b, i);
    assert NextToken(lg, lex, b, i) == Literal(lex, s.at, i, s.at);
    assert Fill(labels, i, s.at, StringByte) == Fill(labels, i, |b|, StringByte);
    assert Next(lg, b, At(lex, i, labels), At(lex, s.at, Fill(labels, i, |b|, StringByte)));
  }

  /** A quote that opens a string of one line. */
  predicate PlainQuote(lg: Lang, b: Line, i: nat) {
    i < |b| && !(lg.Yaml? && b[i] != BACKTICK && YamlPlain(b, i)) &&
    if b[i] == DQ then
      !(Triple(lg, DQ) && TripleAt(b, i, DQ))
      && !(lg.C? && i > 0 && b[i - 1] == 0x52 && CppRawOpen(b, i).Some?) && !(lg.CSharp? && CsStringOpen(b, i).Some?)
    else if b[i] == SQ then
      !(Triple(lg, SQ) && TripleAt(b, i, SQ)) && !lg.Vb? && !lg.Rust? && !(lg.C? && NumberBefore(b, i))
    else b[i] == BACKTICK && !BacktickMulti(lg)
  }

  lemma {:induction false} QuoteFirst(lg: Lang, lex: Lexer, b: Line, i: nat)
    requires InCode(lg, lex) && PlainQuote(lg, b, i)
    ensures CodeToken(lg, lex, b, i) == QuoteToken(lg, lex, b, i)
  {
    assert FrameToken(lex, b, i) == None && CommentToken(lg, lex, b, i) == None;
    assert RubyPhpToken(lg, lex, b, i) == None && DashToken(lg, lex, b, i) == None;
    assert RawOpenToken(lg, lex, b, i) == None;
  }

  lemma {:induction false} PlainQuoteToken(lg: Lang, lex: Lexer, b: Line, i: nat)
    requires InCode(lg, lex) && PlainQuote(lg, b, i)
    ensures QuoteToken(lg, lex, b, i) ==
      Literal(lex.(state := Str(b[i]), fstr := InterpPrefix(lg, b, i)), i + 1, i, i + 1)
  {}

  lemma {:induction false} QuoteOpens(lg: Lang, lex: Lexer, b: Line, i: nat, labels: seq<Paint>)
    requires InCode(lg, lex) && PlainQuote(lg, b, i) && |labels| == |b|
    ensures Next(lg, b, At(lex, i, labels),
      At(lex.(state := Str(b[i]), fstr := InterpPrefix(lg, b, i)), i + 1, Fill(labels, i, i + 1, StringByte)))
  {
    QuoteFirst(lg, lex, b, i);
    PlainQuoteToken(lg, lex, b, i);
  }

  /** A string literal of one line, quotes included. */
  lemma StringLiteral(lg: Lang, b: Line, run: At -> Lexed, lex: Lexer, i: nat, e: nat, labels: seq<Paint>)
    requires Stepwise(lg, b, run) && InCode(lg, lex) && PlainQuote(lg, b, i) && |labels| == |b|
    requires NoInterpolation(lg, b[i], InterpPrefix(lg, b, i)) && FirstClose(lg, false, b[i], b, i + 1, e)
    ensures run(At(lex, i, labels)) ==
      run(At(lex.(fstr := InterpPrefix(lg, b, i)), e + 1, Fill(labels, i, e + 1, StringByte)))
  {
    var inside := lex.(state := Str(b[i]), fstr := InterpPrefix(lg, b, i));
    QuoteOpens(lg, lex, b, i, labels);
    StringBody(lg, b, run, inside, false, b[i], i + 1, e, Fill(labels, i, i + 1, StringByte));
    FillTwice(labels, i, i + 1, e + 1, StringByte);
    assert inside.(state := Code) == lex.(fstr := InterpPrefix(lg, b, i));
  }

  /** Quotes that open a string of many lines, and how many they are. */
  predicate MultiQuote(lg: Lang, b: Line, i: nat) {
    i < |b| &&
    if b[i] == BACKTICK then BacktickMulti(lg)
    else (b[i] == DQ || b[i] == SQ) && Triple(lg, b[i]) && TripleAt(b, i, b[i]) && !(lg.CSharp? && b[i] == DQ)
  }

  lemma MultiOpens(lg: Lang, lex: Lexer, b: Line, i: nat, labels: seq<Paint>)
    requires InCode(lg, lex) && MultiQuote(lg, b, i) && |labels| == |b|
    ensures var inside := lex.(state := Multi(b[i]), fstr := b[i] != BACKTICK && InterpPrefix(lg, b, i));
      var from := i + EndWidth(true, b[i]);
      LexOk(lg, inside) && Next(lg, b, At(lex, i, labels), At(inside, from, Fill(labels, i, from, StringByte)))
  {
    assert CodeToken(lg, lex, b, i) == QuoteToken(lg, lex, b, i);
  }

  // ------------------------------------------------- exact terminators

  predicate FirstAt(b: Line, i: nat, e: nat, pat: Line) {
    i <= e && StartsAt(b, e, pat) && forall k :: i <= k < e ==> !StartsAt(b, k, pat)
  }

  function RawPaint(comment: bool): Paint { if comment then CommentByte else StringByte }

  /** Raw strings and long comments end with the first terminator, or go on. */
  lemma RawBody(
    lg: Lang, b: Line, run: At -> Lexed, lex: Lexer, term: Line, comment: bool, i: nat, labels: seq<Paint>)
    requires Stepwise(lg, b, run) && LexOk(lg, lex) && lex.state == Raw(term, comment) && term != []
    requires i < |b| && |labels| == |b|
    ensures forall e: nat :: FirstAt(b, i, e, term) ==>
      run(At(lex, i, labels)) ==
        run(At(lex.(state := Code), e + |term|, Fill(labels, i, e + |term|, RawPaint(comment))))
    ensures (forall e: nat :: i <= e ==> !StartsAt(b, e, term)) ==>
      run(At(lex, i, labels)) == run(At(lex, |b|, Fill(labels, i, |b|, RawPaint(comment))))
  {
    var t := NextToken(lg, lex, b, i);
    forall e: nat | FirstAt(b, i, e, term)
      ensures run(At(lex, i, labels)) ==
        run(At(lex.(state := Code), e + |term|, Fill(labels, i, e + |term|, RawPaint(comment))))
    {
      assert Find(b, i, term) == Some(e);
      assert t == Token(lex.(state := Code), e + |term|, RawPaint(comment), i, e + |term|);
      assert Next(lg, b, At(lex, i, labels),
        At(lex.(state := Code), e + |term|, Fill(labels, i, e + |term|, RawPaint(comment))));
    }
    if forall e: nat :: i <= e ==> !StartsAt(b, e, term) {
      assert Find(b, i, term) == None;
      assert t == Token(lex, |b|, RawPaint(comment), i, |b|);
      assert Next(lg, b, At(lex, i, labels), At(lex, |b|, Fill(labels, i, |b|, RawPaint(comment))));
    }
  }

  function Repeat(c: byte, n: nat): (r: Line)
    ensures |r| == n && forall k :: 0 <= k < n ==> r[k] == c
  { seq(n, _ => c) }

  /** Opener of a raw string or long comment of `len` bytes at `i`, and what
      closes it. */
  predicate RawOpens(lg: Lang, b: Line, i: nat, len: nat, term: Line, comment: bool) {
    i < |b| &&
    match lg
    case Rust =>
      !comment && b[i] in [0x72, 0x62, 0x63] && !(i > 0 && IsIdent(b[i - 1]))
      && RustRawOpen(b, i).Some? && len == RustRawOpen(b, i).value.len
      && term == [DQ] + Repeat(HASH, RustRawOpen(b, i).value.hashes)
    case C =>
      !comment && b[i] == DQ && i > 0 && b[i - 1] == 0x52
      && CppRawOpen(b, i).Some? && len == CppRawOpen(b, i).value.len && term == CppRawOpen(b, i).value.term
    case Lua =>
      var at := if comment then i + 2 else i;
      && (comment ==> DoubleAt(b, i, MINUS)) && LuaLongOpen(b, at).Some?
      && len == at - i + LuaLongOpen(b, at).value.len
      && term == [RBRACKET] + Repeat(EQUALS, LuaLongOpen(b, at).value.level) + [RBRACKET]
    case Vue => comment && StartsAt(b, i, [LT, BANG, MINUS, MINUS]) && len == 4 && term == [MINUS, MINUS, GT]
    case _ => false
  }

  lemma RawStarts(
    lg: Lang, lex: Lexer, b: Line, i: nat, len: nat, term: Line, comment: bool, labels: seq<Paint>)
    requires InCode(lg, lex) && RawOpens(lg, b, i, len, term, comment) && |labels| == |b|
    ensures Next(lg, b, At(lex, i, labels),
      At(lex.(state := Raw(term, comment)), i + len, Fill(labels, i, i + len, RawPaint(comment))))
  {
    match lg
    case Rust => assert [DQ] + seq(RustRawOpen(b, i).value.hashes, _ => HASH) == term;
    case C =>
    case Lua =>
      var at := if comment then i + 2 else i;
      assert LuaTerm(LuaLongOpen(b, at).value.level) == term;
    case Vue => assert b[i..i + 4] == [LT, BANG, MINUS, MINUS] && b[i..i + 4][0] == b[i];
  }

  // --------------------------------------------------------- interpolations

  /** Code starts here within a string, after an opener of `len` bytes. */
  predicate CodeOpensAt(lg: Lang, q: byte, fstr: bool, b: Line, i: nat, len: nat) {
    match lg
    case Swift => len == 2 && StartsAt(b, i, Text1("\\("))
    case Python => fstr && len == 1 && StartsAt(b, i, Text1("{")) && !StartsAt(b, i, Text1("{{"))
    case CSharp => fstr && len == 1 && StartsAt(b, i, Text1("{")) && !StartsAt(b, i, Text1("{{"))
    case Php => q == DQ && if StartsAt(b, i, Text1("{$")) then len == 1 else len == 2 && StartsAt(b, i, Text1("${"))
    case Kotlin => q == DQ && len == 2 && StartsAt(b, i, Text1("${"))
    case Dart => len == 2 && StartsAt(b, i, Text1("${"))
    case Js => q == BACKTICK && len == 2 && StartsAt(b, i, Text1("${"))
    case Scala => q == DQ && fstr && len == 2 && StartsAt(b, i, Text1("${"))
    case Ruby => (q == DQ || q == BACKTICK) && len == 2 && StartsAt(b, i, Text1("#{"))
    case _ => false
  }

  /** The byte after this one is part of the string whatever it is. */
  predicate HidesNext(lg: Lang, q: byte, fstr: bool, b: Line, i: nat)
    requires i < |b|
  {
    || (b[i] == BACKSLASH && Escapes(lg, q) && !(lg.Swift? && StartsAt(b, i, Text1("\\("))))
    || (fstr && (lg.Python? || lg.CSharp?) && StartsAt(b, i, Text1("{{")))
  }

  function OpenOf(lg: Lang): byte { if lg.Swift? then LPAREN else LBRACE }

  function CloserOf(lg: Lang): byte { if lg.Swift? then RPAREN else RBRACE }

  lemma TwoBytes(b: Line, i: nat, s: string)
    requires |s| == 2 && s[0] < 128 as char && s[1] < 128 as char
    ensures StartsAt(b, i, Text1(s)) <==> i + 1 < |b| && b[i] == s[0] as int && b[i + 1] == s[1] as int
  {
    if i + 1 < |b| && b[i] == s[0] as int && b[i + 1] == s[1] as int { assert b[i..i + 2] == Text1(s); }
    if StartsAt(b, i, Text1(s)) { assert b[i..i + 2][0] == b[i] && b[i..i + 2][1] == b[i + 1]; }
  }

  lemma OneByte(b: Line, i: nat)
    ensures StartsAt(b, i, Text1("{")) <==> i < |b| && b[i] == LBRACE
  {
    if i < |b| && b[i] == LBRACE { assert b[i..i + 1] == Text1("{"); }
    if StartsAt(b, i, Text1("{")) { assert b[i..i + 1][0] == b[i]; }
  }

  /** Where code starts in a string, and which bytes hide the next. */
  lemma StepReads(lg: Lang, q: byte, fstr: bool, b: Line, i: nat)
    requires i < |b|
    ensures var s := StringStep(lg, q, fstr, b, i);
      && (forall len: nat :: CodeOpensAt(lg, q, fstr, b, i, len) ==> s == Open(len, OpenOf(lg), CloserOf(lg)))
      && (HidesNext(lg, q, fstr, b, i) ==> s == Skip(2))
      && ((forall len: nat :: !CodeOpensAt(lg, q, fstr, b, i, len)) && !HidesNext(lg, q, fstr, b, i) ==> s == Plain)
  {
    TwoBytes(b, i, "\\(");
    TwoBytes(b, i, "{{");
    TwoBytes(b, i, "{$");
    TwoBytes(b, i, "${");
    TwoBytes(b, i, "#{");
    OneByte(b, i);
    assert CodeOpensAt(lg, q, fstr, b, i, 1) || CodeOpensAt(lg, q, fstr, b, i, 2)
        || !StringStep(lg, q, fstr, b, i).Open?;
  }

  /** Neither closed nor interrupted, a string body leads from `i` to `p`. */
  ghost predicate BodyPasses(lg: Lang, multi: bool, q: byte, fstr: bool, b: Line, i: nat, p: nat)
    decreases if p >= i then p - i else 0
  {
    i <= p <= |b| &&
    (i == p
     || if HidesNext(lg, q, fstr, b, i) then BodyPasses(lg, multi, q, fstr, b, i + 2, p)
        else (forall len: nat :: !CodeOpensAt(lg, q, fstr, b, i, len))
             && !(if multi && q != BACKTICK then TripleAt(b, i, q) else b[i] == q)
             && BodyPasses(lg, multi, q, fstr, b, i + 1, p))
  }

  lemma {:induction false} PassStep(lg: Lang, multi: bool, q: byte, fstr: bool, b: Line, i: nat, p: nat, step: Step)
    requires i < p && BodyPasses(lg, multi, q, fstr, b, i, p) && step == StringStep(lg, q, fstr, b, i)
    requires HidesNext(lg, q, fstr, b, i) ==> step == Skip(2)
    requires (forall len: nat :: !CodeOpensAt(lg, q, fstr, b, i, len)) && !HidesNext(lg, q, fstr, b, i)
        ==> step == Plain
    ensures !step.Open? && var next := if step.Skip? then i + step.len else i + 1;
      && i < next && BodyPasses(lg, multi, q, fstr, b, next, p)
      && ScanString(lg, multi, q, fstr, b, i) == ScanString(lg, multi, q, fstr, b, next)
  {}

  lemma {:induction false} ScanPasses(lg: Lang, multi: bool, q: byte, fstr: bool, b: Line, i: nat, p: nat)
    requires BodyPasses(lg, multi, q, fstr, b, i, p)
    ensures ScanString(lg, multi, q, fstr, b, i) == ScanString(lg, multi, q, fstr, b, p)
    decreases if p >= i then p - i else 0
  {
    if i != p {
      var step := StringStep(lg, q, fstr, b, i);
      StepReads(lg, q, fstr, b, i);
      PassStep(lg, multi, q, fstr, b, i, p, step);
      ScanPasses(lg, multi, q, fstr, b, if step.Skip? then i + step.len else i + 1, p);
    }
  }

  /** An interpolation is code; its frame remembers the string around it. */
  lemma InterpolationOpens(
    lg: Lang, lex: Lexer, multi: bool, q: byte, b: Line, i: nat, p: nat, len: nat, labels: seq<Paint>)
    requires LexOk(lg, lex) && lex.state == StringState(multi, q) && |labels| == |b| && i < |b| && p < |b|
    requires BodyPasses(lg, multi, q, lex.fstr, b, i, p) && CodeOpensAt(lg, q, lex.fstr, b, p, len)
    ensures var around := Frame(0, OpenOf(lg), CloserOf(lg), lex.state, lex.fstr);
      Next(lg, b, At(lex, i, labels),
        At(Lexer(Code, lex.frames + [around], false, lex.pending), p + len, Fill(labels, i, p + len, StringByte)))
  {
    StepReads(lg, q, lex.fstr, b, p);
    ScanPasses(lg, multi, q, lex.fstr, b, i, p);
    assert ScanString(lg, multi, q, lex.fstr, b, p) == Scan(p, 0, Opened(len, OpenOf(lg), CloserOf(lg)));
  }

  /** Quiet code with balanced delimiters. */
  ghost predicate Bracketed(b: Line, open: byte, close: byte, i: nat, j: nat)
    decreases if j >= i then j - i else 0
  {
    i <= j <= |b| &&
    (i == j
     || (b[i] != open && b[i] != close && Quiet(b[i]) && Bracketed(b, open, close, i + 1, j))
     || (b[i] == open && exists m: nat ::
           i < m < j && Bracketed(b, open, close, i + 1, m) && b[m] == close && Bracketed(b, open, close, m + 1, j)))
  }

  function WithDepth(lex: Lexer, depth: nat): Lexer
    requires lex.frames != []
  {
    var n := |lex.frames| - 1;
    lex.(frames := lex.frames[n := lex.frames[n].(depth := depth)])
  }

  predicate InFrame(lg: Lang, lex: Lexer, open: byte, close: byte, depth: nat) {
    LexOk(lg, lex) && lex.state.Code? && lex.frames != [] &&
    var top := lex.frames[|lex.frames| - 1];
    top.open == open && top.close == close && open != close && top.depth == depth
  }

  lemma FrameByte(lg: Lang, lex: Lexer, b: Line, i: nat, open: byte, close: byte, depth: nat, labels: seq<Paint>)
    requires InFrame(lg, lex, open, close, depth) && i < |b| && |labels| == |b|
    ensures b[i] == open ==> Next(lg, b, At(lex, i, labels), At(WithDepth(lex, depth + 1), i + 1, labels))
    ensures b[i] == close && depth > 0 ==>
      Next(lg, b, At(lex, i, labels), At(WithDepth(lex, depth - 1), i + 1, labels))
    ensures b[i] != open && b[i] != close && Quiet(b[i]) && !lg.Rust? ==>
      Next(lg, b, At(lex, i, labels), At(lex, i + 1, labels))
  {}

  lemma FrameDeeper(
    lg: Lang, b: Line, run: At -> Lexed, lex: Lexer, open: byte, close: byte, depth: nat, i: nat, m: nat,
    labels: seq<Paint>)
    requires Stepwise(lg, b, run) && InFrame(lg, lex, open, close, depth) && |labels| == |b|
    requires i < |b| && b[i] == open && m < |b| && b[m] == close
    ensures var inner := WithDepth(lex, depth + 1);
      && InFrame(lg, inner, open, close, depth + 1)
      && run(At(lex, i, labels)) == run(At(inner, i + 1, labels))
      && run(At(inner, m, labels)) == run(At(lex, m + 1, labels))
  {
    var inner := WithDepth(lex, depth + 1);
    FrameByte(lg, lex, b, i, open, close, depth, labels);
    FrameByte(lg, inner, b, m, open, close, depth + 1, labels);
    assert WithDepth(inner, depth) == lex;
  }

  /** Balanced code inside an interpolation leaves it open. */
  lemma {:induction false} BracketedPasses(
    lg: Lang, b: Line, run: At -> Lexed, lex: Lexer, open: byte, close: byte, depth: nat, i: nat, j: nat,
    labels: seq<Paint>)
    requires Stepwise(lg, b, run) && InFrame(lg, lex, open, close, depth) && !lg.Rust? && |labels| == |b|
    requires Bracketed(b, open, close, i, j)
    ensures run(At(lex, i, labels)) == run(At(lex, j, labels))
    decreases j - i
  {
    if i < j {
      if b[i] == open {
        var m: nat :|
          i < m < j && Bracketed(b, open, close, i + 1, m) && b[m] == close && Bracketed(b, open, close, m + 1, j);
        FrameDeeper(lg, b, run, lex, open, close, depth, i, m, labels);
        BracketedPasses(lg, b, run, WithDepth(lex, depth + 1), open, close, depth + 1, i + 1, m, labels);
        BracketedPasses(lg, b, run, lex, open, close, depth, m + 1, j, labels);
      } else {
        FrameByte(lg, lex, b, i, open, close, depth, labels);
        BracketedPasses(lg, b, run, lex, open, close, depth, i + 1, j, labels);
      }
    }
  }

  /** The delimiter that balances the opening one ends the interpolation, and
      the string around it goes on. */
  lemma InterpolationCloses(
    lg: Lang, b: Line, run: At -> Lexed, lex: Lexer, open: byte, close: byte, i: nat, e: nat, labels: seq<Paint>)
    requires Stepwise(lg, b, run) && InFrame(lg, lex, open, close, 0) && !lg.Rust? && |labels| == |b|
    requires Bracketed(b, open, close, i, e) && e < |b| && b[e] == close
    ensures var n := |lex.frames| - 1;
      var outer := lex.(state := lex.frames[n].resume, frames := lex.frames[..n], fstr := lex.frames[n].fstr);
      run(At(lex, i, labels)) == run(At(outer, e + 1, labels))
  {
    var n := |lex.frames| - 1;
    var outer := lex.(state := lex.frames[n].resume, frames := lex.frames[..n], fstr := lex.frames[n].fstr);
    BracketedPasses(lg, b, run, lex, open, close, 0, i, e, labels);
    assert NextToken(lg, lex, b, e) == Moved(outer, e + 1);
    assert Next(lg, b, At(lex, e, labels), At(outer, e + 1, labels));
  }
}
