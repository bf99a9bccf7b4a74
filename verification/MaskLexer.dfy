/** The lexer proper: one token at a time, one line at a time. */
module MaskLexer {
  import opened Types
  import opened MaskLang

  /** A block comment that is open is at least one deep. */
  type pos = n: nat | n >= 1 witness 1

  /** `Str` is a single-line string, `Multi` one that may span lines; `Raw` is
      closed by an exact terminator; `Percent` is a Ruby `%` literal. */
  datatype State =
    | Code
    | Block(depth: pos)
    | Multi(q: byte)
    | CsStr(quotes: nat, dollars: nat)
    | Str(q: byte)
    | Raw(term: Line, comment: bool)
    | LineBlock
    | Percent(open: byte, close: byte, level: nat, interp: bool)
    | Heredocs(queue: seq<Heredoc>)

  /** Code inside a string: `depth` delimiters are open in it, and at its end
      the lexer is back in `resume`. */
  datatype Frame = Frame(depth: nat, open: byte, close: byte, resume: State, fstr: bool)

  /** `fstr`: the current string is an f-string; `pending`: heredocs opened on
      this line. */
  datatype Lexer = Lexer(state: State, frames: seq<Frame>, fstr: bool, pending: seq<Heredoc>)

  /** What a byte is, before any choice of mode. */
  datatype Paint = CodeByte | CommentByte | StringByte

  /** One lexer step: the state after it, where it stopped, what it painted. */
  datatype Token = Token(lex: Lexer, next: nat, paint: Paint, from: nat, to: nat)

  function Moved(lex: Lexer, next: nat): Token { Token(lex, next, CodeByte, 0, 0) }

  function Comment(lex: Lexer, next: nat, from: nat, to: nat): Token { Token(lex, next, CommentByte, from, to) }

  function Literal(lex: Lexer, next: nat, from: nat, to: nat): Token { Token(lex, next, StringByte, from, to) }

  // ---------------------------------------------------------------- scanning

  datatype Ending = RanOut | Closed | Opened(len: nat, open: byte, close: byte)

  /** Where a scan of a literal or comment stopped, and why. */
  datatype Scan = Scan(at: nat, depth: nat, ending: Ending)

  predicate ScanOk(b: Line, i: nat, s: Scan) {
    i <= s.at && (s.ending.RanOut? ==> s.at >= |b|) && (s.ending.Closed? ==> s.at > i)
    && (s.ending.Opened? ==> s.ending.len >= 1)
  }

  function ScanPercent(b: Line, i: nat, p: State, depth: nat): (s: Scan)
    requires p.Percent?
    ensures ScanOk(b, i, s)
    decreases |b| - i
  {
    if i >= |b| then Scan(i, depth, RanOut)
    else if b[i] == BACKSLASH then ScanPercent(b, i + 2, p, depth)
    else if p.interp && b[i] == HASH && Get(b, i + 1) == LBRACE then Scan(i, depth, Opened(2, LBRACE, RBRACE))
    else if p.open != p.close && b[i] == p.open then ScanPercent(b, i + 1, p, depth + 1)
    else if b[i] == p.close then
      if depth == 0 then Scan(i + 1, 0, Closed) else ScanPercent(b, i + 1, p, depth - 1)
    else ScanPercent(b, i + 1, p, depth)
  }

  function ScanBlock(b: Line, i: nat, depth: pos, nested: bool): (s: Scan)
    ensures ScanOk(b, i, s) && !s.ending.Opened? && (s.ending.RanOut? ==> s.depth >= 1)
    decreases |b| - i
  {
    if i >= |b| then Scan(i, depth, RanOut)
    else if b[i] == STAR && Get(b, i + 1) == SLASH then
      if depth == 1 then Scan(i + 2, 0, Closed) else ScanBlock(b, i + 2, depth - 1, nested)
    else if nested && b[i] == SLASH && Get(b, i + 1) == STAR then ScanBlock(b, i + 2, depth + 1, nested)
    else ScanBlock(b, i + 1, depth, nested)
  }

  function RunLength(b: Line, i: nat, c: byte): (n: nat)
    requires i < |b| && b[i] == c
    ensures 1 <= n <= |b| - i
  { RunOn(b, i, x => x == c) - i }

  /** One turn of the scan of a C# raw or verbatim string. */
  datatype CsStep = Pass(at: nat) | Stop(scan: Scan)

  function StepCs(b: Line, i: nat, quotes: nat, dollars: nat): (s: CsStep)
    requires i < |b|
    ensures if s.Pass? then s.at > i else ScanOk(b, i, s.scan)
  {
    if b[i] == DQ then
      var r := RunLength(b, i, DQ);
      if quotes == 0 then (if r >= 2 then Pass(i + 2) else Stop(Scan(i + 1, 0, Closed)))
      else if r >= quotes then Stop(Scan(i + r, 0, Closed))
      else Pass(i + r)
    else if dollars > 0 && b[i] == LBRACE then
      var r := RunLength(b, i, LBRACE);
      if quotes == 0 && r >= 2 then Pass(i + 2)
      else if r >= dollars then Stop(Scan(i + (r - dollars), 0, Opened(dollars, LBRACE, RBRACE)))
      else Pass(i + r)
    else Pass(i + 1)
  }

  function ScanCs(b: Line, i: nat, quotes: nat, dollars: nat): (s: Scan)
    ensures ScanOk(b, i, s)
    decreases |b| - i
  {
    if i >= |b| then Scan(i, 0, RanOut) else
    match StepCs(b, i, quotes, dollars)
    case Pass(at) => ScanCs(b, at, quotes, dollars)
    case Stop(scan) => scan
  }

  /** Length of the closing quote of this string at `i`, 0 if there is none. */
  function CloserLen(multi: bool, q: byte, b: Line, i: nat): nat
    requires i < |b|
  {
    if b[i] != q then 0
    else if !multi || q == BACKTICK then 1
    else if i + 2 < |b| && b[i + 1] == q && b[i + 2] == q then 3
    else 0
  }

  function ScanString(lg: Lang, multi: bool, q: byte, fstr: bool, b: Line, i: nat): (s: Scan)
    ensures ScanOk(b, i, s) && (lg.Rust? ==> !s.ending.Opened?)
    decreases |b| - i
  {
    if i >= |b| then Scan(i, 0, RanOut) else
    match StringStep(lg, q, fstr, b, i)
    case Skip(k) => ScanString(lg, multi, q, fstr, b, i + k)
    case Open(len, o, c) => Scan(i, 0, Opened(len, o, c))
    case Plain =>
      var n := CloserLen(multi, q, b, i);
      if n > 0 then Scan(i + n, 0, Closed) else ScanString(lg, multi, q, fstr, b, i + 1)
  }

  // --------------------------------------------------------- literal tokens

  /** The lexer after a scan of a string that resumes as `resume`. */
  function AfterString(lex: Lexer, i: nat, s: Scan, resume: State, keepsFstr: bool): Token {
    match s.ending
    case Opened(len, open, close) =>
      Literal(Lexer(Code, lex.frames + [Frame(0, open, close, resume, if keepsFstr then lex.fstr else false)],
                    if resume.Percent? then lex.fstr else false, lex.pending),
              s.at + len, i, s.at + len)
    case Closed => Literal(lex.(state := Code), s.at, i, s.at)
    case RanOut => Literal(lex.(state := resume), s.at, i, s.at)
  }

  function PercentToken(lex: Lexer, b: Line, i: nat): Token
    requires lex.state.Percent?
  {
    var s := ScanPercent(b, i, lex.state, lex.state.level);
    AfterString(lex, i, s, lex.state.(level := s.depth), false)
  }

  function BlockToken(lg: Lang, lex: Lexer, b: Line, i: nat): Token
    requires lex.state.Block?
  {
    var s := ScanBlock(b, i, lex.state.depth, Nested(lg));
    Comment(lex.(state := if s.ending.Closed? then Code else Block(s.depth)), s.at, i, s.at)
  }

  function RawToken(lex: Lexer, b: Line, i: nat): Token
    requires lex.state.Raw?
  {
    var found := Find(b, i, lex.state.term);
    var next := match found case None => |b| case Some(p) => p + |lex.state.term|;
    Token(if found.Some? then lex.(state := Code) else lex, next,
          if lex.state.comment then CommentByte else StringByte, i, next)
  }

  function StringToken(lg: Lang, lex: Lexer, b: Line, i: nat): Token
    requires lex.state.CsStr? || lex.state.Str? || lex.state.Multi?
  {
    match lex.state
    case CsStr(quotes, dollars) => AfterString(lex, i, ScanCs(b, i, quotes, dollars), lex.state, false)
    case Str(q) => AfterString(lex, i, ScanString(lg, false, q, lex.fstr, b, i), lex.state, true)
    case Multi(q) => AfterString(lex, i, ScanString(lg, true, q, lex.fstr, b, i), lex.state, true)
  }

  // ------------------------------------------------------------- code tokens

  /** Inside an interpolation its own delimiters count. */
  function FrameToken(lex: Lexer, b: Line, i: nat): Option<Token>
    requires i < |b|
  {
    if lex.frames == [] then None else
    var n := |lex.frames| - 1;
    var top := lex.frames[n];
    if b[i] == top.open then Some(Moved(lex.(frames := lex.frames[n := top.(depth := top.depth + 1)]), i + 1))
    else if b[i] != top.close then None
    else if top.depth == 0 then
      Some(Moved(lex.(state := top.resume, frames := lex.frames[..n], fstr := top.fstr), i + 1))
    else Some(Moved(lex.(frames := lex.frames[n := top.(depth := top.depth - 1)]), i + 1))
  }

  const HTML_OPEN: Line := [LT, BANG, MINUS, MINUS]
  const HTML_CLOSE: Line := [MINUS, MINUS, GT]

  predicate HashComments(lg: Lang, b: Line, i: nat)
    requires i < |b|
  {
    match lg
    case Php => Get(b, i + 1) != LBRACKET
    case Shell => i == 0 || b[i - 1] in [SPACE, TAB, SEMI, PIPE, AMP, LPAREN, BACKTICK]
    case Yaml => i == 0 || Blank(b[i - 1])
    case _ => true
  }

  // Line, block, HTML and hash comments.
  function CommentToken(lg: Lang, lex: Lexer, b: Line, i: nat): Option<Token>
    requires i < |b|
  {
    var c, next := b[i], Get(b, i + 1);
    if SlashLine(lg) && c == SLASH && next == SLASH then Some(Comment(lex, |b|, i, |b|))
    else if BlockC(lg) && c == SLASH && next == STAR then Some(Comment(lex.(state := Block(1)), i + 2, i, i + 2))
    else if lg.Vue? && StartsAt(b, i, HTML_OPEN) then
      Some(Comment(lex.(state := Raw(HTML_CLOSE, true)), i + 4, i, i + 4))
    else if HashLine(lg) && c == HASH then
      Some(if HashComments(lg, b, i) then Comment(lex, |b|, i, |b|) else Moved(lex, i + 1))
    else None
  }

  /** Ruby `%` literals and heredoc openers. */
  function RubyPhpToken(lg: Lang, lex: Lexer, b: Line, i: nat): Option<Token>
    requires i < |b|
  {
    if lg.Ruby? && b[i] == PERCENT && RubyPercentOpen(b, i).Some? then
      var p := RubyPercentOpen(b, i).value;
      Some(Literal(lex.(state := Percent(p.open, p.close, 0, p.interp)), i + p.len, i, i + p.len))
    else if b[i] == LT && Get(b, i + 1) == LT && HeredocOpen(lg, b, i).Some? then
      var (len, h) := HeredocOpen(lg, b, i).value;
      Some(Literal(lex.(pending := lex.pending + [h]), i + len, i, i + len))
    else None
  }

  /** `'` of Visual Basic, `--` of Lua and SQL, Lua long brackets. */
  function DashToken(lg: Lang, lex: Lexer, b: Line, i: nat): Option<Token>
    requires i < |b|
  {
    if lg.Vb? && b[i] == SQ then Some(Comment(lex, |b|, i, |b|))
    else if (lg.Lua? || lg.Sql?) && b[i] == MINUS && Get(b, i + 1) == MINUS then
      if lg.Lua? && LuaLongOpen(b, i + 2).Some? then
        var o := LuaLongOpen(b, i + 2).value;
        Some(Comment(lex.(state := Raw(LuaTerm(o.level), true)), i + 2 + o.len, i, i + 2 + o.len))
      else Some(Comment(lex, |b|, i, |b|))
    else if lg.Lua? && b[i] == LBRACKET && LuaLongOpen(b, i).Some? then
      var o := LuaLongOpen(b, i).value;
      Some(Literal(lex.(state := Raw(LuaTerm(o.level), false)), i + o.len, i, i + o.len))
    else None
  }

  /** Raw and verbatim string openers of Rust, C++ and C#. */
  function RawOpenToken(lg: Lang, lex: Lexer, b: Line, i: nat): Option<Token>
    requires i < |b|
  {
    var c := b[i];
    if lg.Rust? && (c == 0x72 || c == 0x62 || c == 0x63) && !(i > 0 && IsIdent(b[i - 1]))
        && RustRawOpen(b, i).Some? then
      var o := RustRawOpen(b, i).value;
      Some(Literal(lex.(state := Raw([DQ] + seq(o.hashes, _ => HASH), false)), i + o.len, i, i + o.len))
    else if lg.C? && c == DQ && i > 0 && b[i - 1] == 0x52 && CppRawOpen(b, i).Some? then
      var o := CppRawOpen(b, i).value;
      Some(Literal(lex.(state := Raw(o.term, false)), i + o.len, i, i + o.len))
    else if lg.CSharp? && c == DQ && CsStringOpen(b, i).Some? then
      var o := CsStringOpen(b, i).value;
      Some(Literal(lex.(state := CsStr(o.quotes, o.dollars)), i + o.len, i, i + o.len))
    else None
  }

  predicate YamlPlain(b: Line, i: nat)
    requires i < |b|
  {
    !(i == 0 || b[i - 1] in [SPACE, TAB, LBRACKET, LBRACE, COMMA, COLON, MINUS, QUESTION])
  }

  /** Quotes, characters and regex literals; anything else is one code byte. */
  function QuoteToken(lg: Lang, lex: Lexer, b: Line, i: nat): Token
    requires i < |b|
  {
    var c := b[i];
    if (c == DQ || c == SQ) && Triple(lg, c) && Get(b, i + 1) == c && Get(b, i + 2) == c then
      Literal(lex.(state := Multi(c), fstr := InterpPrefix(lg, b, i)), i + 3, i, i + 3)
    else if c == BACKTICK && BacktickMulti(lg) then
      Literal(lex.(state := Multi(BACKTICK), fstr := false), i + 1, i, i + 1)
    else if lg.Shell? && c == BACKSLASH then Moved(lex, i + 2)
    else if lg.Rust? && c == SQ then
      (match RustCharLen(b, i)
       case Some(len) => Literal(lex, i + len, i, i + len)
       case None => Moved(lex, i + 1))
    else if lg.C? && c == SQ && NumberBefore(b, i) then Moved(lex, i + 1)
    else if c == SLASH && ((lg.Js? && RegexAllowed(b, i)) || (lg.Ruby? && RubyRegexAllowed(b, i))) then
      (match RegexEnd(b, i)
       case Some(end) => Literal(lex, end, i, end)
       case None => Moved(lex, i + 1))
    else if lg.Yaml? && (c == DQ || c == SQ) && YamlPlain(b, i) then Moved(lex, i + 1)
    else if c == DQ || c == SQ || c == BACKTICK then
      Literal(lex.(state := Str(c), fstr := InterpPrefix(lg, b, i)), i + 1, i, i + 1)
    else Moved(lex, i + 1)
  }

  function OrElse(a: Option<Token>, b: Token): Token { match a case Some(t) => t case None => b }

  function CodeToken(lg: Lang, lex: Lexer, b: Line, i: nat): Token
    requires i < |b|
  {
    OrElse(FrameToken(lex, b, i),
      OrElse(CommentToken(lg, lex, b, i),
        OrElse(RubyPhpToken(lg, lex, b, i),
          OrElse(DashToken(lg, lex, b, i),
            OrElse(RawOpenToken(lg, lex, b, i), QuoteToken(lg, lex, b, i))))))
  }

  function NextToken(lg: Lang, lex: Lexer, b: Line, i: nat): Token
    requires i < |b|
  {
    match lex.state
    case Code => CodeToken(lg, lex, b, i)
    case Block(_) => BlockToken(lg, lex, b, i)
    case Raw(_, _) => RawToken(lex, b, i)
    case Percent(_, _, _, _) => PercentToken(lex, b, i)
    case LineBlock => Moved(lex, |b|)
    case Heredocs(_) => Moved(lex, |b|)
    case _ => StringToken(lg, lex, b, i)
  }

  // ------------------------------------------------------- facts on tokens

  predicate Interpolates(s: State) { s.Percent? || s.CsStr? || s.Str? || s.Multi? }

  /** Strings are what interpolations resume; Rust has none, and only Ruby and
      PHP open heredocs. */
  predicate LexOk(lg: Lang, lex: Lexer) {
    (forall k :: 0 <= k < |lex.frames| ==> Interpolates(lex.frames[k].resume))
    && (lg.Rust? ==> lex.frames == [] && !lex.state.Percent? && !lex.state.CsStr?)
    && (lex.pending != [] ==> lg.Ruby? || lg.Php?)
    && (lex.state.Heredocs? ==> lex.state.queue != [])
  }

  /** A step ends further on, paints only from where it began, and nothing past
      where it ended on the line. */
  predicate Advances(b: Line, i: nat, t: Token) {
    t.next > i && (t.paint.CodeByte? || (t.from == i && (t.to <= t.next || t.next >= |b|)))
  }

  /** What every step keeps. */
  predicate Good(lg: Lang, b: Line, i: nat, t: Token) { Advances(b, i, t) && LexOk(lg, t.lex) }

  predicate GoodIfAny(lg: Lang, b: Line, i: nat, o: Option<Token>) { o.Some? ==> Good(lg, b, i, o.value) }

  lemma FrameGood(lg: Lang, lex: Lexer, b: Line, i: nat)
    requires i < |b| && LexOk(lg, lex) && lex.state.Code?
    ensures GoodIfAny(lg, b, i, FrameToken(lex, b, i))
  {}

  lemma CommentGood(lg: Lang, lex: Lexer, b: Line, i: nat)
    requires i < |b| && LexOk(lg, lex) && lex.state.Code?
    ensures GoodIfAny(lg, b, i, CommentToken(lg, lex, b, i))
  {}

  lemma RubyPhpGood(lg: Lang, lex: Lexer, b: Line, i: nat)
    requires i < |b| && LexOk(lg, lex) && lex.state.Code?
    ensures GoodIfAny(lg, b, i, RubyPhpToken(lg, lex, b, i))
  {}

  lemma DashGood(lg: Lang, lex: Lexer, b: Line, i: nat)
    requires i < |b| && LexOk(lg, lex) && lex.state.Code?
    ensures GoodIfAny(lg, b, i, DashToken(lg, lex, b, i))
  {}

  lemma RawOpenGood(lg: Lang, lex: Lexer, b: Line, i: nat)
    requires i < |b| && LexOk(lg, lex) && lex.state.Code?
    ensures GoodIfAny(lg, b, i, RawOpenToken(lg, lex, b, i))
  {}

  lemma QuoteGood(lg: Lang, lex: Lexer, b: Line, i: nat)
    requires i < |b| && LexOk(lg, lex) && lex.state.Code?
    ensures Good(lg, b, i, QuoteToken(lg, lex, b, i))
  {}

  lemma OrElseGood(lg: Lang, b: Line, i: nat, o: Option<Token>, t: Token)
    requires GoodIfAny(lg, b, i, o) && Good(lg, b, i, t)
    ensures Good(lg, b, i, OrElse(o, t))
  {}

  lemma CodeGood(lg: Lang, lex: Lexer, b: Line, i: nat)
    requires i < |b| && LexOk(lg, lex) && lex.state.Code?
    ensures Good(lg, b, i, CodeToken(lg, lex, b, i))
  {
    var frame, comment, opener := FrameToken(lex, b, i), CommentToken(lg, lex, b, i), RubyPhpToken(lg, lex, b, i);
    var dash, raw, quote := DashToken(lg, lex, b, i), RawOpenToken(lg, lex, b, i), QuoteToken(lg, lex, b, i);
    FrameGood(lg, lex, b, i);
    CommentGood(lg, lex, b, i);
    RubyPhpGood(lg, lex, b, i);
    DashGood(lg, lex, b, i);
    RawOpenGood(lg, lex, b, i);
    QuoteGood(lg, lex, b, i);
    OrElseGood(lg, b, i, raw, quote);
    OrElseGood(lg, b, i, dash, OrElse(raw, quote));
    OrElseGood(lg, b, i, opener, OrElse(dash, OrElse(raw, quote)));
    OrElseGood(lg, b, i, comment, OrElse(opener, OrElse(dash, OrElse(raw, quote))));
    OrElseGood(lg, b, i, frame, OrElse(comment, OrElse(opener, OrElse(dash, OrElse(raw, quote)))));
  }

  lemma AfterStringGood(lg: Lang, lex: Lexer, b: Line, i: nat, s: Scan, resume: State, keepsFstr: bool)
    requires i < |b| && LexOk(lg, lex) && ScanOk(b, i, s) && Interpolates(resume)
    requires lg.Rust? ==> !s.ending.Opened? && !resume.Percent? && !resume.CsStr?
    ensures Good(lg, b, i, AfterString(lex, i, s, resume, keepsFstr))
  {}

  lemma LiteralGood(lg: Lang, lex: Lexer, b: Line, i: nat)
    requires i < |b| && LexOk(lg, lex) && Interpolates(lex.state)
    ensures Good(lg, b, i, NextToken(lg, lex, b, i))
  {
    match lex.state
    case Percent(_, _, level, _) =>
      var s := ScanPercent(b, i, lex.state, level);
      AfterStringGood(lg, lex, b, i, s, lex.state.(level := s.depth), false);
    case CsStr(quotes, dollars) => AfterStringGood(lg, lex, b, i, ScanCs(b, i, quotes, dollars), lex.state, false);
    case Str(q) => AfterStringGood(lg, lex, b, i, ScanString(lg, false, q, lex.fstr, b, i), lex.state, true);
    case Multi(q) => AfterStringGood(lg, lex, b, i, ScanString(lg, true, q, lex.fstr, b, i), lex.state, true);
  }

  lemma RawGood(lg: Lang, lex: Lexer, b: Line, i: nat)
    requires i < |b| && LexOk(lg, lex) && lex.state.Raw?
    ensures Good(lg, b, i, RawToken(lex, b, i))
  {}

  lemma BlockGood(lg: Lang, lex: Lexer, b: Line, i: nat)
    requires i < |b| && LexOk(lg, lex) && lex.state.Block?
    ensures Good(lg, b, i, BlockToken(lg, lex, b, i))
  {}

  /** Every step advances, paints ahead and keeps the lexer well formed. */
  lemma TokenGood(lg: Lang, lex: Lexer, b: Line, i: nat)
    requires i < |b| && LexOk(lg, lex)
    ensures Good(lg, b, i, NextToken(lg, lex, b, i))
  {
    match lex.state
    case Code => CodeGood(lg, lex, b, i);
    case Block(_) => BlockGood(lg, lex, b, i);
    case Raw(_, _) => RawGood(lg, lex, b, i);
    case LineBlock =>
    case Heredocs(_) =>
    case _ => LiteralGood(lg, lex, b, i);
  }
}
