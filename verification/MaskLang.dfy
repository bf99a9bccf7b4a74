/** Language predicates and token recognisers of the comment/string lexer.
    Lines are byte strings. */
module MaskLang {
  import opened Types

  datatype Lang =
    | C | Go | Rust | Java | Js | Dart | Kotlin | Swift | CSharp | Scala | Php | Vue
    | Python | Ruby | Shell | Yaml | Toml | Lua | Sql | Vb

  type Line = seq<byte>

  const TAB: byte := 0x09
  const SPACE: byte := 0x20
  const BANG: byte := 0x21
  const DQ: byte := 0x22
  const HASH: byte := 0x23
  const DOLLAR: byte := 0x24
  const PERCENT: byte := 0x25
  const AMP: byte := 0x26
  const SQ: byte := 0x27
  const LPAREN: byte := 0x28
  const RPAREN: byte := 0x29
  const STAR: byte := 0x2A
  const PLUS: byte := 0x2B
  const COMMA: byte := 0x2C
  const MINUS: byte := 0x2D
  const SLASH: byte := 0x2F
  const COLON: byte := 0x3A
  const SEMI: byte := 0x3B
  const LT: byte := 0x3C
  const EQUALS: byte := 0x3D
  const GT: byte := 0x3E
  const QUESTION: byte := 0x3F
  const AT: byte := 0x40
  const LBRACKET: byte := 0x5B
  const BACKSLASH: byte := 0x5C
  const RBRACKET: byte := 0x5D
  const CARET: byte := 0x5E
  const UNDERSCORE: byte := 0x5F
  const BACKTICK: byte := 0x60
  const LBRACE: byte := 0x7B
  const PIPE: byte := 0x7C
  const RBRACE: byte := 0x7D
  const TILDE: byte := 0x7E

  predicate SlashLine(lg: Lang) {
    lg.C? || lg.Go? || lg.Rust? || lg.Java? || lg.Js? || lg.Dart? || lg.Kotlin? || lg.Swift? || lg.CSharp?
    || lg.Scala? || lg.Php? || lg.Vue?
  }

  predicate BlockC(lg: Lang) { SlashLine(lg) || lg.Sql? }

  predicate Nested(lg: Lang) { lg.Rust? || lg.Dart? || lg.Kotlin? || lg.Swift? || lg.Scala? }

  predicate HashLine(lg: Lang) { lg.Php? || lg.Python? || lg.Ruby? || lg.Shell? || lg.Yaml? || lg.Toml? }

  predicate Triple(lg: Lang, q: byte) {
    if lg.Python? || lg.Dart? || lg.Toml? then q == DQ || q == SQ
    else (lg.Java? || lg.Kotlin? || lg.Swift? || lg.CSharp? || lg.Scala?) && q == DQ
  }

  predicate BacktickMulti(lg: Lang) { lg.Go? || lg.Js? }

  /** A backslash hides the byte after it in strings closed by `q`. */
  predicate Escapes(lg: Lang, q: byte) {
    if lg.Sql? || lg.Vb? then false
    else if lg.Shell? then q != SQ
    else if lg.Go? then q != BACKTICK
    else true
  }

  // ------------------------------------------------------------------ bytes

  /** The byte at `i`, 0 past the end. */
  function Get(b: Line, i: nat): byte { if i < |b| then b[i] else 0 }

  predicate IsDigit(c: byte) { 0x30 <= c <= 0x39 }

  predicate IsUpper(c: byte) { 0x41 <= c <= 0x5A }

  predicate IsAlpha(c: byte) { IsUpper(c) || 0x61 <= c <= 0x7A }

  predicate IsIdent(c: byte) { IsAlpha(c) || IsDigit(c) || c == UNDERSCORE }

  predicate IsPunctuation(c: byte) { 0x21 <= c <= 0x7E && !IsAlpha(c) && !IsDigit(c) }

  predicate IsWhite(c: byte) { c == SPACE || c == TAB || c == 0x0A || c == 0x0C || c == 0x0D }

  predicate Blank(c: byte) { c == SPACE || c == TAB }

  predicate AllWhite(b: Line) { forall k :: 0 <= k < |b| ==> IsWhite(b[k]) }

  /** Start of the run of bytes in `ok` that ends before `i`. */
  function RunBack(b: Line, i: nat, ok: byte -> bool): (s: nat)
    requires i <= |b|
    ensures s <= i && (forall k :: s <= k < i ==> ok(b[k])) && (s > 0 ==> !ok(b[s - 1]))
  {
    if i > 0 && ok(b[i - 1]) then RunBack(b, i - 1, ok) else i
  }

  /** End of the run of bytes in `ok` from `i` on. */
  function RunOn(b: Line, i: nat, ok: byte -> bool): (e: nat)
    requires i <= |b|
    ensures i <= e <= |b| && (forall k :: i <= k < e ==> ok(b[k])) && (e < |b| ==> !ok(b[e]))
    decreases |b| - i
  {
    if i < |b| && ok(b[i]) then RunOn(b, i + 1, ok) else i
  }

  /** Like `RunBack`, but at most `most` bytes. */
  function RunBackUpto(b: Line, i: nat, most: nat, ok: byte -> bool): (s: nat)
    requires i <= |b|
    ensures s <= i && i - s <= most
  {
    if most > 0 && i > 0 && ok(b[i - 1]) then RunBackUpto(b, i - 1, most - 1, ok) else i
  }

  function Text1(s: string): (t: Line)
    ensures |t| == |s|
  { seq(|s|, i requires 0 <= i < |s| => if s[i] < 128 as char then s[i] as int else 0) }

  predicate OneOf(word: Line, words: seq<string>) { exists w :: w in words && Text1(w) == word }

  predicate StartsAt(b: Line, i: nat, pat: Line) { i + |pat| <= |b| && b[i..i + |pat|] == pat }

  /** First occurrence of a non-empty pattern at or after `i`. */
  function Find(b: Line, i: nat, pat: Line): (r: Option<nat>)
    ensures r.Some? ==> pat != [] && i <= r.value && StartsAt(b, r.value, pat)
    ensures r.Some? ==> forall k: nat :: i <= k < r.value ==> !StartsAt(b, k, pat)
    ensures r.None? && pat != [] ==> forall k: nat :: i <= k ==> !StartsAt(b, k, pat)
    decreases |b| - i
  {
    if pat == [] || i + |pat| > |b| then None
    else if b[i..i + |pat|] == pat then Some(i)
    else Find(b, i + 1, pat)
  }

  // ----------------------------------------------------------- string bodies

  datatype Step = Skip(len: nat) | Open(len: nat, open: byte, close: byte) | Plain

  /** One step through a string body: pass over bytes, open code, or neither. */
  function StringStep(lg: Lang, q: byte, fstr: bool, b: Line, i: nat): (s: Step)
    requires i < |b|
    ensures !s.Plain? ==> s.len >= 1
    ensures lg.Rust? ==> !s.Open?
  {
    var next := Get(b, i + 1);
    var dollar := b[i] == DOLLAR && next == LBRACE;
    if lg.Swift? && b[i] == BACKSLASH && next == LPAREN then Open(2, LPAREN, RPAREN)
    else if b[i] == BACKSLASH && Escapes(lg, q) then Skip(2)
    else if fstr && (lg.Python? || lg.CSharp?) && b[i] == LBRACE then
      if next == LBRACE then Skip(2) else Open(1, LBRACE, RBRACE)
    else if lg.Php? && q == DQ && b[i] == LBRACE && next == DOLLAR then Open(1, LBRACE, RBRACE)
    else if (match lg
             case Php => q == DQ && dollar
             case Kotlin => q == DQ && dollar
             case Dart => dollar
             case Js => q == BACKTICK && dollar
             case Scala => q == DQ && fstr && dollar
             case Ruby => (q == DQ || q == BACKTICK) && b[i] == HASH && next == LBRACE
             case _ => false)
    then Open(2, LBRACE, RBRACE)
    else Plain
  }

  predicate PrefixByte(c: byte) { IsIdent(c) || c == DOLLAR || c == AT }

  /** Does the quote at `i` carry an interpolating prefix? */
  predicate InterpPrefix(lg: Lang, b: Line, i: nat)
    requires i <= |b|
  {
    var s := RunBackUpto(b, i, 3, PrefixByte);
    var p := b[s..i];
    !(s > 0 && IsIdent(b[s - 1])) &&
    match lg
    case Python => 0x66 in p || 0x46 in p
    case CSharp => DOLLAR in p
    case Scala => OneOf(p, ["s", "f", "raw"])
    case _ => false
  }

  // ----------------------------------------------------------------- openers

  function OperatorBytes(): seq<byte> {
    [EQUALS, LPAREN, COMMA, COLON, LBRACKET, BANG, AMP, PIPE, QUESTION, LBRACE, SEMI, PLUS, MINUS, STAR, PERCENT,
     LT, GT, TILDE, CARET]
  }

  predicate WordBefore(b: Line, j: nat, words: seq<string>)
    requires j <= |b|
  {
    OneOf(b[RunBack(b, j, IsIdent)..j], words)
  }

  predicate OperandExpected(b: Line, i: nat, extra: seq<byte>, words: seq<string>)
    requires i <= |b|
  {
    var j := RunBack(b, i, Blank);
    j == 0 || b[j - 1] in OperatorBytes() || b[j - 1] in extra || (IsIdent(b[j - 1]) && WordBefore(b, j, words))
  }

  /** After these bytes and words JavaScript expects an operand. */
  predicate RegexAllowed(b: Line, i: nat)
    requires i <= |b|
  {
    OperandExpected(b, i, [RBRACE],
      ["return", "typeof", "case", "in", "of", "delete", "void", "throw", "new", "else", "do", "yield", "await"])
  }

  predicate RubyRegexAllowed(b: Line, i: nat)
    requires i <= |b|
  {
    OperandExpected(b, i, [],
      ["if", "elsif", "unless", "while", "until", "when", "case", "and", "or", "not", "then", "else", "do", "return",
       "yield", "in"])
  }

  function RegexBody(b: Line, i: nat, j: nat, inClass: bool): (r: Option<nat>)
    requires i < j
    ensures r.Some? ==> i + 2 < r.value <= |b|
    decreases |b| - j
  {
    if j >= |b| then None
    else if b[j] == BACKSLASH then RegexBody(b, i, j + 2, inClass)
    else if b[j] == LBRACKET then RegexBody(b, i, j + 1, true)
    else if b[j] == RBRACKET then RegexBody(b, i, j + 1, false)
    else if b[j] == SLASH && !inClass then
      var e := RunOn(b, j + 1, IsAlpha);
      if e > i + 2 then Some(e) else None
    else RegexBody(b, i, j + 1, inClass)
  }

  /** End of a regex literal that starts at `i`, if closed on the line. */
  function RegexEnd(b: Line, i: nat): (r: Option<nat>)
    ensures r.Some? ==> i + 2 < r.value <= |b|
  { RegexBody(b, i, i + 1, false) }

  datatype PercentOpen = PercentOpen(len: nat, open: byte, close: byte, interp: bool)

  /** The letters `qQwWiIrsx`. */
  function PercentKinds(): seq<byte> { [0x71, 0x51, 0x77, 0x57, 0x69, 0x49, 0x72, 0x73, 0x78] }

  /** Of these, `qwis` do not interpolate. */
  function PlainKinds(): seq<byte> { [0x71, 0x77, 0x69, 0x73] }

  predicate HasKind(b: Line, i: nat) { i + 1 < |b| && b[i + 1] in PercentKinds() }

  /** A name and blanks before `i`, and a delimiter an operand rarely follows. */
  predicate CommandArgument(b: Line, i: nat, d: byte)
    requires i <= |b|
  {
    var k := RunBack(b, i, Blank);
    var w := RunBack(b, k, IsIdent);
    k < i && w < k && !IsDigit(b[w]) && d != EQUALS
    && (HasKind(b, i) || d in [LPAREN, LBRACKET, LBRACE, LT, PIPE, BANG])
  }

  predicate PercentDelimiter(d: byte) {
    IsPunctuation(d) && d != UNDERSCORE && d !in [RPAREN, RBRACKET, RBRACE, GT]
  }

  /** Ruby `%` literal at `i`, where an operand or a command argument may stand. */
  function RubyPercentOpen(b: Line, i: nat): (r: Option<PercentOpen>)
    requires i < |b|
    ensures r.Some? ==> r.value.len >= 1 && i + r.value.len <= |b|
  {
    var j := if HasKind(b, i) then i + 2 else i + 1;
    if j >= |b| || !PercentDelimiter(b[j]) || !(RubyRegexAllowed(b, i) || CommandArgument(b, i, b[j])) then None
    else Some(PercentOpen(j + 1 - i, b[j], CloseOf(b[j]), !(HasKind(b, i) && b[i + 1] in PlainKinds())))
  }

  function CloseOf(d: byte): byte {
    if d == LPAREN then RPAREN else if d == LBRACKET then RBRACKET
    else if d == LBRACE then RBRACE else if d == LT then GT else d
  }

  datatype Heredoc = Heredoc(term: Line, indent: bool, interp: bool, php: bool)

  datatype Ident = Ident(term: Line, interp: bool, end: nat)

  /** The terminator a heredoc opener names, with or without quotes. */
  function HeredocIdent(b: Line, j: nat): (r: Option<Ident>)
    ensures r.Some? ==> j < r.value.end <= |b| && r.value.term != []
  {
    var q := Get(b, j);
    var quoted := j < |b| && (q == SQ || q == DQ || q == BACKTICK);
    var s := if quoted then j + 1 else j;
    if s > |b| then None else
    var e := RunOn(b, s, IsIdent);
    if e == s || IsDigit(b[s]) then None
    else if quoted && Get(b, e) != q then None
    else Some(Ident(b[s..e], !(quoted && q == SQ), if quoted then e + 1 else e))
  }

  function RubyHeredocOpen(b: Line, i: nat): (r: Option<(nat, Heredoc)>)
    requires i < |b|
    ensures r.Some? ==> r.value.0 >= 1 && i + r.value.0 <= |b|
  {
    var flag := Get(b, i + 2) == TILDE || Get(b, i + 2) == MINUS;
    var j := if flag then i + 3 else i + 2;
    match HeredocIdent(b, j)
    case None => None
    case Some(id) =>
      var prev := if i > 0 then b[i - 1] else SPACE;
      if !flag && (!(IsUpper(id.term[0]) || b[j] != id.term[0]) || IsIdent(prev)) then None
      else Some((id.end - i, Heredoc(id.term, flag, id.interp, false)))
  }

  /** The PHP opener must end the line. */
  function PhpHeredocOpen(b: Line, i: nat): (r: Option<(nat, Heredoc)>)
    requires i < |b|
    ensures r.Some? ==> r.value.0 >= 1 && i + r.value.0 <= |b|
  {
    if i + 3 > |b| then None else
    match HeredocIdent(b, RunOn(b, i + 3, Blank))
    case None => None
    case Some(id) =>
      if !AllWhite(b[id.end..]) then None else Some((id.end - i, Heredoc(id.term, true, id.interp, true)))
  }

  function HeredocOpen(lg: Lang, b: Line, i: nat): (r: Option<(nat, Heredoc)>)
    requires i < |b|
    ensures r.Some? ==> r.value.0 >= 1 && i + r.value.0 <= |b| && (lg.Ruby? || lg.Php?)
  {
    if lg.Ruby? then RubyHeredocOpen(b, i)
    else if lg.Php? && Get(b, i + 2) == LT then PhpHeredocOpen(b, i)
    else None
  }

  /** End of the terminator, if the line closes the heredoc. */
  function HeredocClose(h: Heredoc, b: Line): (r: Option<nat>)
    ensures r.Some? ==> r.value <= |b|
  {
    var s := if h.indent then RunOn(b, 0, Blank) else 0;
    var e := s + |h.term|;
    if e > |b| || b[s..e] != h.term then None
    else if (if h.php then e == |b| || !IsIdent(b[e]) else AllWhite(b[e..])) then Some(e)
    else None
  }

  /** The brace that closes an interpolation, or the end of the line. */
  function MatchingBrace(b: Line, j: nat, d: nat): (e: nat)
    requires j <= |b|
    ensures j <= e <= |b|
    decreases |b| - j
  {
    if j == |b| then j
    else if b[j] == LBRACE then MatchingBrace(b, j + 1, d + 1)
    else if b[j] == RBRACE then (if d == 0 then j else MatchingBrace(b, j + 1, d - 1))
    else MatchingBrace(b, j + 1, d)
  }

  predicate InterpOpens(b: Line, i: nat, php: bool)
    requires i + 1 < |b|
  {
    if php then (b[i] == LBRACE && b[i + 1] == DOLLAR) || (b[i] == DOLLAR && b[i + 1] == LBRACE)
    else b[i] == HASH && b[i + 1] == LBRACE
  }

  /** Code ranges inside one heredoc body line, in order. */
  function HeredocInterp(b: Line, php: bool, i: nat): (r: seq<(nat, nat)>)
    ensures forall k :: 0 <= k < |r| ==> i <= r[k].0 <= r[k].1 <= |b|
    ensures forall k :: 0 < k < |r| ==> r[k - 1].1 < r[k].0
    decreases |b| - i
  {
    if i + 1 >= |b| then []
    else if b[i] == BACKSLASH then HeredocInterp(b, php, i + 2)
    else if !InterpOpens(b, i, php) then HeredocInterp(b, php, i + 1)
    else
      var s := if php && b[i] == LBRACE then i + 1 else i + 2;
      var e := MatchingBrace(b, s, 0);
      [(s, e)] + HeredocInterp(b, php, e + 1)
  }

  datatype LuaOpen = LuaOpen(level: nat, len: nat)

  /** `[=*[` at `i`. */
  function LuaLongOpen(b: Line, i: nat): (r: Option<LuaOpen>)
    ensures r.Some? ==> r.value.len >= 2 && i + r.value.len <= |b|
  {
    if Get(b, i) != LBRACKET then None else
    var j := RunOn(b, i + 1, c => c == EQUALS);
    if Get(b, j) == LBRACKET then Some(LuaOpen(j - i - 1, j - i + 1)) else None
  }

  function LuaTerm(level: nat): Line { [RBRACKET] + seq(level, _ => EQUALS) + [RBRACKET] }

  datatype RawOpen = RawOpen(hashes: nat, len: nat)

  function RustRawOpen(b: Line, i: nat): (r: Option<RawOpen>)
    requires i < |b|
    ensures r.Some? ==> r.value.len >= 2 && i + r.value.len <= |b|
  {
    var j := if b[i] == 0x62 || b[i] == 0x63 then i + 1 else i;
    if Get(b, j) != 0x72 then None else
    var e := RunOn(b, j + 1, c => c == HASH);
    if Get(b, e) == DQ then Some(RawOpen(e - j - 1, e + 1 - i)) else None
  }

  datatype CppOpen = CppOpen(term: Line, len: nat)

  function CppDelimiter(b: Line, i: nat, j: nat): (r: Option<nat>)
    requires i < j
    ensures r.Some? ==> j <= r.value <= |b|
    decreases |b| - j
  {
    if j < |b| && j - i <= 17 && b[j] != LPAREN then
      if b[j] == SPACE || b[j] == RPAREN || b[j] == BACKSLASH || b[j] == DQ then None else CppDelimiter(b, i, j + 1)
    else if j <= |b| then Some(j) else None
  }

  /** C++ `R"delim(`: the closing text and the opener's length. */
  function CppRawOpen(b: Line, i: nat): (r: Option<CppOpen>)
    requires i < |b|
    ensures r.Some? ==> r.value.len >= 2 && i + r.value.len <= |b|
  {
    match CppDelimiter(b, i, i + 1)
    case None => None
    case Some(j) =>
      if Get(b, j) != LPAREN then None else Some(CppOpen([RPAREN] + b[i + 1..j] + [DQ], j + 1 - i))
  }

  datatype CsOpen = CsOpen(quotes: nat, dollars: nat, len: nat)

  predicate PrefixMark(c: byte) { c == DOLLAR || c == AT }

  function CountOf(b: Line, c: byte): nat { multiset(b)[c] }

  /** Quotes, dollars and length of a C# opener that is not a plain quote. */
  function CsStringOpen(b: Line, i: nat): (r: Option<CsOpen>)
    requires i < |b| && b[i] == DQ
    ensures r.Some? ==> r.value.len >= 1 && i + r.value.len <= |b|
  {
    var quotes := RunOn(b, i, c => c == DQ) - i;
    var s := RunBackUpto(b, i, 16, PrefixMark);
    if s > 0 && IsIdent(b[s - 1]) then None else
    var dollars := CountOf(b[s..i], DOLLAR);
    if quotes >= 3 then Some(CsOpen(quotes, dollars, quotes))
    else if AT in b[s..i] then Some(CsOpen(0, if dollars > 1 then 1 else dollars, 1))
    else None
  }

  /** The alphanumeric run before `i` begins with a digit. */
  predicate NumberBefore(b: Line, i: nat)
    requires i <= |b|
  {
    var s := RunBack(b, i, (c: byte) => IsAlpha(c) || IsDigit(c) || c == SQ);
    s < i && IsDigit(b[s])
  }

  /** Width of the UTF-8 character at `i`, 0 at the end. */
  function CharWidth(b: Line, i: nat): nat {
    if i >= |b| then 0 else if b[i] < 0x80 then 1 else if b[i] < 0xE0 then 2 else if b[i] < 0xF0 then 3 else 4
  }

  function FirstQuote(b: Line, i: nat): (r: Option<nat>)
    ensures r.Some? ==> i <= r.value < |b|
    decreases |b| - i
  {
    if i >= |b| then None else if b[i] == SQ then Some(i) else FirstQuote(b, i + 1)
  }

  /** Length of the Rust character literal at the quote `i`; lifetimes have
      none. */
  function RustCharLen(b: Line, i: nat): (r: Option<nat>)
    requires i < |b|
    ensures r.Some? ==> r.value >= 1 && i + r.value <= |b|
  {
    if Get(b, i + 1) == BACKSLASH then
      (if i + 3 > |b| then None else
       match FirstQuote(b, i + 3) case None => None case Some(p) => Some(p + 1 - i))
    else
      var w := CharWidth(b, i + 1);
      if w > 0 && Get(b, i + 1 + w) == SQ then Some(w + 2) else None
  }
}
