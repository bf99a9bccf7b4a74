/** Literals with grammars of their own: regex and `%` literals, C# raw and
    verbatim strings, Rust characters; and where operands may stand. */
module MaskLiterals {
  import opened Types
  import opened MaskLang
  import opened MaskLexer
  import opened MaskOpeners
  import opened CodeMask
  import opened MaskMeaning

  /** From `i` to `e` the line is one string token, and code goes on. */
  ghost predicate IsString(lg: Lang, lex: Lexer, b: Line, i: nat, e: nat, labels: seq<Paint>) {
    Next(lg, b, At(lex, i, labels), At(lex, e, Fill(labels, i, e, StringByte)))
  }

  // ---------------------------------------------------------------- operands

  /** The bytes before `j` that are part of a word, all of them. */
  predicate WordEnds(b: Line, j: nat, w: Line) {
    |w| <= j <= |b| && b[j - |w|..j] == w && (forall c :: c in w ==> IsIdent(c))
    && (j > |w| ==> !IsIdent(b[j - |w| - 1]))
  }

  lemma WordEndsRun(b: Line, j: nat, w: Line)
    requires WordEnds(b, j, w)
    ensures b[RunBack(b, j, IsIdent)..j] == w
  {
    var s := j - |w|;
    forall k | s <= k < j ensures IsIdent(b[k]) { assert b[s..j][k - s] == b[k] && w[k - s] in w; }
    RunBackEnds(b, j, s, IsIdent);
  }

  lemma {:induction false} RunBackEnds(b: Line, i: nat, s: nat, ok: byte -> bool)
    requires s <= i <= |b| && (forall k :: s <= k < i ==> ok(b[k])) && (s > 0 ==> !ok(b[s - 1]))
    ensures RunBack(b, i, ok) == s
    decreases i
  {
    if s < i { RunBackEnds(b, i - 1, s, ok); }
  }

  /** Blanks lie between `j` and `i`, none before `j`. */
  predicate BlanksFrom(b: Line, j: nat, i: nat) {
    j <= i <= |b| && (forall k :: j <= k < i ==> Blank(b[k])) && (j > 0 ==> !Blank(b[j - 1]))
  }

  predicate AfterAny(b: Line, j: nat, s: string) { 0 < j <= |b| && b[j - 1] in Text1(s) }

  const OPERATORS: string := "=(,:[!&|?{;+-*%<>~^"

  /** JavaScript reads a slash as a regex at the start of a line, after an
      operator or an opening or closing brace, and after certain words. */
  lemma JsRegexAfter(b: Line, j: nat, i: nat, w: Line)
    requires BlanksFrom(b, j, i) && WordEnds(b, j, w)
    ensures RegexAllowed(b, i) <==>
      j == 0 || AfterAny(b, j, OPERATORS) || AfterAny(b, j, "}")
      || OneOf(w, ["return", "typeof", "case", "in", "of", "delete", "void", "throw", "new", "else", "do", "yield",
                   "await"])
  {
    RunBackEnds(b, i, j, Blank);
    WordEndsRun(b, j, w);
    OperatorsAre();
    WordsNotEmpty(["return", "typeof", "case", "in", "of", "delete", "void", "throw", "new", "else", "do", "yield",
                   "await"]);
    if j > 0 && w != [] { assert b[j - |w|..j][|w| - 1] == b[j - 1]; }
  }

  lemma OperatorsAre()
    ensures Text1(OPERATORS) == OperatorBytes() && Text1("}") == [RBRACE] && Text1("") == []
  {}

  lemma WordsNotEmpty(words: seq<string>)
    requires forall w :: w in words ==> w != ""
    ensures !OneOf([], words)
  {
    forall w | w in words ensures Text1(w) != [] { assert |Text1(w)| == |w|; }
  }

  /** So does Ruby, after its own words and not after a closing brace. */
  lemma RubyRegexAfter(b: Line, j: nat, i: nat, w: Line)
    requires BlanksFrom(b, j, i) && WordEnds(b, j, w)
    ensures RubyRegexAllowed(b, i) <==>
      j == 0 || AfterAny(b, j, OPERATORS)
      || OneOf(w, ["if", "elsif", "unless", "while", "until", "when", "case", "and", "or", "not", "then", "else", "do",
                   "return", "yield", "in"])
  {
    RunBackEnds(b, i, j, Blank);
    WordEndsRun(b, j, w);
    OperatorsAre();
    WordsNotEmpty(["if", "elsif", "unless", "while", "until", "when", "case", "and", "or", "not", "then", "else", "do",
                   "return", "yield", "in"]);
    if j > 0 && w != [] { assert b[j - |w|..j][|w| - 1] == b[j - 1]; }
  }

  // ------------------------------------------------------------------- regex

  /** Where an operand may stand, a regex literal is string, flags included. */
  lemma RegexIsString(lg: Lang, lex: Lexer, b: Line, i: nat, e: nat, labels: seq<Paint>)
    requires InCode(lg, lex) && |labels| == |b| && i < |b| && b[i] == SLASH && LiteralEnds(b, i + 1, e)
    requires (lg.Js? && RegexAllowed(b, i) && !LineCommentAt(lg, b, i) && !OpenerAt(b, i))
        || (lg.Ruby? && RubyRegexAllowed(b, i))
    ensures IsString(lg, lex, b, i, e, labels)
  {
    RegexEndIff(b, i, e);
  }

  ghost predicate Unclosed(b: Line, s: nat) { forall e: nat :: !LiteralEnds(b, s, e) }

  /** Anywhere else, or unclosed, the slash is code. */
  lemma SlashIsCode(lg: Lang, lex: Lexer, b: Line, i: nat, labels: seq<Paint>)
    requires InCode(lg, lex) && |labels| == |b| && i < |b| && b[i] == SLASH && !LineCommentAt(lg, b, i)
    requires BlockC(lg) ==> !OpenerAt(b, i)
    requires (lg.Js? && RegexAllowed(b, i)) || (lg.Ruby? && RubyRegexAllowed(b, i)) ==> Unclosed(b, i + 1)
    ensures Next(lg, b, At(lex, i, labels), At(lex, i + 1, labels))
  {
    if RegexEnd(b, i).Some? { RegexEndIff(b, i, RegexEnd(b, i).value); }
    assert NextToken(lg, lex, b, i) == Moved(lex, i + 1);
  }

  // ------------------------------------------------------ quotes that are code

  predicate InNumber(c: byte) { IsAlpha(c) || IsDigit(c) || c == SQ }

  /** In YAML a quote within a plain scalar is text, in C one between digits
      groups them; in the shell a backslash hides the next byte. */
  lemma QuoteIsCode(lg: Lang, lex: Lexer, b: Line, i: nat, s: nat, labels: seq<Paint>)
    requires InCode(lg, lex) && |labels| == |b| && i < |b|
    requires
      || (lg.Yaml? && (b[i] == DQ || b[i] == SQ) && i > 0 && !AfterAny(b, i, " \t[{,:-?"))
      || (lg.C? && b[i] == SQ && s < i && IsDigit(b[s]) && (s > 0 ==> !InNumber(b[s - 1]))
          && forall k :: s <= k < i ==> InNumber(b[k]))
      || (lg.Shell? && b[i] == BACKSLASH)
    ensures Next(lg, b, At(lex, i, labels), At(lex, if lg.Shell? then i + 2 else i + 1, labels))
  {
    if lg.C? { RunBackEnds(b, i, s, (c: byte) => IsAlpha(c) || IsDigit(c) || c == SQ); }
    if lg.Yaml? {
      assert Text1(" \t[{,:-?") == [SPACE, TAB, LBRACKET, LBRACE, COMMA, COLON, MINUS, QUESTION];
    }
    assert NextToken(lg, lex, b, i) == Moved(lex, if lg.Shell? then i + 2 else i + 1);
  }

  // -------------------------------------------------------------- prefixes

  /** The run of prefix bytes before `i` is `p`, at most three of them. */
  predicate PrefixText(b: Line, i: nat, p: Line) {
    |p| <= i <= |b| && |p| <= 3 && b[i - |p|..i] == p && (forall c :: c in p ==> PrefixByte(c))
    && (i > |p| ==> !PrefixByte(b[i - |p| - 1]))
  }

  /** Which prefix makes a string interpolate. */
  lemma PrefixInterpolates(lg: Lang, b: Line, i: nat, p: Line)
    requires PrefixText(b, i, p)
    ensures InterpPrefix(lg, b, i) <==>
      match lg
      case Python => 'f' as int in p || 'F' as int in p
      case CSharp => '$' as int in p
      case Scala => p == Text1("s") || p == Text1("f") || p == Text1("raw")
      case _ => false
  {
    var s := i - |p|;
    forall k | s <= k < i ensures PrefixByte(b[k]) { assert b[s..i][k - s] == b[k] && p[k - s] in p; }
    BackUptoEnds(b, i, s, 3, PrefixByte);
    assert OneOf(p, ["s", "f", "raw"]) <==> p == Text1("s") || p == Text1("f") || p == Text1("raw") by {
      var words := ["s", "f", "raw"];
      assert words[0] in words && words[1] in words && words[2] in words;
    }
  }

  // ----------------------------------------------------------- Ruby literals

  /** What closes a `%` literal with this delimiter. */
  predicate Partners(open: byte, close: byte) {
    match open as char
    case '(' => close == ')' as int
    case '[' => close == ']' as int
    case '{' => close == '}' as int
    case '<' => close == '>' as int
    case _ => close == open
  }

  /** Text with balanced delimiters; a backslash hides the next byte. */
  ghost predicate PercentBody(p: State, b: Line, i: nat, j: nat)
    requires p.Percent?
    decreases if j >= i then j - i else 0
  {
    i <= j <= |b| &&
    (i == j
     || (b[i] == BACKSLASH && PercentBody(p, b, i + 2, j))
     || (b[i] != BACKSLASH && b[i] != p.close && b[i] != p.open && !(p.interp && StartsAt(b, i, Text1("#{")))
         && PercentBody(p, b, i + 1, j))
     || (p.open != p.close && b[i] == p.open && b[i] != BACKSLASH && exists m: nat ::
           i < m < j && PercentBody(p, b, i + 1, m) && b[m] == p.close && PercentBody(p, b, m + 1, j)))
  }

  predicate OrdinaryDelimiters(p: State) {
    p.Percent? && p.open != BACKSLASH && p.close != BACKSLASH && p.open != HASH && p.close != HASH
  }

  lemma {:induction false} PercentPasses(p: State, b: Line, i: nat, j: nat, depth: nat)
    requires OrdinaryDelimiters(p) && PercentBody(p, b, i, j)
    ensures ScanPercent(b, i, p, depth) == ScanPercent(b, j, p, depth)
    decreases j - i
  {
    if i < j {
      TwoBytes(b, i, "#{");
      if b[i] == BACKSLASH {
        PercentPasses(p, b, i + 2, j, depth);
      } else if p.open != p.close && b[i] == p.open {
        var m: nat :| i < m < j && PercentBody(p, b, i + 1, m) && b[m] == p.close && PercentBody(p, b, m + 1, j);
        PercentPasses(p, b, i + 1, m, depth + 1);
        assert ScanPercent(b, m, p, depth + 1) == ScanPercent(b, m + 1, p, depth);
        PercentPasses(p, b, m + 1, j, depth);
      } else {
        PercentPasses(p, b, i + 1, j, depth);
      }
    }
  }

  /** A `%` literal opens with its delimiter. */
  lemma PercentOpens(lg: Lang, lex: Lexer, b: Line, i: nat, labels: seq<Paint>)
    requires InCode(lg, lex) && lg.Ruby? && |labels| == |b| && i < |b| && b[i] == PERCENT
    requires RubyPercentOpen(b, i).Some?
    ensures var o := RubyPercentOpen(b, i).value;
      && Partners(o.open, o.close)
      && Next(lg, b, At(lex, i, labels),
           At(lex.(state := Percent(o.open, o.close, 0, o.interp)), i + o.len, Fill(labels, i, i + o.len, StringByte)))
  {}

  /** It is string up to the delimiter that balances the opening one. */
  lemma PercentCloses(lg: Lang, lex: Lexer, b: Line, i: nat, e: nat, labels: seq<Paint>)
    requires LexOk(lg, lex) && OrdinaryDelimiters(lex.state) && lex.state.level == 0 && |labels| == |b| && i < |b|
    requires PercentBody(lex.state, b, i, e) && e < |b| && b[e] == lex.state.close
    ensures Next(lg, b, At(lex, i, labels), At(lex.(state := Code), e + 1, Fill(labels, i, e + 1, StringByte)))
  {
    PercentPasses(lex.state, b, i, e, 0);
    assert ScanPercent(b, e, lex.state, 0) == Scan(e + 1, 0, Closed);
  }

  /** Its interpolations are code, and the literal goes on after them as deep
      as it was. */
  lemma PercentInterpolates(lg: Lang, lex: Lexer, b: Line, i: nat, p: nat, labels: seq<Paint>)
    requires LexOk(lg, lex) && OrdinaryDelimiters(lex.state) && lex.state.interp && |labels| == |b| && i < |b|
    requires PercentBody(lex.state, b, i, p) && StartsAt(b, p, Text1("#{"))
    ensures Next(lg, b, At(lex, i, labels),
      At(Lexer(Code, lex.frames + [Frame(0, LBRACE, RBRACE, lex.state, false)], lex.fstr, lex.pending), p + 2,
         Fill(labels, i, p + 2, StringByte)))
  {
    TwoBytes(b, p, "#{");
    PercentPasses(lex.state, b, i, p, lex.state.level);
    assert ScanPercent(b, p, lex.state, lex.state.level) == Scan(p, lex.state.level, Opened(2, LBRACE, RBRACE));
  }

  // -------------------------------------------------------------- C# strings

  /** All quotes from `k` to `m`, no more on either side, counted from `i`. */
  predicate QuoteRun(b: Line, i: nat, k: nat, m: nat) {
    && i <= k < m <= |b| && (forall x :: k <= x < m ==> b[x] == DQ)
    && (k > i ==> b[k - 1] != DQ) && (m < |b| ==> b[m] != DQ)
  }

  /** A run of quotes that ends the string: as many as opened a raw string, an
      odd number in a verbatim one. */
  predicate EndsCs(quotes: nat, width: nat) { if quotes == 0 then width % 2 == 1 else width >= quotes }

  predicate FirstRun(b: Line, i: nat, quotes: nat, k: nat, m: nat) {
    && QuoteRun(b, i, k, m) && EndsCs(quotes, m - k)
    && forall k', m' :: i <= k' < m' <= k && QuoteRun(b, i, k', m') ==> !EndsCs(quotes, m' - k')
  }

  lemma RunIs(b: Line, k: nat, m: nat)
    requires k < m <= |b| && (forall x :: k <= x < m ==> b[x] == DQ) && (m < |b| ==> b[m] != DQ)
    ensures RunLength(b, k, DQ) == m - k
  {
    RunOnEnds(b, k, m, x => x == DQ);
  }

  /** The first run that ends the string is the first from here on, too. */
  lemma RunAhead(b: Line, i: nat, n: nat, quotes: nat, k: nat, m: nat)
    requires FirstRun(b, i, quotes, k, m) && i < n <= k && (b[n - 1] == DQ ==> b[n] != DQ)
    ensures FirstRun(b, n, quotes, k, m)
  {
    assert QuoteRun(b, n, k, m);
    forall k', m' | n <= k' < m' <= k && QuoteRun(b, n, k', m') ensures !EndsCs(quotes, m' - k') {
      assert QuoteRun(b, i, k', m');
    }
  }

  /** A pair of quotes in a verbatim string leaves the rest of its run as odd
      or even as it was. */
  lemma PairAhead(b: Line, i: nat, end: nat, k: nat, m: nat) returns (from: nat)
    requires FirstRun(b, i, 0, k, m) && QuoteRun(b, i, i, end) && end >= i + 2 && end <= m
    ensures i + 2 <= from && FirstRun(b, i + 2, 0, from, m)
  {
    from := if k == i then i + 2 else k;
    if k == i {
      assert end == m;
      assert QuoteRun(b, i + 2, i + 2, m);
    } else {
      assert k > end;
      assert QuoteRun(b, i + 2, k, m);
      assert !EndsCs(0, end - i);
      var n := i + 2;
      forall k', m' | n <= k' < m' <= k && QuoteRun(b, n, k', m') ensures !EndsCs(0, m' - k') {
        if k' == n {
          assert m' == end;
        } else {
          assert QuoteRun(b, i, k', m');
        }
      }
    }
  }

  /** No brace opens code before `k`. */
  predicate NoBrace(b: Line, dollars: nat, i: nat, k: nat) {
    dollars > 0 ==> forall x :: i <= x < k && x < |b| ==> b[x] != LBRACE
  }

  /** The run of quotes that begins at `i` ends by `m`. */
  lemma RunHere(b: Line, i: nat, quotes: nat, k: nat, m: nat) returns (end: nat)
    requires FirstRun(b, i, quotes, k, m) && b[i] == DQ
    ensures QuoteRun(b, i, i, end) && end <= m && (k == i ==> end == m) && (k != i ==> end < k)
    ensures RunLength(b, i, DQ) == end - i
  {
    end := RunOn(b, i, x => x == DQ);
    if end > k { assert k == i; }
  }

  /** A C# string ends with the first run of quotes that can end it. */
  lemma {:induction false} CsEnds(b: Line, i: nat, quotes: nat, dollars: nat, k: nat, m: nat)
    requires FirstRun(b, i, quotes, k, m) && NoBrace(b, dollars, i, k)
    ensures ScanCs(b, i, quotes, dollars) == Scan(m, 0, Closed)
    decreases |b| - i
  {
    if b[i] == DQ && quotes == 0 && i + 1 < |b| && b[i + 1] == DQ {
      var end := RunHere(b, i, quotes, k, m);
      var from := PairAhead(b, i, end, k, m);
      CsEnds(b, i + 2, quotes, dollars, from, m);
    } else if i != k {
      var next := CsTextStep(b, i, quotes, dollars, k, m);
      CsEnds(b, next, quotes, dollars, k, m);
    } else {
      var end := RunHere(b, i, quotes, k, m);
    }
  }

  /** Before the last run the scan passes bytes, or runs that end nothing. */
  lemma {:induction false} CsTextStep(b: Line, i: nat, quotes: nat, dollars: nat, k: nat, m: nat) returns (next: nat)
    requires FirstRun(b, i, quotes, k, m) && NoBrace(b, dollars, i, k) && i != k
    requires !(b[i] == DQ && quotes == 0 && i + 1 < |b| && b[i + 1] == DQ)
    ensures i < next && FirstRun(b, next, quotes, k, m)
    ensures ScanCs(b, i, quotes, dollars) == ScanCs(b, next, quotes, dollars)
  {
    next := i + 1;
    if b[i] == DQ {
      next := RunHere(b, i, quotes, k, m);
      assert !EndsCs(quotes, next - i);
    }
    RunAhead(b, i, next, quotes, k, m);
  }

  /** It is string through that run; in a raw string fewer quotes than opened it
      are text, in a verbatim one every pair is. */
  lemma CsIsString(lg: Lang, lex: Lexer, b: Line, i: nat, k: nat, m: nat, labels: seq<Paint>)
    requires LexOk(lg, lex) && lex.state.CsStr? && |labels| == |b|
    requires FirstRun(b, i, lex.state.quotes, k, m) && NoBrace(b, lex.state.dollars, i, k)
    ensures Next(lg, b, At(lex, i, labels), At(lex.(state := Code), m, Fill(labels, i, m, StringByte)))
  {
    CsEnds(b, i, lex.state.quotes, lex.state.dollars, k, m);
  }

  predicate NoQuoteOrBrace(b: Line, i: nat, p: nat) {
    i <= p <= |b| && forall x :: i <= x < p ==> b[x] != DQ && b[x] != LBRACE
  }

  lemma {:induction false} CsTextByte(b: Line, i: nat, quotes: nat, dollars: nat)
    requires i < |b| && b[i] != DQ && b[i] != LBRACE
    ensures ScanCs(b, i, quotes, dollars) == ScanCs(b, i + 1, quotes, dollars)
  {
    assert StepCs(b, i, quotes, dollars) == Pass(i + 1);
  }

  lemma {:induction false} CsTextPasses(b: Line, i: nat, p: nat, quotes: nat, dollars: nat)
    requires NoQuoteOrBrace(b, i, p)
    ensures ScanCs(b, i, quotes, dollars) == ScanCs(b, p, quotes, dollars)
    decreases p - i
  {
    if i < p {
      CsTextByte(b, i, quotes, dollars);
      CsTextPasses(b, i + 1, p, quotes, dollars);
    }
  }

  /** The first `{` to `q` are a run that opens an interpolation: one brace in a
      verbatim string, as many as there were dollars in a raw one, with any more
      in front as text. */
  predicate BracesOpen(b: Line, quotes: nat, dollars: nat, p: nat, q: nat) {
    && p < q <= |b| && (forall x :: p <= x < q ==> b[x] == LBRACE) && (q < |b| ==> b[q] != LBRACE)
    && 0 < dollars <= q - p && (quotes == 0 ==> q == p + 1)
  }

  /** Code follows such braces, framed by the string around it. */
  lemma CsInterpolates(lg: Lang, lex: Lexer, b: Line, i: nat, p: nat, q: nat, labels: seq<Paint>)
    requires LexOk(lg, lex) && lex.state.CsStr? && |labels| == |b| && i < |b| && NoQuoteOrBrace(b, i, p)
    requires BracesOpen(b, lex.state.quotes, lex.state.dollars, p, q)
    ensures Next(lg, b, At(lex, i, labels),
      At(Lexer(Code, lex.frames + [Frame(0, LBRACE, RBRACE, lex.state, false)], false, lex.pending), q,
         Fill(labels, i, q, StringByte)))
  {
    var quotes, dollars := lex.state.quotes, lex.state.dollars;
    CsTextPasses(b, i, p, quotes, dollars);
    RunOnEnds(b, p, q, x => x == LBRACE);
    assert StepCs(b, p, quotes, dollars) == Stop(Scan(p + (q - p - dollars), 0, Opened(dollars, LBRACE, RBRACE)));
  }

  // ------------------------------------------------------ openers by length

  lemma StartsAtBytes(b: Line, i: nat, pat: Line)
    requires StartsAt(b, i, pat)
    ensures forall k :: 0 <= k < |pat| ==> b[i + k] == pat[k]
  {
    forall k | 0 <= k < |pat| ensures b[i + k] == pat[k] { assert b[i..i + |pat|][k] == b[i + k]; }
  }

  /** `r`, `br` or `cr`, any number of hashes and a quote open a Rust raw
      string; the quote and as many hashes close it. */
  lemma RustRawReads(b: Line, i: nat, letters: string, n: nat)
    requires letters in ["r", "br", "cr"] && StartsAt(b, i, Text1(letters) + Repeat(HASH, n) + [DQ])
    ensures RustRawOpen(b, i) == Some(RawOpen(n, |letters| + n + 1))
  {
    var pat := Text1(letters) + Repeat(HASH, n) + [DQ];
    StartsAtBytes(b, i, pat);
    var from := i + |letters|;
    assert b[i] == pat[0] && b[from - 1] == pat[|letters| - 1] == 0x72;
    forall k | from <= k < from + n ensures b[k] == HASH { assert b[i + (k - i)] == pat[k - i]; }
    assert b[from + n] == pat[|letters| + n] == DQ;
    RunOnEnds(b, from, from + n, c => c == HASH);
  }

  /** Two brackets with any number of equals signs between open a Lua string. */
  lemma LuaLongReads(b: Line, i: nat, n: nat)
    requires StartsAt(b, i, [LBRACKET] + Repeat(EQUALS, n) + [LBRACKET])
    ensures LuaLongOpen(b, i) == Some(LuaOpen(n, n + 2))
  {
    var pat := [LBRACKET] + Repeat(EQUALS, n) + [LBRACKET];
    StartsAtBytes(b, i, pat);
    assert b[i] == pat[0];
    forall k | i + 1 <= k < i + 1 + n ensures b[k] == EQUALS { assert b[i + (k - i)] == pat[k - i]; }
    assert b[i + (n + 1)] == pat[n + 1] == LBRACKET;
    RunOnEnds(b, i + 1, i + 1 + n, c => c == EQUALS);
  }

  // --------------------------------------------------------- Rust characters

  function Utf8Width(first: byte): nat {
    if first < 0x80 then 1 else if first < 0xE0 then 2 else if first < 0xF0 then 3 else 4
  }

  /** A character literal: one escaped or one UTF-8 character between quotes. */
  predicate RustChar(b: Line, i: nat, e: nat) {
    && i + 2 < e <= |b| && b[i] == SQ && b[e - 1] == SQ
    && if b[i + 1] == BACKSLASH then e >= i + 4 && forall k :: i + 3 <= k < e - 1 ==> b[k] != SQ
       else e - i - 2 == Utf8Width(b[i + 1])
  }

  lemma {:induction false} FirstQuoteIs(b: Line, i: nat, e: nat)
    requires i <= e < |b| && b[e] == SQ && forall k :: i <= k < e ==> b[k] != SQ
    ensures FirstQuote(b, i) == Some(e)
    decreases e - i
  {
    if i < e { FirstQuoteIs(b, i + 1, e); }
  }

  lemma {:induction false} FirstQuoteFirst(b: Line, i: nat)
    requires FirstQuote(b, i).Some?
    ensures b[FirstQuote(b, i).value] == SQ && forall k :: i <= k < FirstQuote(b, i).value ==> b[k] != SQ
    decreases |b| - i
  {
    if i < |b| && b[i] != SQ { FirstQuoteFirst(b, i + 1); }
  }

  lemma RustCharIff(b: Line, i: nat, e: nat)
    requires i < |b| && b[i] == SQ && i <= e
    ensures RustCharLen(b, i) == Some(e - i) <==> RustChar(b, i, e)
  {
    if Get(b, i + 1) == BACKSLASH {
      if FirstQuote(b, i + 3).Some? { FirstQuoteFirst(b, i + 3); }
      if RustChar(b, i, e) { FirstQuoteIs(b, i + 3, e - 1); }
    }
  }

  /** A quote in Rust begins a character, which is string, or a lifetime, which
      is code. */
  lemma RustQuote(lg: Lang, lex: Lexer, b: Line, i: nat, labels: seq<Paint>)
    requires InCode(lg, lex) && lg.Rust? && |labels| == |b| && i < |b| && b[i] == SQ
    ensures forall e: nat :: RustChar(b, i, e) ==> IsString(lg, lex, b, i, e, labels)
    ensures (forall e: nat :: !RustChar(b, i, e)) ==> Next(lg, b, At(lex, i, labels), At(lex, i + 1, labels))
  {
    forall e: nat | RustChar(b, i, e) ensures IsString(lg, lex, b, i, e, labels) {
      RustCharIff(b, i, e);
      assert NextToken(lg, lex, b, i) == Literal(lex, e, i, e);
    }
    if forall e: nat :: !RustChar(b, i, e) {
      if RustCharLen(b, i).Some? { RustCharIff(b, i, i + RustCharLen(b, i).value); }
      assert NextToken(lg, lex, b, i) == Moved(lex, i + 1);
    }
  }
}
