/** The scanning loops of the lexer, each computing what its specification
    says, and one turn of the lexer's main loop. */
module MaskScan {
  import opened Types
  import opened MaskLang
  import opened MaskLexer

  // ------------------------------------------------------------ runs of bytes

  method LoopOn(b: Line, start: nat, ok: byte -> bool) returns (e: nat)
    requires start <= |b|
    ensures e == RunOn(b, start, ok)
  {
    e := start;
    while e < |b| && ok(b[e])
      invariant start <= e <= |b| && RunOn(b, start, ok) == RunOn(b, e, ok)
    {
      e := e + 1;
    }
  }

  method LoopBack(b: Line, end: nat, ok: byte -> bool) returns (s: nat)
    requires end <= |b|
    ensures s == RunBack(b, end, ok)
  {
    s := end;
    while s > 0 && ok(b[s - 1])
      invariant s <= end && RunBack(b, end, ok) == RunBack(b, s, ok)
    {
      s := s - 1;
    }
  }

  method LoopBackUpto(b: Line, end: nat, most: nat, ok: byte -> bool) returns (s: nat)
    requires end <= |b|
    ensures s == RunBackUpto(b, end, most, ok)
  {
    s := end;
    while s > 0 && ok(b[s - 1]) && end - s < most
      invariant s <= end && end - s <= most
      invariant RunBackUpto(b, end, most, ok) == RunBackUpto(b, s, most - (end - s), ok)
    {
      s := s - 1;
    }
  }

  method LoopFind(b: Line, from: nat, pat: Line) returns (r: Option<nat>)
    ensures r == Find(b, from, pat)
  {
    if pat == [] { return None; }
    var p := from;
    while p + |pat| <= |b|
      invariant Find(b, from, pat) == Find(b, p, pat)
      decreases |b| - p
    {
      if b[p..p + |pat|] == pat { return Some(p); }
      p := p + 1;
    }
    return None;
  }

  // -------------------------------------------------------------- recognisers

  method LoopPrefix(lg: Lang, b: Line, i: nat) returns (r: bool)
    requires i <= |b|
    ensures r == InterpPrefix(lg, b, i)
  {
    var s := LoopBackUpto(b, i, 3, PrefixByte);
    var p := b[s..i];
    if s > 0 && IsIdent(b[s - 1]) { return false; }
    match lg
    case Python => return 0x66 in p || 0x46 in p;
    case CSharp => return DOLLAR in p;
    case Scala => return OneOf(p, ["s", "f", "raw"]);
    case _ => return false;
  }

  method LoopOperand(b: Line, i: nat, extra: seq<byte>, words: seq<string>) returns (r: bool)
    requires i <= |b|
    ensures r == OperandExpected(b, i, extra, words)
  {
    var j := LoopBack(b, i, Blank);
    if j == 0 || b[j - 1] in OperatorBytes() || b[j - 1] in extra { return true; }
    if !IsIdent(b[j - 1]) { return false; }
    var s := LoopBack(b, j, IsIdent);
    return OneOf(b[s..j], words);
  }

  method LoopRegexAllowed(lg: Lang, b: Line, i: nat) returns (r: bool)
    requires i <= |b|
    ensures r == ((lg.Js? && RegexAllowed(b, i)) || (lg.Ruby? && RubyRegexAllowed(b, i)))
  {
    if lg.Js? {
      r := LoopOperand(b, i, [RBRACE],
        ["return", "typeof", "case", "in", "of", "delete", "void", "throw", "new", "else", "do", "yield", "await"]);
    } else if lg.Ruby? {
      r := LoopOperand(b, i, [],
        ["if", "elsif", "unless", "while", "until", "when", "case", "and", "or", "not", "then", "else", "do", "return",
         "yield", "in"]);
    } else {
      r := false;
    }
  }

  method LoopRegexEnd(b: Line, i: nat) returns (r: Option<nat>)
    ensures r == RegexEnd(b, i)
  {
    var j, inClass := i + 1, false;
    while j < |b|
      invariant i < j && RegexEnd(b, i) == RegexBody(b, i, j, inClass)
      decreases |b| - j
    {
      if b[j] == BACKSLASH {
        j := j + 1;
      } else if b[j] == LBRACKET {
        inClass := true;
      } else if b[j] == RBRACKET {
        inClass := false;
      } else if b[j] == SLASH && !inClass {
        var e := LoopOn(b, j + 1, IsAlpha);
        return if e > i + 2 then Some(e) else None;
      }
      j := j + 1;
    }
    return None;
  }

  method LoopArgument(b: Line, i: nat, d: byte) returns (r: bool)
    requires i <= |b|
    ensures r == CommandArgument(b, i, d)
  {
    var k := LoopBack(b, i, Blank);
    var w := LoopBack(b, k, IsIdent);
    return k < i && w < k && !IsDigit(b[w]) && d != EQUALS
      && (HasKind(b, i) || d in [LPAREN, LBRACKET, LBRACE, LT, PIPE, BANG]);
  }

  method LoopRubyPercent(b: Line, i: nat) returns (r: Option<PercentOpen>)
    requires i < |b|
    ensures r == RubyPercentOpen(b, i)
  {
    var j := if HasKind(b, i) then i + 2 else i + 1;
    if j >= |b| || !PercentDelimiter(b[j]) { return None; }
    var arg := LoopArgument(b, i, b[j]);
    var allowed := LoopRegexAllowed(Lang.Ruby, b, i);
    if !(allowed || arg) { return None; }
    return Some(PercentOpen(j + 1 - i, b[j], CloseOf(b[j]), !(HasKind(b, i) && b[i + 1] in PlainKinds())));
  }

  method LoopIdent(b: Line, j: nat) returns (r: Option<Ident>)
    ensures r == HeredocIdent(b, j)
  {
    var q := Get(b, j);
    var quoted := j < |b| && (q == SQ || q == DQ || q == BACKTICK);
    var s := if quoted then j + 1 else j;
    if s > |b| { return None; }
    var e := LoopOn(b, s, IsIdent);
    if e == s || IsDigit(b[s]) { return None; }
    if quoted && Get(b, e) != q { return None; }
    return Some(Ident(b[s..e], !(quoted && q == SQ), if quoted then e + 1 else e));
  }

  method LoopRubyHeredoc(b: Line, i: nat) returns (r: Option<(nat, Heredoc)>)
    requires i < |b|
    ensures r == RubyHeredocOpen(b, i)
  {
    var flag := Get(b, i + 2) == TILDE || Get(b, i + 2) == MINUS;
    var j := if flag then i + 3 else i + 2;
    var found := LoopIdent(b, j);
    if found.None? { return None; }
    var id := found.value;
    var prev := if i > 0 then b[i - 1] else SPACE;
    if !flag && (!(IsUpper(id.term[0]) || b[j] != id.term[0]) || IsIdent(prev)) { return None; }
    return Some((id.end - i, Heredoc(id.term, flag, id.interp, false)));
  }

  method LoopPhpHeredoc(b: Line, i: nat) returns (r: Option<(nat, Heredoc)>)
    requires i < |b|
    ensures r == PhpHeredocOpen(b, i)
  {
    if i + 3 > |b| { return None; }
    var j := LoopOn(b, i + 3, Blank);
    var found := LoopIdent(b, j);
    if found.None? || !AllWhite(b[found.value.end..]) { return None; }
    var id := found.value;
    return Some((id.end - i, Heredoc(id.term, true, id.interp, true)));
  }

  method LoopHeredocOpen(lg: Lang, b: Line, i: nat) returns (r: Option<(nat, Heredoc)>)
    requires i < |b|
    ensures r == HeredocOpen(lg, b, i)
  {
    if lg.Ruby? {
      r := LoopRubyHeredoc(b, i);
    } else if lg.Php? && Get(b, i + 2) == LT {
      r := LoopPhpHeredoc(b, i);
    } else {
      r := None;
    }
  }

  method LoopHeredocClose(h: Heredoc, b: Line) returns (r: Option<nat>)
    ensures r == HeredocClose(h, b)
  {
    var s := 0;
    if h.indent { s := LoopOn(b, 0, Blank); }
    var e := s + |h.term|;
    if e > |b| || b[s..e] != h.term { return None; }
    return if (if h.php then e == |b| || !IsIdent(b[e]) else AllWhite(b[e..])) then Some(e) else None;
  }

  method LoopLuaOpen(b: Line, i: nat) returns (r: Option<LuaOpen>)
    ensures r == LuaLongOpen(b, i)
  {
    if Get(b, i) != LBRACKET { return None; }
    var j := LoopOn(b, i + 1, c => c == EQUALS);
    return if Get(b, j) == LBRACKET then Some(LuaOpen(j - i - 1, j - i + 1)) else None;
  }

  method LoopRustOpen(b: Line, i: nat) returns (r: Option<RawOpen>)
    requires i < |b|
    ensures r == RustRawOpen(b, i)
  {
    var j := if b[i] == 0x62 || b[i] == 0x63 then i + 1 else i;
    if Get(b, j) != 0x72 { return None; }
    var e := LoopOn(b, j + 1, c => c == HASH);
    return if Get(b, e) == DQ then Some(RawOpen(e - j - 1, e + 1 - i)) else None;
  }

  method LoopCppOpen(b: Line, i: nat) returns (r: Option<CppOpen>)
    requires i < |b|
    ensures r == CppRawOpen(b, i)
  {
    var j := i + 1;
    while j < |b| && j - i <= 17 && b[j] != LPAREN
      invariant i < j <= |b| && CppDelimiter(b, i, i + 1) == CppDelimiter(b, i, j)
    {
      if b[j] == SPACE || b[j] == RPAREN || b[j] == BACKSLASH || b[j] == DQ { return None; }
      j := j + 1;
    }
    return if Get(b, j) != LPAREN then None else Some(CppOpen([RPAREN] + b[i + 1..j] + [DQ], j + 1 - i));
  }

  method LoopCsOpen(b: Line, i: nat) returns (r: Option<CsOpen>)
    requires i < |b| && b[i] == DQ
    ensures r == CsStringOpen(b, i)
  {
    var e := LoopOn(b, i, c => c == DQ);
    var quotes := e - i;
    var s := LoopBackUpto(b, i, 16, PrefixMark);
    if s > 0 && IsIdent(b[s - 1]) { return None; }
    var dollars := CountOf(b[s..i], DOLLAR);
    if quotes >= 3 { return Some(CsOpen(quotes, dollars, quotes)); }
    return if AT in b[s..i] then Some(CsOpen(0, if dollars > 1 then 1 else dollars, 1)) else None;
  }

  method LoopNumber(b: Line, i: nat) returns (r: bool)
    requires i <= |b|
    ensures r == NumberBefore(b, i)
  {
    var s := LoopBack(b, i, (c: byte) => IsAlpha(c) || IsDigit(c) || c == SQ);
    return s < i && IsDigit(b[s]);
  }

  method LoopRustChar(b: Line, i: nat) returns (r: Option<nat>)
    requires i < |b|
    ensures r == RustCharLen(b, i)
  {
    if Get(b, i + 1) == BACKSLASH {
      if i + 3 > |b| { return None; }
      var p := i + 3;
      while p < |b|
        invariant i + 3 <= p <= |b| && FirstQuote(b, i + 3) == FirstQuote(b, p)
      {
        if b[p] == SQ { return Some(p + 1 - i); }
        p := p + 1;
      }
      return None;
    }
    var w := CharWidth(b, i + 1);
    return if w > 0 && Get(b, i + 1 + w) == SQ then Some(w + 2) else None;
  }

  // ------------------------------------------------- strings and comments

  method LoopPercent(b: Line, start: nat, p: State) returns (s: Scan)
    requires p.Percent?
    ensures s == ScanPercent(b, start, p, p.level)
  {
    var i, depth := start, p.level;
    while i < |b|
      invariant ScanPercent(b, start, p, p.level) == ScanPercent(b, i, p, depth)
      decreases |b| - i
    {
      if b[i] == BACKSLASH { i := i + 2; continue; }
      if p.interp && b[i] == HASH && Get(b, i + 1) == LBRACE { return Scan(i, depth, Opened(2, LBRACE, RBRACE)); }
      if p.open != p.close && b[i] == p.open {
        depth := depth + 1;
      } else if b[i] == p.close {
        if depth == 0 { return Scan(i + 1, 0, Closed); }
        depth := depth - 1;
      }
      i := i + 1;
    }
    return Scan(i, depth, RanOut);
  }

  method LoopBlock(b: Line, start: nat, depth0: pos, nested: bool) returns (s: Scan)
    ensures s == ScanBlock(b, start, depth0, nested)
  {
    var i: nat, depth: pos := start, depth0;
    while i < |b|
      invariant ScanBlock(b, start, depth0, nested) == ScanBlock(b, i, depth, nested)
      decreases |b| - i
    {
      if b[i] == STAR && Get(b, i + 1) == SLASH {
        if depth == 1 { return Scan(i + 2, 0, Closed); }
        i, depth := i + 2, depth - 1;
      } else if nested && b[i] == SLASH && Get(b, i + 1) == STAR {
        i, depth := i + 2, depth + 1;
      } else {
        i := i + 1;
      }
    }
    return Scan(i, depth, RanOut);
  }

  method LoopRun(b: Line, i: nat, c: byte) returns (n: nat)
    requires i < |b| && b[i] == c
    ensures n == RunLength(b, i, c)
  {
    var e := LoopOn(b, i, x => x == c);
    n := e - i;
  }

  method TakeCsStep(b: Line, i: nat, quotes: nat, dollars: nat) returns (s: CsStep)
    requires i < |b|
    ensures s == StepCs(b, i, quotes, dollars)
  {
    if b[i] == DQ {
      var r := LoopRun(b, i, DQ);
      if quotes == 0 { return if r >= 2 then Pass(i + 2) else Stop(Scan(i + 1, 0, Closed)); }
      return if r >= quotes then Stop(Scan(i + r, 0, Closed)) else Pass(i + r);
    }
    if dollars > 0 && b[i] == LBRACE {
      var r := LoopRun(b, i, LBRACE);
      if quotes == 0 && r >= 2 { return Pass(i + 2); }
      if r >= dollars { return Stop(Scan(i + (r - dollars), 0, Opened(dollars, LBRACE, RBRACE))); }
      return Pass(i + r);
    }
    return Pass(i + 1);
  }

  method LoopCs(b: Line, start: nat, quotes: nat, dollars: nat) returns (s: Scan)
    ensures s == ScanCs(b, start, quotes, dollars)
  {
    var i := start;
    while i < |b|
      invariant ScanCs(b, start, quotes, dollars) == ScanCs(b, i, quotes, dollars)
      decreases |b| - i
    {
      var step := TakeCsStep(b, i, quotes, dollars);
      if step.Stop? { return step.scan; }
      i := step.at;
    }
    return Scan(i, 0, RanOut);
  }

  method LoopString(lg: Lang, multi: bool, q: byte, fstr: bool, b: Line, start: nat) returns (s: Scan)
    ensures s == ScanString(lg, multi, q, fstr, b, start)
  {
    var i := start;
    while i < |b|
      invariant ScanString(lg, multi, q, fstr, b, start) == ScanString(lg, multi, q, fstr, b, i)
      decreases |b| - i
    {
      var step := StringStep(lg, q, fstr, b, i);
      if step.Skip? { i := i + step.len; continue; }
      if step.Open? { return Scan(i, 0, Opened(step.len, step.open, step.close)); }
      var n := CloserLen(multi, q, b, i);
      if n > 0 { return Scan(i + n, 0, Closed); }
      i := i + 1;
    }
    return Scan(i, 0, RanOut);
  }

  method LoopBrace(b: Line, start: nat) returns (j: nat)
    requires start <= |b|
    ensures j == MatchingBrace(b, start, 0)
  {
    var d := 0;
    j := start;
    while j < |b|
      invariant start <= j <= |b| && MatchingBrace(b, start, 0) == MatchingBrace(b, j, d)
    {
      if b[j] == LBRACE {
        d := d + 1;
      } else if b[j] == RBRACE {
        if d == 0 { return; }
        d := d - 1;
      }
      j := j + 1;
    }
  }

  method LoopInterp(b: Line, php: bool) returns (out: seq<(nat, nat)>)
    ensures out == HeredocInterp(b, php, 0)
  {
    out := [];
    var i := 0;
    while i + 1 < |b|
      invariant HeredocInterp(b, php, 0) == out + HeredocInterp(b, php, i)
      decreases |b| - i
    {
      if b[i] == BACKSLASH { i := i + 2; continue; }
      if !InterpOpens(b, i, php) { i := i + 1; continue; }
      var s := if php && b[i] == LBRACE then i + 1 else i + 2;
      var j := LoopBrace(b, s);
      ghost var rest := HeredocInterp(b, php, j + 1);
      assert HeredocInterp(b, php, i) == [(s, j)] + rest;
      assert out + ([(s, j)] + rest) == (out + [(s, j)]) + rest;
      out := out + [(s, j)];
      i := j + 1;
    }
  }

  // --------------------------------------------------------------- one token

  method TakeRaw(lex: Lexer, b: Line, i: nat) returns (t: Token)
    requires lex.state.Raw?
    ensures t == RawToken(lex, b, i)
  {
    var found := LoopFind(b, i, lex.state.term);
    var next := if found.Some? then found.value + |lex.state.term| else |b|;
    t := Token(if found.Some? then lex.(state := Code) else lex, next,
               if lex.state.comment then CommentByte else StringByte, i, next);
  }

  method TakeBlock(lg: Lang, lex: Lexer, b: Line, i: nat) returns (t: Token)
    requires lex.state.Block?
    ensures t == BlockToken(lg, lex, b, i)
  {
    var s := LoopBlock(b, i, lex.state.depth, Nested(lg));
    t := Comment(lex.(state := if s.ending.Closed? then Code else Block(s.depth)), s.at, i, s.at);
  }

  method TakePercent(lex: Lexer, b: Line, i: nat) returns (t: Token)
    requires lex.state.Percent?
    ensures t == PercentToken(lex, b, i)
  {
    var s := LoopPercent(b, i, lex.state);
    t := AfterString(lex, i, s, lex.state.(level := s.depth), false);
  }

  method TakeString(lg: Lang, lex: Lexer, b: Line, i: nat) returns (t: Token)
    requires lex.state.CsStr? || lex.state.Str? || lex.state.Multi?
    ensures t == StringToken(lg, lex, b, i)
  {
    match lex.state
    case CsStr(quotes, dollars) =>
      var s := LoopCs(b, i, quotes, dollars);
      t := AfterString(lex, i, s, lex.state, false);
    case Str(q) =>
      var s := LoopString(lg, false, q, lex.fstr, b, i);
      t := AfterString(lex, i, s, lex.state, true);
    case Multi(q) =>
      var s := LoopString(lg, true, q, lex.fstr, b, i);
      t := AfterString(lex, i, s, lex.state, true);
  }

  method TakeRubyPhp(lg: Lang, lex: Lexer, b: Line, i: nat) returns (t: Option<Token>)
    requires i < |b|
    ensures t == RubyPhpToken(lg, lex, b, i)
  {
    if lg.Ruby? && b[i] == PERCENT {
      var p := LoopRubyPercent(b, i);
      if p.Some? {
        var o := p.value;
        return Some(Literal(lex.(state := Percent(o.open, o.close, 0, o.interp)), i + o.len, i, i + o.len));
      }
    }
    if b[i] == LT && Get(b, i + 1) == LT {
      var o := LoopHeredocOpen(lg, b, i);
      if o.Some? {
        var (len, h) := o.value;
        return Some(Literal(lex.(pending := lex.pending + [h]), i + len, i, i + len));
      }
    }
    return None;
  }

  method TakeDash(lg: Lang, lex: Lexer, b: Line, i: nat) returns (t: Option<Token>)
    requires i < |b|
    ensures t == DashToken(lg, lex, b, i)
  {
    if lg.Vb? && b[i] == SQ { return Some(Comment(lex, |b|, i, |b|)); }
    if (lg.Lua? || lg.Sql?) && b[i] == MINUS && Get(b, i + 1) == MINUS {
      if lg.Lua? {
        var o := LoopLuaOpen(b, i + 2);
        if o.Some? {
          var len := 2 + o.value.len;
          return Some(Comment(lex.(state := Raw(LuaTerm(o.value.level), true)), i + len, i, i + len));
        }
      }
      return Some(Comment(lex, |b|, i, |b|));
    }
    if lg.Lua? && b[i] == LBRACKET {
      var o := LoopLuaOpen(b, i);
      if o.Some? {
        var len := o.value.len;
        return Some(Literal(lex.(state := Raw(LuaTerm(o.value.level), false)), i + len, i, i + len));
      }
    }
    return None;
  }

  method TakeRawOpen(lg: Lang, lex: Lexer, b: Line, i: nat) returns (t: Option<Token>)
    requires i < |b|
    ensures t == RawOpenToken(lg, lex, b, i)
  {
    var c := b[i];
    if lg.Rust? && (c == 0x72 || c == 0x62 || c == 0x63) && !(i > 0 && IsIdent(b[i - 1])) {
      var o := LoopRustOpen(b, i);
      if o.Some? {
        var term, len := [DQ] + seq(o.value.hashes, _ => HASH), o.value.len;
        return Some(Literal(lex.(state := Raw(term, false)), i + len, i, i + len));
      }
    }
    if lg.C? && c == DQ && i > 0 && b[i - 1] == 0x52 {
      var o := LoopCppOpen(b, i);
      if o.Some? {
        return Some(Literal(lex.(state := Raw(o.value.term, false)), i + o.value.len, i, i + o.value.len));
      }
    }
    if lg.CSharp? && c == DQ {
      var o := LoopCsOpen(b, i);
      if o.Some? {
        var s := CsStr(o.value.quotes, o.value.dollars);
        return Some(Literal(lex.(state := s), i + o.value.len, i, i + o.value.len));
      }
    }
    return None;
  }

  method TakeQuote(lg: Lang, lex: Lexer, b: Line, i: nat) returns (t: Token)
    requires i < |b|
    ensures t == QuoteToken(lg, lex, b, i)
  {
    var c := b[i];
    var fstr := LoopPrefix(lg, b, i);
    if (c == DQ || c == SQ) && Triple(lg, c) && Get(b, i + 1) == c && Get(b, i + 2) == c {
      return Literal(lex.(state := Multi(c), fstr := fstr), i + 3, i, i + 3);
    }
    if c == BACKTICK && BacktickMulti(lg) {
      return Literal(lex.(state := Multi(BACKTICK), fstr := false), i + 1, i, i + 1);
    }
    if lg.Shell? && c == BACKSLASH { return Moved(lex, i + 2); }
    if lg.Rust? && c == SQ {
      var len := LoopRustChar(b, i);
      return if len.Some? then Literal(lex, i + len.value, i, i + len.value) else Moved(lex, i + 1);
    }
    var number := LoopNumber(b, i);
    if lg.C? && c == SQ && number { return Moved(lex, i + 1); }
    var allowed := LoopRegexAllowed(lg, b, i);
    if c == SLASH && allowed {
      var end := LoopRegexEnd(b, i);
      return if end.Some? then Literal(lex, end.value, i, end.value) else Moved(lex, i + 1);
    }
    if lg.Yaml? && (c == DQ || c == SQ) && YamlPlain(b, i) { return Moved(lex, i + 1); }
    if c == DQ || c == SQ || c == BACKTICK { return Literal(lex.(state := Str(c), fstr := fstr), i + 1, i, i + 1); }
    t := Moved(lex, i + 1);
  }

  /** Code outside strings and comments: the first branch that applies. */
  method TakeCode(lg: Lang, lex: Lexer, b: Line, i: nat) returns (t: Token)
    requires i < |b|
    ensures t == CodeToken(lg, lex, b, i)
  {
    var o := FrameToken(lex, b, i);
    if o.None? { o := CommentToken(lg, lex, b, i); }
    if o.None? { o := TakeRubyPhp(lg, lex, b, i); }
    if o.None? { o := TakeDash(lg, lex, b, i); }
    if o.None? { o := TakeRawOpen(lg, lex, b, i); }
    if o.Some? { return o.value; }
    t := TakeQuote(lg, lex, b, i);
  }

  /** One turn of the lexer's main loop. */
  method TakeToken(lg: Lang, lex: Lexer, b: Line, i: nat) returns (t: Token)
    requires i < |b|
    ensures t == NextToken(lg, lex, b, i)
  {
    match lex.state
    case Code => t := TakeCode(lg, lex, b, i);
    case Block(_) => t := TakeBlock(lg, lex, b, i);
    case Raw(_, _) => t := TakeRaw(lex, b, i);
    case Percent(_, _, _, _) => t := TakePercent(lex, b, i);
    case CsStr(_, _) => t := TakeString(lg, lex, b, i);
    case Str(_) => t := TakeString(lg, lex, b, i);
    case Multi(_) => t := TakeString(lg, lex, b, i);
    case LineBlock => t := Moved(lex, |b|);
    case Heredocs(_) => t := Moved(lex, |b|);
  }
}
