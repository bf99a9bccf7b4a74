/** What the recognisers of the comment/string lexer recognise, said without
    their scanning loops: which text is read as which opener, and where regex
    literals and interpolations end. */
module MaskOpeners {
  import opened Types
  import opened MaskLang

  // ------------------------------------------------------------ regex literals

  /** Counted from `s`, the byte at `j` follows an odd run of backslashes. */
  predicate Escaped(b: Line, s: nat, j: nat)
    decreases j
  {
    s < j <= |b| && b[j - 1] == BACKSLASH && !Escaped(b, s, j - 1)
  }

  /** An unescaped `[` before `j` has no unescaped `]` after it. */
  predicate InClass(b: Line, s: nat, j: nat)
    requires j <= |b|
  {
    exists k :: s <= k < j && OpensClass(b, s, k) && forall m :: k < m < j ==> !ClosesClass(b, s, m)
  }

  predicate OpensClass(b: Line, s: nat, k: nat)
    requires k < |b|
  { b[k] == LBRACKET && !Escaped(b, s, k) }

  predicate ClosesClass(b: Line, s: nat, k: nat)
    requires k < |b|
  { b[k] == RBRACKET && !Escaped(b, s, k) }

  /** A slash that can end a literal whose body starts at `s`. */
  predicate EndsRegex(b: Line, s: nat, k: nat) {
    s <= k < |b| && b[k] == SLASH && !Escaped(b, s, k) && !InClass(b, s, k)
  }

  predicate FirstEnd(b: Line, s: nat, k: nat) {
    EndsRegex(b, s, k) && forall m :: s <= m < k ==> !EndsRegex(b, s, m)
  }

  /** A literal with body from `s` ends at `e`, flags included. */
  ghost predicate LiteralEnds(b: Line, s: nat, e: nat) {
    e > s + 1 && exists k: nat :: FirstEnd(b, s, k) && e == RunOn(b, k + 1, IsAlpha)
  }

  /** The literal ends after the first slash that is neither escaped nor in a
      character class, and after the flags that follow; `//` is none. */
  lemma RegexEndIff(b: Line, i: nat, e: nat)
    ensures RegexEnd(b, i) == Some(e) <==> LiteralEnds(b, i + 1, e)
  {
    BodyEnds(b, i, i + 1, i + 1, false, e);
  }

  lemma ClassStep(b: Line, s: nat, j: nat)
    requires s <= j < |b| && !Escaped(b, s, j)
    ensures InClass(b, s, j + 1) <==> b[j] == LBRACKET || (b[j] != RBRACKET && InClass(b, s, j))
  {
    if b[j] == LBRACKET {
      assert OpensClass(b, s, j);
    } else if b[j] != RBRACKET && InClass(b, s, j) {
      var k :| s <= k < j && OpensClass(b, s, k) && forall m :: k < m < j ==> !ClosesClass(b, s, m);
      assert forall m :: k < m < j + 1 ==> !ClosesClass(b, s, m);
    } else if b[j] == RBRACKET {
      assert ClosesClass(b, s, j);
    }
  }

  lemma EscapedStep(b: Line, s: nat, j: nat)
    requires s <= j < |b| && b[j] == BACKSLASH && !Escaped(b, s, j)
    ensures Escaped(b, s, j + 1) && (j + 2 <= |b| ==> !Escaped(b, s, j + 2))
    ensures j + 2 <= |b| ==> (InClass(b, s, j + 2) <==> InClass(b, s, j))
  {
    if j + 2 <= |b| {
      if k :| s <= k < j && OpensClass(b, s, k) && forall m :: k < m < j ==> !ClosesClass(b, s, m) {
        assert forall m :: k < m < j + 2 ==> !ClosesClass(b, s, m);
      }
    }
  }

  lemma {:induction false} BodyEnds(b: Line, i: nat, s: nat, j: nat, inClass: bool, e: nat)
    requires s == i + 1 <= j && (j <= |b| ==> !Escaped(b, s, j) && (inClass <==> InClass(b, s, j)))
    requires forall m :: s <= m < j ==> !EndsRegex(b, s, m)
    ensures RegexBody(b, i, j, inClass) == Some(e) <==> LiteralEnds(b, s, e)
    decreases |b| - j
  {
    if j < |b| {
      if b[j] == BACKSLASH {
        EscapedStep(b, s, j);
        BodyEnds(b, i, s, j + 2, inClass, e);
      } else if b[j] == SLASH && !inClass {
        assert FirstEnd(b, s, j);
      } else {
        ClassStep(b, s, j);
        BodyEnds(b, i, s, j + 1, b[j] == LBRACKET || (b[j] != RBRACKET && inClass), e);
      }
    }
  }

  // ------------------------------------------------------------ interpolations

  /** Opening minus closing braces from `j` up to `k`. */
  function Excess(b: Line, j: nat, k: nat): int
    requires j <= k <= |b|
  {
    if k == j then 0
    else Excess(b, j, k - 1) + (if b[k - 1] == LBRACE then 1 else if b[k - 1] == RBRACE then -1 else 0)
  }

  lemma {:induction false} ExcessFrom(b: Line, j: nat, k: nat)
    requires j < k <= |b|
    ensures Excess(b, j, k) == Excess(b, j, j + 1) + Excess(b, j + 1, k)
  {
    if j + 1 < k { ExcessFrom(b, j, k - 1); }
  }

  /** The brace that balances an open one: the first closing brace after which
      more are closed than opened, or the end of the line. */
  lemma {:induction false} MatchingBraceBalances(b: Line, j: nat, d: nat)
    requires j <= |b|
    ensures var e := MatchingBrace(b, j, d);
      && (e < |b| ==> b[e] == RBRACE && Excess(b, j, e) + d == 0)
      && (forall k :: j <= k <= e ==> Excess(b, j, k) + d >= 0)
      && (forall k :: j <= k < e && b[k] == RBRACE ==> Excess(b, j, k) + d > 0)
    decreases |b| - j
  {
    var e := MatchingBrace(b, j, d);
    if j < |b| && !(b[j] == RBRACE && d == 0) {
      var d': nat := if b[j] == LBRACE then d + 1 else if b[j] == RBRACE then d - 1 else d;
      assert d' == d + Excess(b, j, j + 1);
      MatchingBraceBalances(b, j + 1, d');
      forall k | j < k <= |b| ensures Excess(b, j, k) + d == Excess(b, j + 1, k) + d' { ExcessFrom(b, j, k); }
    }
  }

  predicate OpensInterp(b: Line, php: bool, s: nat, o: nat) {
    s <= o && o + 1 < |b| && InterpOpens(b, o, php) && !Escaped(b, s, o)
  }

  predicate FirstInterp(b: Line, php: bool, s: nat, o: nat) {
    OpensInterp(b, php, s, o) && forall p :: s <= p < o ==> !OpensInterp(b, php, s, p)
  }

  function InterpStart(b: Line, php: bool, o: nat): (s: nat)
    requires o + 1 < |b| && InterpOpens(b, o, php)
    ensures s <= |b|
  { if php && b[o] == LBRACE then o + 1 else o + 2 }

  /** From `s` on, the first range belongs to the first unescaped opener and
      runs to its matching brace; the others follow it.  Without an opener
      there is none. */
  lemma InterpByRange(b: Line, php: bool, s: nat)
    ensures forall o: nat :: FirstInterp(b, php, s, o) ==>
      var from := InterpStart(b, php, o);
      var to := MatchingBrace(b, from, 0);
      HeredocInterp(b, php, s) == [(from, to)] + HeredocInterp(b, php, to + 1)
    ensures (forall o: nat :: !OpensInterp(b, php, s, o)) ==> HeredocInterp(b, php, s) == []
  {
    InterpFrom(b, php, s, s);
  }

  lemma {:induction false} InterpFrom(b: Line, php: bool, s: nat, i: nat)
    requires s <= i && !Escaped(b, s, i) && forall p :: s <= p < i ==> !OpensInterp(b, php, s, p)
    ensures forall o: nat :: FirstInterp(b, php, s, o) ==>
      var from := InterpStart(b, php, o);
      var to := MatchingBrace(b, from, 0);
      HeredocInterp(b, php, i) == [(from, to)] + HeredocInterp(b, php, to + 1)
    ensures (forall o: nat :: !OpensInterp(b, php, s, o)) ==> HeredocInterp(b, php, i) == []
    decreases |b| - i
  {
    if i + 1 < |b| {
      if b[i] == BACKSLASH {
        assert Escaped(b, s, i + 1) && !Escaped(b, s, i + 2);
        InterpFrom(b, php, s, i + 2);
      } else if InterpOpens(b, i, php) {
        assert FirstInterp(b, php, s, i);
        forall o: nat | FirstInterp(b, php, s, o) ensures o == i {}
      } else {
        InterpFrom(b, php, s, i + 1);
      }
    }
  }

  // --------------------------------------------------------------- raw strings

  predicate DelimiterByte(c: byte) { c != SPACE && c != LPAREN && c != RPAREN && c != BACKSLASH && c != DQ }

  /** `b` has the delimiter `d` and a parenthesis after the quote at `i`. */
  predicate Delimited(b: Line, i: nat, d: Line) {
    |d| <= 17 && (forall c :: c in d ==> DelimiterByte(c)) && StartsAt(b, i + 1, d + [LPAREN])
  }

  /** `R"delim(` is read exactly for delimiters of at most 17 bytes, none of
      them a blank, parenthesis, backslash or quote; `)delim"` closes it. */
  lemma CppRawOpenIff(b: Line, i: nat, o: CppOpen)
    requires i < |b|
    ensures CppRawOpen(b, i) == Some(o) <==>
      exists d: Line :: Delimited(b, i, d) && o == CppOpen([RPAREN] + d + [DQ], |d| + 2)
  {
    if CppRawOpen(b, i) == Some(o) { DelimiterRead(b, i); }
    if d: Line :| Delimited(b, i, d) && o == CppOpen([RPAREN] + d + [DQ], |d| + 2) { DelimitedReads(b, i, d); }
  }

  lemma DelimiterRead(b: Line, i: nat)
    requires i < |b| && CppRawOpen(b, i).Some?
    ensures var d := b[i + 1..i + CppRawOpen(b, i).value.len - 1];
      Delimited(b, i, d) && CppRawOpen(b, i).value == CppOpen([RPAREN] + d + [DQ], |d| + 2)
  {
    DelimiterEnds(b, i, i + 1);
    var j := CppDelimiter(b, i, i + 1).value;
    assert b[i + 1..j + 1] == b[i + 1..j] + [LPAREN];
  }

  lemma DelimitedReads(b: Line, i: nat, d: Line)
    requires i < |b| && Delimited(b, i, d)
    ensures CppRawOpen(b, i) == Some(CppOpen([RPAREN] + d + [DQ], |d| + 2))
  {
    var j := i + 1 + |d|;
    var t := b[i + 1..j + 1];
    assert t == d + [LPAREN];
    forall k | i + 1 <= k < j ensures DelimiterByte(b[k]) {
      assert t[k - (i + 1)] == d[k - (i + 1)] && d[k - (i + 1)] in d;
    }
    assert b[j] == t[|d|] == LPAREN;
    DelimiterEnds(b, i, i + 1);
    assert CppDelimiter(b, i, i + 1) == Some(j);
    assert b[i + 1..j] == t[..|d|] == d;
  }

  /** The delimiter scan stops at the first parenthesis, refused byte or limit. */
  lemma {:induction false} DelimiterEnds(b: Line, i: nat, j: nat)
    requires i < j <= |b| && j - i <= 18
    ensures var r := CppDelimiter(b, i, j);
      && (r.Some? ==> j <= r.value <= |b| && r.value - i <= 18 && forall k :: j <= k < r.value ==> DelimiterByte(b[k]))
      && (forall e :: j <= e < |b| && e - i <= 18 && b[e] == LPAREN && (forall k :: j <= k < e ==> DelimiterByte(b[k]))
           ==> r == Some(e))
    decreases |b| - j
  {
    if j < |b| && j - i <= 17 && DelimiterByte(b[j]) { DelimiterEnds(b, i, j + 1); }
  }

  /** `b` reads `prefix` of `$` and `@` before `i` and `n` quotes from there. */
  predicate CsText(b: Line, i: nat, prefix: Line, n: nat) {
    && |prefix| <= i <= |b| && |prefix| <= 16 && 1 <= n <= |b| - i
    && b[i - |prefix|..i] == prefix && (forall c :: c in prefix ==> PrefixMark(c))
    && (i > |prefix| ==> !PrefixMark(b[i - |prefix| - 1]) && !IsIdent(b[i - |prefix| - 1]))
    && (forall k :: i <= k < i + n ==> b[k] == DQ) && (i + n < |b| ==> b[i + n] != DQ)
  }

  /** How a C# opener reads: three or more quotes open a raw string with as many
      interpolation braces as dollars, fewer after an `@` a verbatim one. */
  lemma CsOpenerReads(b: Line, i: nat, prefix: Line, n: nat)
    requires CsText(b, i, prefix, n)
    ensures b[i] == DQ
    ensures var dollars := multiset(prefix)[DOLLAR];
      CsStringOpen(b, i) ==
        if n >= 3 then Some(CsOpen(n, dollars, n))
        else if AT in prefix then Some(CsOpen(0, if dollars > 1 then 1 else dollars, 1))
        else None
  {
    RunOnEnds(b, i, i + n, c => c == DQ);
    var s := i - |prefix|;
    forall k | s <= k < i ensures PrefixMark(b[k]) {
      assert b[s..i][k - s] == b[k] && prefix[k - s] in prefix;
    }
    BackUptoEnds(b, i, s, 16, PrefixMark);
  }

  lemma {:induction false} RunOnEnds(b: Line, i: nat, e: nat, ok: byte -> bool)
    requires i <= e <= |b| && (forall k :: i <= k < e ==> ok(b[k])) && (e < |b| ==> !ok(b[e]))
    ensures RunOn(b, i, ok) == e
    decreases e - i
  {
    if i < e { RunOnEnds(b, i + 1, e, ok); }
  }

  lemma {:induction false} BackUptoEnds(b: Line, i: nat, s: nat, most: nat, ok: byte -> bool)
    requires s <= i <= |b| && i - s <= most && (forall k :: s <= k < i ==> ok(b[k])) && (s > 0 ==> !ok(b[s - 1]))
    ensures RunBackUpto(b, i, most, ok) == s
    decreases i
  {
    if s < i { BackUptoEnds(b, i - 1, s, most - 1, ok); }
  }

  // ------------------------------------------------------------------ heredocs

  function Width(q: Option<byte>): nat { if q.Some? then 1 else 0 }

  predicate Word(id: Line) { id != [] && !IsDigit(id[0]) && forall k :: 0 <= k < |id| ==> IsIdent(id[k]) }

  /** From `j` to `e`, `b` reads the identifier `id`, bare or between quotes. */
  predicate IdentText(b: Line, j: nat, q: Option<byte>, id: Line, e: nat) {
    var s := j + Width(q);
    && Word(id) && StartsAt(b, s, id) && e == s + |id| + Width(q) && e <= |b|
    && (q.Some? ==> (q.value == SQ || q.value == DQ || q.value == BACKTICK) && b[j] == q.value && b[e - 1] == q.value)
    && (q.None? && e < |b| ==> !IsIdent(b[e]))
  }

  lemma IdentReads(b: Line, j: nat, q: Option<byte>, id: Line, e: nat)
    requires IdentText(b, j, q, id, e)
    ensures HeredocIdent(b, j) == Some(Ident(id, q != Some(SQ), e))
    ensures b[j] == if q.Some? then q.value else id[0]
  {
    var s := j + Width(q);
    var t := b[s..s + |id|];
    assert t == id;
    forall k | s <= k < s + |id| ensures b[k] == id[k - s] && IsIdent(b[k]) { assert t[k - s] == b[k]; }
    RunOnEnds(b, s, s + |id|, IsIdent);
  }

  /** Ruby `<<~ID` and `<<-ID` open a heredoc wherever they stand, bare `<<ID`
      only if quoted or in upper case and not glued to an operand; single quotes
      keep it from interpolating. */
  lemma RubyHeredocReads(b: Line, i: nat, flag: bool, q: Option<byte>, id: Line, e: nat)
    requires i + 2 < |b| && flag == (b[i + 2] == TILDE || b[i + 2] == MINUS)
    requires IdentText(b, if flag then i + 3 else i + 2, q, id, e)
    ensures RubyHeredocOpen(b, i) ==
      if !flag && ((q.None? && !IsUpper(id[0])) || (i > 0 && IsIdent(b[i - 1]))) then None
      else Some((e - i, Heredoc(id, flag, q != Some(SQ), false)))
  {
    IdentReads(b, if flag then i + 3 else i + 2, q, id, e);
  }

  /** PHP `<<<ID` opens a heredoc exactly if the identifier ends the line. */
  lemma PhpHeredocReads(b: Line, i: nat, j: nat, q: Option<byte>, id: Line, e: nat)
    requires i + 3 <= j <= |b| && (forall k :: i + 3 <= k < j ==> Blank(b[k])) && IdentText(b, j, q, id, e)
    ensures PhpHeredocOpen(b, i) ==
      if AllWhite(b[e..]) then Some((e - i, Heredoc(id, true, q != Some(SQ), true))) else None
  {
    IdentReads(b, j, q, id, e);
    RunOnEnds(b, i + 3, j, Blank);
  }

  /** Nothing else reads as an identifier. */
  lemma IdentIsText(b: Line, j: nat)
    requires HeredocIdent(b, j).Some?
    ensures exists q :: IdentText(b, j, q, HeredocIdent(b, j).value.term, HeredocIdent(b, j).value.end)
  {
    var id := HeredocIdent(b, j).value;
    var q := Get(b, j);
    var quoted := j < |b| && (q == SQ || q == DQ || q == BACKTICK);
    assert IdentText(b, j, if quoted then Some(q) else None, id.term, id.end);
  }

  // ------------------------------------------------------ Ruby `%` literals

  /** After an operator, `%` opens a literal up to the partner of its
      delimiter, with any kind letter; `q`, `w`, `i` and `s` do not interpolate. */
  lemma PercentReads(b: Line, i: nat, kind: Line)
    requires i + 1 + |kind| < |b| && b[i] == PERCENT && PercentDelimiter(b[i + 1 + |kind|])
    requires kind == [] || (|kind| == 1 && kind[0] in PercentKinds() && b[i + 1] == kind[0])
    requires i > 0 ==> b[i - 1] in OperatorBytes()
    ensures var d := b[i + 1 + |kind|];
      RubyPercentOpen(b, i) ==
        Some(PercentOpen(2 + |kind|, d, CloseOf(d), kind == [] || kind[0] !in PlainKinds()))
  {
    AfterOperator(b, i);
    KindsAreLetters();
  }

  lemma AfterOperator(b: Line, i: nat)
    requires i <= |b| && (i > 0 ==> b[i - 1] in OperatorBytes())
    ensures RubyRegexAllowed(b, i)
  {
    assert i > 0 ==> !Blank(b[i - 1]);
    assert RunBack(b, i, Blank) == i;
  }

  lemma KindsAreLetters()
    ensures forall c :: c in PercentKinds() ==> IsAlpha(c)
  {}

  /** A remainder is no literal: not before a blank, a word or a number, and
      not as `%=` after an operand. */
  lemma RemainderStays(b: Line, i: nat)
    requires i + 1 < |b| && b[i] == PERCENT
    requires
      || Blank(b[i + 1]) || IsDigit(b[i + 1]) || (IsAlpha(b[i + 1]) && b[i + 1] !in PercentKinds())
      || (b[i + 1] == EQUALS && !RubyRegexAllowed(b, i))
    ensures RubyPercentOpen(b, i) == None
  {
    KindsAreLetters();
  }
}
