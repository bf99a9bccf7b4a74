/** Keys of the persistent parse cache: versions, language, content hash and an
    optional path salt, flattened into one string. */
module CacheKeys {
  import opened Types
  import Codec

  const EXTRACTOR_VERSION: nat := 7

  const COLON: byte := 0x3A
  const SHA_LEN: nat := 16

  function Ascii(s: string): (t: Text)
    requires forall c :: c in s ==> c < 128 as char
    ensures |t| == |s| && forall i :: 0 <= i < |s| ==> t[i] == s[i] as int
  {
    var code: int -> byte := i => if 0 <= i < |s| && s[i] < 128 as char then s[i] as int else 0;
    assert forall i :: 0 <= i < |s| ==> s[i] in s;
    seq(|s|, code)
  }

  function Decimal(n: nat): (t: Text)
    ensures t != [] && forall b :: b in t ==> Digit(b)
  {
    if n < 10 then [0x30 + n] else Decimal(n / 10) + [0x30 + n % 10]
  }

  predicate Digit(b: byte) { 0x30 <= b <= 0x39 }

  predicate NotColon(b: byte) { b != COLON }

  function LanguageName(l: Language): string {
    match l
    case Python => "python" case Go => "go" case Java => "java" case Rust => "rust"
    case TypeScript => "typescript" case Tsx => "tsx" case JavaScript => "javascript"
    case C => "c" case Cpp => "cpp" case ObjC => "objc" case ObjCpp => "objcpp"
    case Swift => "swift" case Php => "php" case Vue => "vue" case Dart => "dart"
    case CSharp => "csharp" case VisualBasic => "vb" case Kotlin => "kotlin"
    case Shell => "shell" case Ruby => "ruby" case Lua => "lua" case Proto => "proto"
  }

  predicate Lower(s: string) { forall c :: c in s ==> 'a' <= c <= 'z' }

  function NameBytes(l: Language): (t: Text)
    ensures forall b :: b in t ==> NotColon(b)
  {
    NamesAreLower(l);
    Ascii(LanguageName(l))
  }

  function Prefix(extractor: nat, format: nat): Text {
    [0x78] + (Decimal(extractor) + AfterExtractor(format))
  }

  function AfterExtractor(format: nat): Text { [0x2D, 0x66] + (Decimal(format) + [COLON]) }

  function OurPrefix(): Text { Prefix(EXTRACTOR_VERSION, Codec.CACHE_FORMAT_VERSION) }

  function Tail(sha: Text, salt: Option<Text>): Text {
    sha + (match salt case None => [] case Some(t) => [COLON] + t)
  }

  function Key(l: Language, sha: Text, salt: Option<Text>): Text {
    OurPrefix() + (NameBytes(l) + ([COLON] + Tail(sha, salt)))
  }

  // ------------------------------------------------------------------

  lemma NamesAreLower(l: Language)
    ensures Lower(LanguageName(l))
  {}

  lemma RunLength(ok: byte -> bool, a: Text, u: Text)
    requires u != [] && !ok(u[0]) && forall x :: x in a ==> ok(x)
    ensures (forall i :: 0 <= i < |a| ==> ok((a + u)[i])) && !ok((a + u)[|a|])
  {
    assert forall i :: 0 <= i < |a| ==> (a + u)[i] == a[i] && a[i] in a;
  }

  /** Runs of one class of bytes end where the other text's run ends. */
  lemma SplitUnique(ok: byte -> bool, a: Text, u: Text, b: Text, v: Text)
    requires a + u == b + v && u != [] && v != [] && !ok(u[0]) && !ok(v[0])
    requires (forall x :: x in a ==> ok(x)) && (forall x :: x in b ==> ok(x))
    ensures a == b && u == v
  {
    RunLength(ok, a, u);
    RunLength(ok, b, v);
    var t := a + u;
    assert t == b + v && !ok(t[|a|]) && !ok(t[|b|]);
    assert |a| == |b|;
    assert a == (a + u)[..|a|] && b == (b + v)[..|a|];
    assert u == (a + u)[|a|..] && v == (b + v)[|a|..];
  }

  lemma {:induction false} DecimalInjective(m: nat, n: nat)
    requires Decimal(m) == Decimal(n)
    ensures m == n
  {
    if m >= 10 && n >= 10 {
      var a, b := Decimal(m / 10), Decimal(n / 10);
      assert a == (a + [0x30 + m % 10])[..|Decimal(m)| - 1];
      assert b == (b + [0x30 + n % 10])[..|Decimal(n)| - 1];
      assert Decimal(m)[|Decimal(m)| - 1] == 0x30 + m % 10 && Decimal(n)[|Decimal(n)| - 1] == 0x30 + n % 10;
      DecimalInjective(m / 10, n / 10);
    }
  }

  lemma Unwrap(head: Text, d: Text, u: Text, more: Text)
    ensures ((head + (d + u)) + more)[|head|..] == d + (u + more)
  {}

  /** A key starts with the prefix of the versions that wrote it and of no
      others. */
  lemma PrefixSeparates(e: nat, f: nat, e': nat, f': nat, rest: Text)
    requires Prefix(e, f) <= Prefix(e', f') + rest
    ensures e == e' && f == f'
  {
    var k := Prefix(e', f') + rest;
    var more := k[|Prefix(e, f)|..];
    assert k == Prefix(e, f) + more;
    var u, u' := AfterExtractor(f), AfterExtractor(f');
    Unwrap([0x78], Decimal(e), u, more);
    Unwrap([0x78], Decimal(e'), u', rest);
    SplitUnique(Digit, Decimal(e), u + more, Decimal(e'), u' + rest);
    DecimalInjective(e, e');
    Unwrap([0x2D, 0x66], Decimal(f), [COLON], more);
    Unwrap([0x2D, 0x66], Decimal(f'), [COLON], rest);
    SplitUnique(Digit, Decimal(f), [COLON] + more, Decimal(f'), [COLON] + rest);
    DecimalInjective(f, f');
  }

  /** Distinct languages have distinct names. */
  function LanguageOf(s: string): Option<Language> {
    if |s| <= 2 then
      if s == "go" then Some(Go) else if s == "c" then Some(C) else if s == "vb" then Some(VisualBasic) else None
    else if |s| == 3 then
      if s == "tsx" then Some(Tsx) else if s == "cpp" then Some(Cpp) else if s == "php" then Some(Php)
      else if s == "vue" then Some(Vue) else if s == "lua" then Some(Lua) else None
    else if |s| == 4 then
      if s == "java" then Some(Java) else if s == "rust" then Some(Rust) else if s == "objc" then Some(ObjC)
      else if s == "dart" then Some(Dart) else if s == "ruby" then Some(Ruby) else None
    else if |s| == 5 then
      if s == "swift" then Some(Swift) else if s == "shell" then Some(Shell)
      else if s == "proto" then Some(Proto) else None
    else if |s| == 6 then
      if s == "python" then Some(Python) else if s == "objcpp" then Some(ObjCpp)
      else if s == "csharp" then Some(CSharp) else if s == "kotlin" then Some(Kotlin) else None
    else if s == "typescript" then Some(TypeScript) else if s == "javascript" then Some(JavaScript) else None
  }

  lemma NamesDiffer(l: Language)
    ensures LanguageOf(LanguageName(l)) == Some(l)
  {}

  lemma NameBytesInjective(l: Language, m: Language)
    requires NameBytes(l) == NameBytes(m)
    ensures l == m
  {
    NamesAreLower(l);
    NamesAreLower(m);
    var a, b := LanguageName(l), LanguageName(m);
    assert |a| == |b|;
    forall i | 0 <= i < |a| ensures a[i] == b[i] {
      assert NameBytes(l)[i] == a[i] as int && NameBytes(m)[i] == b[i] as int;
    }
    assert a == b;
    NamesDiffer(l);
    NamesDiffer(m);
  }

  lemma TailInjective(sha: Text, salt: Option<Text>, sha': Text, salt': Option<Text>)
    requires |sha| == |sha'| && Tail(sha, salt) == Tail(sha', salt')
    ensures sha == sha' && salt == salt'
  {
    var t := Tail(sha, salt);
    assert t[..|sha|] == sha && Tail(sha', salt')[..|sha|] == sha';
    assert t[|sha|..] == match salt case None => [] case Some(x) => [COLON] + x;
    assert Tail(sha', salt')[|sha|..] == match salt' case None => [] case Some(x) => [COLON] + x;
    if salt.Some? && salt'.Some? {
      assert salt.value == t[|sha|..][1..] == salt'.value;
    }
  }

  /** One key, one language, hash and salt: nothing is lost in flattening. */
  lemma KeyInjective(l: Language, sha: Text, salt: Option<Text>, l': Language, sha': Text, salt': Option<Text>)
    requires |sha| == |sha'| && Key(l, sha, salt) == Key(l', sha', salt')
    ensures l == l' && sha == sha' && salt == salt'
  {
    var p := OurPrefix();
    var u, u' := [COLON] + Tail(sha, salt), [COLON] + Tail(sha', salt');
    assert Key(l, sha, salt)[|p|..] == NameBytes(l) + u;
    assert Key(l', sha', salt')[|p|..] == NameBytes(l') + u';
    SplitUnique(NotColon, NameBytes(l), u, NameBytes(l'), u');
    NameBytesInjective(l, l');
    assert u[1..] == Tail(sha, salt) && u'[1..] == Tail(sha', salt');
    TailInjective(sha, salt, sha', salt');
  }

  lemma KeyHasOurPrefix(l: Language, sha: Text, salt: Option<Text>)
    ensures OurPrefix() <= Key(l, sha, salt)
  {}
}
