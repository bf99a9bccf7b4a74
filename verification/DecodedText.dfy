/** What the decoder lets through: texts are exactly the UTF-8 encodings of
    Unicode scalar values, and every payload it accepts can be written again. */
module DecodedText {
  import opened Types
  import opened Codec

  /** A Unicode scalar value: a code point that is no surrogate. */
  type Scalar = c: nat | c < 0x110000 && !(0xD800 <= c < 0xE000)

  function Tail(c: nat): byte { 0x80 + c % 0x40 }

  function Utf8Of(c: Scalar): (r: seq<byte>)
    ensures 1 <= |r| <= 4
  {
    if c < 0x80 then [c]
    else if c < 0x800 then [0xC0 + c / 0x40, Tail(c)]
    else if c < 0x10000 then [0xE0 + c / 0x40 / 0x40, Tail(c / 0x40), Tail(c)]
    else [0xF0 + c / 0x40 / 0x40 / 0x40, Tail(c / 0x40 / 0x40), Tail(c / 0x40), Tail(c)]
  }

  function Utf8OfAll(cs: seq<Scalar>): seq<byte> {
    if cs == [] then [] else Utf8Of(cs[0]) + Utf8OfAll(cs[1..])
  }

  lemma HeadOfScalar(c: Scalar, post: seq<byte>)
    ensures Utf8Head(Utf8Of(c) + post) == |Utf8Of(c)|
  {}

  /** Six more bits. */
  function Joined(high: nat, b: byte): nat { high * 0x40 + Low(b) }

  function Low(b: byte): nat { (b as int) % 0x40 }

  lemma Bits(high: nat, b: byte)
    ensures Joined(high, b) / 0x40 == high && (Cont(b) ==> Tail(Joined(high, b)) == b)
  {}

  /** The scalar value a well-formed head spells. */
  function ScalarAt(s: seq<byte>): (c: Scalar)
    requires Utf8Head(s) > 0
  {
    match Utf8Head(s)
    case 1 => s[0]
    case 2 => Joined(s[0] - 0xC0, s[1])
    case 3 => Joined(Joined(s[0] - 0xE0, s[1]), s[2])
    case _ => Joined(Joined(Joined(s[0] - 0xF0, s[1]), s[2]), s[3])
  }

  lemma HeadSpells(s: seq<byte>)
    requires Utf8Head(s) > 0
    ensures Utf8Of(ScalarAt(s)) == s[..Utf8Head(s)]
  {
    match Utf8Head(s)
    case 1 =>
    case 2 => Bits(s[0] - 0xC0, s[1]);
    case 3 =>
      Bits(s[0] - 0xE0, s[1]);
      Bits(Joined(s[0] - 0xE0, s[1]), s[2]);
    case _ =>
      Bits(s[0] - 0xF0, s[1]);
      Bits(Joined(s[0] - 0xF0, s[1]), s[2]);
      Bits(Joined(Joined(s[0] - 0xF0, s[1]), s[2]), s[3]);
  }

  lemma {:induction false} Spelled(s: seq<byte>) returns (cs: seq<Scalar>)
    requires ValidUtf8(s)
    ensures s == Utf8OfAll(cs)
  {
    if s == [] { return []; }
    var n := Utf8Head(s);
    var rest := Spelled(s[n..]);
    HeadSpells(s);
    cs := OneMore(s, n, ScalarAt(s), rest);
  }

  lemma {:induction false} OneMore(s: seq<byte>, n: nat, c: Scalar, rest: seq<Scalar>) returns (cs: seq<Scalar>)
    requires n <= |s| && Utf8Of(c) == s[..n] && Utf8OfAll(rest) == s[n..]
    ensures s == Utf8OfAll(cs)
  {
    cs := [c] + rest;
    assert cs[1..] == rest;
    assert s == s[..n] + s[n..];
  }

  lemma {:induction false} SpellingIsValid(cs: seq<Scalar>)
    ensures ValidUtf8(Utf8OfAll(cs))
  {
    if cs != [] {
      HeadOfScalar(cs[0], Utf8OfAll(cs[1..]));
      SpellingIsValid(cs[1..]);
      assert Utf8OfAll(cs)[|Utf8Of(cs[0])|..] == Utf8OfAll(cs[1..]);
    }
  }

  /** Texts pass exactly if they spell scalar values: no surrogates, no overlong
      forms, nothing past U+10FFFF. */
  lemma Utf8Iff(s: seq<byte>)
    ensures ValidUtf8(s) <==> exists cs :: s == Utf8OfAll(cs)
  {
    if ValidUtf8(s) { var cs := Spelled(s); }
    if cs :| s == Utf8OfAll(cs) { SpellingIsValid(cs); }
  }

  // --------------------------------------------------------- what is decoded

  /** All that a reader lets through satisfies `ok`. */
  ghost predicate Yields<T(!new)>(rd: Reader<T>, ok: T -> bool) {
    forall s :: rd(s).Got? ==> ok(rd(s).value)
  }

  lemma {:induction false} ManyYield<T(!new)>(s: seq<byte>, n: nat, rd: Reader<T>, ok: T -> bool)
    requires Yields(rd, ok) && ReadMany(s, n, rd).Got?
    ensures |ReadMany(s, n, rd).value| == n
    ensures forall x :: x in ReadMany(s, n, rd).value ==> ok(x)
    decreases n
  {
    if n > 0 { ManyYield(rd(s).rest, n - 1, rd, ok); }
  }

  lemma ListYields<T(!new)>(s: seq<byte>, rd: Reader<T>, ok: T -> bool)
    requires Yields(rd, ok) && ReadList(s, rd).Got?
    ensures |ReadList(s, rd).value| < U64 && forall x :: x in ReadList(s, rd).value ==> ok(x)
  {
    var n := ReadLen(s);
    ManyYield(n.rest, n.value, rd, ok);
  }

  lemma StringYields()
    ensures Yields(ReadString, EncodableText)
  {
    forall s | ReadString(s).Got? ensures EncodableText(ReadString(s).value) {
      var n := ReadLen(s);
      assert ReadString(s).value == n.rest[..n.value];
    }
  }

  predicate Fresh(s: CodeSymbol) { s.id == 0 && s.file == 0 && EncodableSymbol(s) }

  lemma SymbolYields()
    ensures Yields(ReadSymbol, Fresh)
  {
    StringYields();
    forall s | ReadSymbol(s).Got? ensures Fresh(ReadSymbol(s).value) {
      var name := ReadString(s);
      var tag := ReadByte(name.rest);
      var signature := ReadString(tag.rest);
      assert EncodableText(name.value) && EncodableText(signature.value);
    }
  }

  lemma CallYields()
    ensures Yields(ReadCall, EncodableCall)
  {
    StringYields();
    forall s | ReadCall(s).Got? ensures EncodableCall(ReadCall(s).value) {
      assert EncodableText(ReadString(s).value);
    }
  }

  /** Whatever bytes are decoded, the result can be encoded, carries no ids and
      comes back from its own encoding. */
  lemma DecodedIsEncodable(bytes: seq<byte>)
    requires Parsed(bytes).Ok?
    ensures var p := Parsed(bytes).value;
      Encodable(p) && ResetAll(p.symbols) == p.symbols && Parsed(ParsedBytes(p)) == Ok(p)
  {
    var p := Parsed(bytes).value;
    var s := bytes[2..][1..];
    assert ReadBody(s, bytes[2]) == Got(p, []);
    BodyYields(s, bytes[2]);
    assert ResetAll(p.symbols) == p.symbols by {
      forall i | 0 <= i < |p.symbols| ensures ResetIds(p.symbols[i]) == p.symbols[i] {
        assert p.symbols[i] in p.symbols && Fresh(p.symbols[i]);
      }
    }
    ParsedRoundTrip(p);
  }

  lemma BodyYields(s: seq<byte>, flags: byte)
    requires ReadBody(s, flags).Got?
    ensures Encodable(ReadBody(s, flags).value)
    ensures forall x :: x in ReadBody(s, flags).value.symbols ==> Fresh(x)
  {
    SymbolYields();
    StringYields();
    CallYields();
    var symbols := ReadList(s, ReadSymbol);
    ListYields(s, ReadSymbol, Fresh);
    var imports := ReadList(symbols.rest, ReadString);
    ListYields(symbols.rest, ReadString, EncodableText);
    ListYields(imports.rest, ReadCall, EncodableCall);
  }
}
