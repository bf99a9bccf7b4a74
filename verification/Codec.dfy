/** The binary encoding of parse results and file stamps in the persistent
    store, and the bounds-checked decoder.  Readers are specified as functions
    from the unread bytes to a value and the bytes that are left. */
module Codec {
  import opened Types

  const PARSED_MAGIC: byte := 0xA5
  const STAMP_MAGIC: byte := 0xA6
  const CACHE_FORMAT_VERSION: byte := 2

  datatype WireError = Truncated | BadVarint | OutOfRange | InvalidUtf8 | TrailingBytes | UnknownFormat

  datatype Result<+T> = Ok(value: T) | Err(error: WireError) {
    predicate IsFailure() { Err? }
    function PropagateFailure<U>(): Result<U> requires Err? { Err(error) }
    function Extract(): T requires Ok? { value }
  }

  /** A read either yields a value and the rest of the input, or fails. */
  datatype Read<+T> = Got(value: T, rest: seq<byte>) | Fail(error: WireError) {
    predicate IsFailure() { Fail? }
    function PropagateFailure<U>(): Read<U> requires Fail? { Fail(error) }
    function Extract(): (T, seq<byte>) requires Got? { (value, rest) }
  }

  type Reader<T> = seq<byte> -> Read<T>

  // ------------------------------------------------------------- UTF-8

  predicate Cont(b: byte) { 0x80 <= b < 0xC0 }

  /** Length of the well-formed UTF-8 sequence that starts `s`, or 0. */
  function Utf8Head(s: seq<byte>): (n: nat)
    ensures n <= |s| && n <= 4
  {
    if s == [] then 0
    else if s[0] < 0x80 then 1
    else if 0xC2 <= s[0] < 0xE0 then (if |s| >= 2 && Cont(s[1]) then 2 else 0)
    else if 0xE0 <= s[0] < 0xF0 then
      (if |s| >= 3 && Cont(s[1]) && Cont(s[2])
          && (s[0] == 0xE0 ==> s[1] >= 0xA0) && (s[0] == 0xED ==> s[1] < 0xA0) then 3 else 0)
    else if 0xF0 <= s[0] < 0xF5 then
      (if |s| >= 4 && Cont(s[1]) && Cont(s[2]) && Cont(s[3])
          && (s[0] == 0xF0 ==> s[1] >= 0x90) && (s[0] == 0xF4 ==> s[1] < 0x90) then 4 else 0)
    else 0
  }

  predicate ValidUtf8(s: seq<byte>) {
    s == [] || (Utf8Head(s) > 0 && ValidUtf8(s[Utf8Head(s)..]))
  }

  // ------------------------------------------------------------ writers

  function VarintBytes(v: nat): seq<byte> {
    if v < 0x80 then [v] else [v % 0x80 + 0x80] + VarintBytes(v / 0x80)
  }

  function StrBytes(s: Text): seq<byte> { VarintBytes(|s|) + s }

  function SymbolKindToU8(k: SymbolKind): (b: byte)
    ensures b < 12
  {
    match k
    case Function => 0 case Method => 1 case Class => 2 case Interface => 3
    case Struct => 4 case Enum => 5 case Trait => 6 case Type => 7
    case Const => 8 case Module => 9 case Field => 10 case Variable => 11
  }

  function SymbolKindFromU8(b: byte): SymbolKind {
    match b
    case 0 => Function case 1 => Method case 2 => Class case 3 => Interface
    case 4 => Struct case 5 => Enum case 6 => Trait case 7 => Type
    case 8 => Const case 9 => Module case 10 => Field case 11 => Variable
    case _ => Function
  }

  /** u32 subtraction and addition with wrap-around. */
  function WrapSub(a: u32, b: u32): u32 { if a >= b then a - b else a + U32 - b }
  function WrapAdd(a: u32, b: u32): u32 { if a + b < U32 then a + b else a + b - U32 }

  /** Spans are short, so the end is stored as a wrapping delta. */
  function SpanBytes(start: u32, end: u32): seq<byte> {
    VarintBytes(start) + VarintBytes(WrapSub(end, start))
  }

  function Tag(s: CodeSymbol): byte { SymbolKindToU8(s.kind) + if s.exported then 0x80 else 0 }

  function SymbolBytes(s: CodeSymbol): seq<byte> {
    StrBytes(s.name) + ([Tag(s)] + (StrBytes(s.signature) + SpanBytes(s.startLine, s.endLine)))
  }

  function CallBytes(c: (Text, u32)): seq<byte> { StrBytes(c.0) + VarintBytes(c.1) }

  function ManyBytes<T>(xs: seq<T>, enc: T -> seq<byte>): seq<byte> {
    if xs == [] then [] else enc(xs[0]) + ManyBytes(xs[1..], enc)
  }

  function ListBytes<T>(xs: seq<T>, enc: T -> seq<byte>): seq<byte> {
    VarintBytes(|xs|) + ManyBytes(xs, enc)
  }

  function Flags(p: ParsedFile): byte {
    (if p.partialParse then 1 else 0) + (if p.cFamilyRewrite then 2 else 0)
  }

  function BodyBytes(p: ParsedFile): seq<byte> {
    ListBytes(p.symbols, SymbolBytes) + (ListBytes(p.imports, StrBytes) + ListBytes(p.calls, CallBytes))
  }

  function ParsedBytes(p: ParsedFile): seq<byte> {
    [PARSED_MAGIC, CACHE_FORMAT_VERSION, Flags(p)] + BodyBytes(p)
  }

  // ------------------------------------------------------------ readers

  function ReadByte(s: seq<byte>): Read<byte> {
    if s == [] then Fail(Truncated) else Got(s[0], s[1..])
  }

  /** 128^k: the weight of the k-th group of seven bits. */
  function Scale(k: nat): (w: nat)
    ensures w >= 1
  { if k == 0 then 1 else 0x80 * Scale(k - 1) }

  /** Groups arrive least significant first; the tenth one is shifted by 63, so
      only its lowest bit survives in 64 bits, and an eleventh is never read. */
  function ReadVarintFrom(s: seq<byte>, k: nat, acc: u64): Read<u64>
    requires k <= 10
    decreases |s|
  {
    if k == 10 then Fail(BadVarint) else
    var (b, r) :- ReadByte(s);
    var v := (acc + b % 0x80 * Scale(k)) % U64;
    if b < 0x80 then Got(v, r) else ReadVarintFrom(r, k + 1, v)
  }

  function ReadVarint(s: seq<byte>): Read<u64> { ReadVarintFrom(s, 0, 0) }

  function ReadU32(s: seq<byte>): Read<u32> {
    var (v, r) :- ReadVarint(s);
    if v < U32 then Got(v, r) else Fail(OutOfRange)
  }

  /** A count is accepted only if that many bytes are left. */
  function ReadLen(s: seq<byte>): (r: Read<nat>)
    ensures r.Got? ==> r.value <= |r.rest|
  {
    var (v, r) :- ReadVarint(s);
    if v > |r| then Fail(Truncated) else Got(v, r)
  }

  function ReadString(s: seq<byte>): Read<Text> {
    var (n, r) :- ReadLen(s);
    if ValidUtf8(r[..n]) then Got(r[..n], r[n..]) else Fail(InvalidUtf8)
  }

  function ReadSpan(s: seq<byte>): Read<(u32, u32)> {
    var (start, r) :- ReadU32(s);
    var (delta, r2) :- ReadU32(r);
    Got((start, WrapAdd(start, delta)), r2)
  }

  function MakeSymbol(name: Text, tag: byte, signature: Text, span: (u32, u32)): CodeSymbol {
    CodeSymbol(0, 0, name, SymbolKindFromU8(tag % 0x80), signature, span.0, span.1, tag >= 0x80)
  }

  function ReadSymbol(s: seq<byte>): Read<CodeSymbol> {
    var (name, r0) :- ReadString(s);
    var (tag, r1) :- ReadByte(r0);
    var (signature, r2) :- ReadString(r1);
    var (span, r3) :- ReadSpan(r2);
    Got(MakeSymbol(name, tag, signature, span), r3)
  }

  function ReadCall(s: seq<byte>): Read<(Text, u32)> {
    var (callee, r) :- ReadString(s);
    var (line, r2) :- ReadU32(r);
    Got((callee, line), r2)
  }

  function ReadMany<T>(s: seq<byte>, n: nat, rd: Reader<T>): Read<seq<T>>
    decreases n
  {
    if n == 0 then Got([], s) else
    var (x, r) :- rd(s);
    var (xs, r2) :- ReadMany(r, n - 1, rd);
    Got([x] + xs, r2)
  }

  function ReadList<T>(s: seq<byte>, rd: Reader<T>): Read<seq<T>> {
    var (n, r) :- ReadLen(s);
    ReadMany(r, n, rd)
  }

  function ReadBody(s: seq<byte>, flags: byte): Read<ParsedFile> {
    var (symbols, r0) :- ReadList(s, ReadSymbol);
    var (imports, r1) :- ReadList(r0, ReadString);
    var (calls, r2) :- ReadList(r1, ReadCall);
    Got(ParsedFile(symbols, imports, calls, flags % 2 == 1, flags / 2 % 2 == 1), r2)
  }

  /** Both payloads open with a magic byte and the format version. */
  function ReadMagic(s: seq<byte>, magic: byte): Read<byte> {
    var (m, r0) :- ReadByte(s);
    if m != magic then Fail(UnknownFormat) else
    var (v, r1) :- ReadByte(r0);
    if v != CACHE_FORMAT_VERSION then Fail(UnknownFormat) else Got(v, r1)
  }

  function ReadFlagsAndBody(s: seq<byte>): Read<ParsedFile> {
    var (flags, r) :- ReadByte(s);
    ReadBody(r, flags)
  }

  function ReadParsed(s: seq<byte>): Read<ParsedFile> {
    var (_, r) :- ReadMagic(s, PARSED_MAGIC);
    ReadFlagsAndBody(r)
  }

  function Finish<T>(r: Read<T>): Result<T> {
    match r
    case Fail(e) => Err(e)
    case Got(v, rest) => if rest == [] then Ok(v) else Err(TrailingBytes)
  }

  function Parsed(bytes: seq<byte>): Result<ParsedFile> { Finish(ReadParsed(bytes)) }

  // -------------------------------------------------------- round trips

  /** Everything a Rust value of this type satisfies by construction. */
  predicate EncodableText(s: Text) { |s| < U64 && ValidUtf8(s) }

  predicate EncodableSymbol(s: CodeSymbol) { EncodableText(s.name) && EncodableText(s.signature) }

  predicate EncodableCall(c: (Text, u32)) { EncodableText(c.0) }

  predicate Encodable(p: ParsedFile) {
    && |p.symbols| < U64 && |p.imports| < U64 && |p.calls| < U64
    && (forall s :: s in p.symbols ==> EncodableSymbol(s))
    && (forall i :: i in p.imports ==> EncodableText(i))
    && (forall c :: c in p.calls ==> EncodableCall(c))
  }

  /** Ids are positions in one graph, so they are not stored. */
  function ResetIds(s: CodeSymbol): CodeSymbol { s.(id := 0, file := 0) }

  function ResetAll(xs: seq<CodeSymbol>): (r: seq<CodeSymbol>)
    ensures |r| == |xs| && forall i :: 0 <= i < |xs| ==> r[i] == ResetIds(xs[i])
  { seq(|xs|, i requires 0 <= i < |xs| => ResetIds(xs[i])) }

  lemma ScaleOfTenthGroup()
    ensures Scale(9) == 0x8000_0000_0000_0000
  {
    assert Scale(3) == 0x80 * 0x80 * 0x80;
    assert Scale(6) == 0x80 * 0x80 * 0x80 * Scale(3);
    assert Scale(9) == 0x80 * 0x80 * 0x80 * Scale(6);
  }

  lemma MulMono(a: nat, b: nat, w: nat)
    requires a <= b
    ensures a * w <= b * w
  {
    assert (b - a) * w >= 0;
    assert b * w == a * w + (b - a) * w;
  }

  /** One step of the encoder moves seven bits from the value to the total. */
  lemma SplitGroup(low: nat, q: nat, w: nat)
    ensures (low + 0x80 * q) * w == low * w + q * (0x80 * w)
  {
    assert (0x80 * q) * w == q * (0x80 * w);
  }

  lemma GroupStep(v: nat, low: nat, q: nat, k: nat, acc: u64)
    requires v == low + 0x80 * q && low < 0x80 && q >= 1
    requires k < 10 && acc < Scale(k) && acc + v * Scale(k) < U64
    ensures k < 9
    ensures acc + low * Scale(k) < Scale(k + 1)
    ensures acc + low * Scale(k) + q * Scale(k + 1) == acc + v * Scale(k)
  {
    var w := Scale(k);
    SplitGroup(low, q, w);
    MulMono(low, 0x7f, w);
    MulMono(1, q, 0x80 * w);
    if k == 9 { ScaleOfTenthGroup(); }
  }

  lemma SmallMod(x: int)
    requires 0 <= x < U64
    ensures x % U64 == x
  {}

  lemma LowBits(low: nat)
    requires low < 0x80
    ensures (low + 0x80) % 0x80 == low && low % 0x80 == low
  {}

  lemma ReadOneMore(low: nat, r: seq<byte>, k: nat, acc: u64, next: u64)
    requires k < 10 && low < 0x80 && next == acc + low * Scale(k)
    ensures ReadVarintFrom([low + 0x80] + r, k, acc) == ReadVarintFrom(r, k + 1, next)
  {
    var s := [low + 0x80] + r;
    assert ReadByte(s) == Got(low + 0x80, r) by { assert s[1..] == r; }
    LowBits(low);
    SmallMod(next);
  }

  lemma ReadLast(low: nat, r: seq<byte>, k: nat, acc: u64, next: u64)
    requires k < 10 && low < 0x80 && next == acc + low * Scale(k)
    ensures ReadVarintFrom([low] + r, k, acc) == Got(next, r)
  {
    var s := [low] + r;
    assert ReadByte(s) == Got(low, r) by { assert s[1..] == r; }
    LowBits(low);
    SmallMod(next);
  }

  lemma {:induction false} VarintRoundTripFrom(v: nat, post: seq<byte>, k: nat, acc: u64)
    requires k < 10 && acc < Scale(k) && acc + v * Scale(k) < U64
    ensures ReadVarintFrom(VarintBytes(v) + post, k, acc) == Got(acc + v * Scale(k), post)
    decreases v
  {
    if v < 0x80 {
      MulMono(0, v, Scale(k));
      ReadLast(v, post, k, acc, acc + v * Scale(k));
    } else {
      var low, q := v % 0x80, v / 0x80;
      GroupStep(v, low, q, k, acc);
      MulMono(0, low, Scale(k));
      MulMono(0, q, Scale(k + 1));
      assert VarintBytes(v) + post == [low + 0x80] + (VarintBytes(q) + post);
      ReadOneMore(low, VarintBytes(q) + post, k, acc, acc + low * Scale(k));
      VarintRoundTripFrom(q, post, k + 1, acc + low * Scale(k));
    }
  }

  lemma VarintRoundTrip(v: u64, post: seq<byte>)
    ensures ReadVarint(VarintBytes(v) + post) == Got(v, post)
  {
    VarintRoundTripFrom(v, post, 0, 0);
  }

  lemma StringRoundTrip(t: Text, post: seq<byte>)
    requires EncodableText(t)
    ensures ReadString(StrBytes(t) + post) == Got(t, post)
  {
    assert StrBytes(t) + post == VarintBytes(|t|) + (t + post);
    VarintRoundTrip(|t|, t + post);
    assert (t + post)[..|t|] == t && (t + post)[|t|..] == post;
  }

  lemma Assoc(a: seq<byte>, b: seq<byte>, c: seq<byte>)
    ensures (a + b) + c == a + (b + c)
  {}

  lemma SpanRoundTrip(start: u32, end: u32, post: seq<byte>)
    ensures ReadSpan(SpanBytes(start, end) + post) == Got((start, end), post)
  {
    var delta := WrapSub(end, start);
    Assoc(VarintBytes(start), VarintBytes(delta), post);
    VarintRoundTrip(start, VarintBytes(delta) + post);
    VarintRoundTrip(delta, post);
  }

  lemma SymbolBytesThen(s: CodeSymbol, post: seq<byte>)
    ensures SymbolBytes(s) + post ==
      StrBytes(s.name) + ([Tag(s)] + (StrBytes(s.signature) + (SpanBytes(s.startLine, s.endLine) + post)))
  {
    var span := SpanBytes(s.startLine, s.endLine);
    Assoc(StrBytes(s.name), [Tag(s)] + (StrBytes(s.signature) + span), post);
    Assoc([Tag(s)], StrBytes(s.signature) + span, post);
    Assoc(StrBytes(s.signature), span, post);
  }

  lemma ReadSymbolParts(
    s: seq<byte>, name: Text, r0: seq<byte>, tag: byte, r1: seq<byte>,
    signature: Text, r2: seq<byte>, span: (u32, u32), r3: seq<byte>)
    requires ReadString(s) == Got(name, r0) && ReadByte(r0) == Got(tag, r1)
    requires ReadString(r1) == Got(signature, r2) && ReadSpan(r2) == Got(span, r3)
    ensures ReadSymbol(s) == Got(MakeSymbol(name, tag, signature, span), r3)
  {}

  lemma TagRoundTrip(s: CodeSymbol)
    ensures MakeSymbol(s.name, Tag(s), s.signature, (s.startLine, s.endLine)) == ResetIds(s)
  {
    assert SymbolKindFromU8(SymbolKindToU8(s.kind)) == s.kind;
    assert Tag(s) % 0x80 == SymbolKindToU8(s.kind);
  }

  lemma SymbolRoundTrip(s: CodeSymbol, post: seq<byte>)
    requires EncodableSymbol(s)
    ensures ReadSymbol(SymbolBytes(s) + post) == Got(ResetIds(s), post)
  {
    var p2 := SpanBytes(s.startLine, s.endLine) + post;
    var p1 := StrBytes(s.signature) + p2;
    var p0 := [Tag(s)] + p1;
    SymbolBytesThen(s, post);
    StringRoundTrip(s.name, p0);
    assert p0[1..] == p1;
    StringRoundTrip(s.signature, p2);
    SpanRoundTrip(s.startLine, s.endLine, post);
    TagRoundTrip(s);
    ReadSymbolParts(SymbolBytes(s) + post, s.name, p0, Tag(s), p1, s.signature, p2, (s.startLine, s.endLine), post);
  }

  lemma CallRoundTrip(c: (Text, u32), post: seq<byte>)
    requires EncodableCall(c)
    ensures ReadCall(CallBytes(c) + post) == Got(c, post)
  {
    assert CallBytes(c) + post == StrBytes(c.0) + (VarintBytes(c.1) + post);
    StringRoundTrip(c.0, VarintBytes(c.1) + post);
    VarintRoundTrip(c.1, post);
  }

  lemma {:induction false} ManyRoundTrip<T(!new)>(
    xs: seq<T>, ys: seq<T>, enc: T -> seq<byte>, rd: Reader<T>, post: seq<byte>)
    requires |xs| == |ys|
    requires forall i, p :: 0 <= i < |xs| ==> rd(enc(xs[i]) + p) == Got(ys[i], p)
    ensures ReadMany(ManyBytes(xs, enc) + post, |xs|, rd) == Got(ys, post)
  {
    if xs == [] {
      assert ManyBytes(xs, enc) + post == post;
    } else {
      var p := ManyBytes(xs[1..], enc) + post;
      assert ManyBytes(xs, enc) + post == enc(xs[0]) + p;
      assert rd(enc(xs[0]) + p) == Got(ys[0], p);
      ManyRoundTrip(xs[1..], ys[1..], enc, rd, post);
      assert ys == [ys[0]] + ys[1..];
    }
  }

  lemma {:induction false} ManyBytesLong<T(!new)>(xs: seq<T>, enc: T -> seq<byte>)
    requires forall x :: x in xs ==> |enc(x)| > 0
    ensures |ManyBytes(xs, enc)| >= |xs|
  {
    if xs != [] { ManyBytesLong(xs[1..], enc); }
  }

  lemma ListRoundTrip<T(!new)>(
    xs: seq<T>, ys: seq<T>, enc: T -> seq<byte>, rd: Reader<T>, post: seq<byte>)
    requires |xs| == |ys| && |xs| < U64
    requires forall x :: x in xs ==> |enc(x)| > 0
    requires forall i, p :: 0 <= i < |xs| ==> rd(enc(xs[i]) + p) == Got(ys[i], p)
    ensures ReadList(ListBytes(xs, enc) + post, rd) == Got(ys, post)
  {
    var p := ManyBytes(xs, enc) + post;
    assert ListBytes(xs, enc) + post == VarintBytes(|xs|) + p;
    VarintRoundTrip(|xs|, p);
    ManyBytesLong(xs, enc);
    ManyRoundTrip(xs, ys, enc, rd, post);
  }

  lemma SymbolsRoundTrip(xs: seq<CodeSymbol>, post: seq<byte>)
    requires |xs| < U64 && forall s :: s in xs ==> EncodableSymbol(s)
    ensures ReadList(ListBytes(xs, SymbolBytes) + post, ReadSymbol) == Got(ResetAll(xs), post)
  {
    forall i, q | 0 <= i < |xs| ensures ReadSymbol(SymbolBytes(xs[i]) + q) == Got(ResetAll(xs)[i], q) {
      SymbolRoundTrip(xs[i], q);
    }
    ListRoundTrip(xs, ResetAll(xs), SymbolBytes, ReadSymbol, post);
  }

  lemma StringsRoundTrip(xs: seq<Text>, post: seq<byte>)
    requires |xs| < U64 && forall t :: t in xs ==> EncodableText(t)
    ensures ReadList(ListBytes(xs, StrBytes) + post, ReadString) == Got(xs, post)
  {
    forall i, q | 0 <= i < |xs| ensures ReadString(StrBytes(xs[i]) + q) == Got(xs[i], q) {
      StringRoundTrip(xs[i], q);
    }
    ListRoundTrip(xs, xs, StrBytes, ReadString, post);
  }

  lemma CallsRoundTrip(xs: seq<(Text, u32)>, post: seq<byte>)
    requires |xs| < U64 && forall c :: c in xs ==> EncodableCall(c)
    ensures ReadList(ListBytes(xs, CallBytes) + post, ReadCall) == Got(xs, post)
  {
    forall i, q | 0 <= i < |xs| ensures ReadCall(CallBytes(xs[i]) + q) == Got(xs[i], q) {
      CallRoundTrip(xs[i], q);
    }
    ListRoundTrip(xs, xs, CallBytes, ReadCall, post);
  }

  lemma FlagsRoundTrip(p: ParsedFile)
    ensures Flags(p) % 2 == 1 <==> p.partialParse
    ensures Flags(p) / 2 % 2 == 1 <==> p.cFamilyRewrite
  {}

  lemma ReadBodyParts(
    s: seq<byte>, flags: byte, symbols: seq<CodeSymbol>, r0: seq<byte>,
    imports: seq<Text>, r1: seq<byte>, calls: seq<(Text, u32)>, r2: seq<byte>)
    requires ReadList(s, ReadSymbol) == Got(symbols, r0)
    requires ReadList(r0, ReadString) == Got(imports, r1)
    requires ReadList(r1, ReadCall) == Got(calls, r2)
    ensures ReadBody(s, flags) == Got(ParsedFile(symbols, imports, calls, flags % 2 == 1, flags / 2 % 2 == 1), r2)
  {}

  lemma BodyRoundTrip(p: ParsedFile)
    requires Encodable(p)
    ensures ReadBody(BodyBytes(p), Flags(p)) == Got(p.(symbols := ResetAll(p.symbols)), [])
  {
    var calls := ListBytes(p.calls, CallBytes);
    var imports := ListBytes(p.imports, StrBytes);
    SymbolsRoundTrip(p.symbols, imports + calls);
    StringsRoundTrip(p.imports, calls);
    assert calls + [] == calls;
    CallsRoundTrip(p.calls, []);
    FlagsRoundTrip(p);
    ReadBodyParts(BodyBytes(p), Flags(p), ResetAll(p.symbols), imports + calls, p.imports, calls, p.calls, []);
  }

  /** Decoding an encoded parse result gives it back, ids reset to 0.  Reversed
      spans survive through the wrapping delta. */
  lemma ParsedRoundTrip(p: ParsedFile)
    requires Encodable(p)
    ensures Parsed(ParsedBytes(p)) == Ok(p.(symbols := ResetAll(p.symbols)))
  {
    HeaderReads(Flags(p), BodyBytes(p));
    BodyRoundTrip(p);
  }

  lemma HeaderReads(flags: byte, body: seq<byte>)
    ensures ReadMagic([PARSED_MAGIC, CACHE_FORMAT_VERSION, flags] + body, PARSED_MAGIC)
      == Got(CACHE_FORMAT_VERSION, [flags] + body)
    ensures ReadByte([flags] + body) == Got(flags, body)
  {
    var s := [PARSED_MAGIC, CACHE_FORMAT_VERSION, flags] + body;
    assert s[1..] == [CACHE_FORMAT_VERSION, flags] + body;
    assert s[1..][1..] == [flags] + body;
  }

  // ------------------------------------- no prefix, no extension decodes

  /** A successful read looks at nothing beyond the bytes it consumes. */
  ghost predicate Stable<T(!new)>(rd: Reader<T>) {
    forall s, t :: rd(s).Got? ==> rd(s + t) == Got(rd(s).value, rd(s).rest + t)
  }

  lemma {:induction false} VarintStableFrom(s: seq<byte>, t: seq<byte>, k: nat, acc: u64)
    requires k <= 10
    ensures var r := ReadVarintFrom(s, k, acc);
      r.Got? ==> ReadVarintFrom(s + t, k, acc) == Got(r.value, r.rest + t)
    decreases 10 - k
  {
    if k < 10 && s != [] {
      assert (s + t)[1..] == s[1..] + t;
      if s[0] >= 0x80 {
        VarintStableFrom(s[1..], t, k + 1, (acc + s[0] % 0x80 * Scale(k)) % U64);
      }
    }
  }

  lemma VarintStable()
    ensures Stable(ReadVarint) && Stable(ReadU32)
  {
    forall s, t ensures ReadVarint(s).Got? ==> ReadVarint(s + t) == Got(ReadVarint(s).value, ReadVarint(s).rest + t) {
      VarintStableFrom(s, t, 0, 0);
    }
  }

  lemma StringStable()
    ensures Stable(ReadString) && Stable(ReadByte)
  {
    VarintStable();
    forall s, t | ReadString(s).Got?
      ensures ReadString(s + t) == Got(ReadString(s).value, ReadString(s).rest + t)
    {
      assert ReadVarint(s + t) == Got(ReadVarint(s).value, ReadVarint(s).rest + t);
      var n, r := ReadVarint(s).value, ReadVarint(s).rest;
      assert (r + t)[..n] == r[..n] && (r + t)[n..] == r[n..] + t;
    }
    forall s, t | ReadByte(s).Got?
      ensures ReadByte(s + t) == Got(ReadByte(s).value, ReadByte(s).rest + t)
    {
      assert (s + t)[1..] == s[1..] + t;
    }
  }

  lemma SymbolStable()
    ensures Stable(ReadSymbol)
  {
    StringStable();
    VarintStable();
    forall s, t | ReadSymbol(s).Got?
      ensures ReadSymbol(s + t) == Got(ReadSymbol(s).value, ReadSymbol(s).rest + t)
    {
      var r0 := ReadString(s).rest;
      assert ReadString(s + t).rest == r0 + t;
      var r1 := ReadByte(r0).rest;
      assert ReadByte(r0 + t).rest == r1 + t;
      var r2 := ReadString(r1).rest;
      assert ReadString(r1 + t).rest == r2 + t;
      var r3 := ReadU32(r2).rest;
      assert ReadU32(r2 + t) == Got(ReadU32(r2).value, r3 + t);
      assert ReadU32(r3 + t).rest == ReadU32(r3).rest + t;
    }
  }

  lemma CallStable()
    ensures Stable(ReadCall)
  {
    StringStable();
    VarintStable();
    forall s, t | ReadCall(s).Got?
      ensures ReadCall(s + t) == Got(ReadCall(s).value, ReadCall(s).rest + t)
    {
      assert ReadString(s + t).rest == ReadString(s).rest + t;
    }
  }

  lemma {:induction false} ManyStable<T(!new)>(s: seq<byte>, t: seq<byte>, n: nat, rd: Reader<T>)
    requires Stable(rd) && ReadMany(s, n, rd).Got?
    ensures ReadMany(s + t, n, rd) == Got(ReadMany(s, n, rd).value, ReadMany(s, n, rd).rest + t)
    decreases n
  {
    if n > 0 {
      assert rd(s + t) == Got(rd(s).value, rd(s).rest + t);
      ManyStable(rd(s).rest, t, n - 1, rd);
    }
  }

  lemma ListStable<T(!new)>(s: seq<byte>, t: seq<byte>, rd: Reader<T>)
    requires Stable(rd) && ReadList(s, rd).Got?
    ensures ReadList(s + t, rd) == Got(ReadList(s, rd).value, ReadList(s, rd).rest + t)
  {
    VarintStable();
    assert ReadVarint(s + t) == Got(ReadVarint(s).value, ReadVarint(s).rest + t);
    ManyStable(ReadLen(s).rest, t, ReadLen(s).value, rd);
  }

  lemma ParsedStable(s: seq<byte>, t: seq<byte>)
    requires ReadParsed(s).Got?
    ensures ReadParsed(s + t) == Got(ReadParsed(s).value, ReadParsed(s).rest + t)
  {
    SymbolStable();
    StringStable();
    CallStable();
    assert (s + t)[1..] == s[1..] + t;
    assert (s + t)[1..][1..] == s[1..][1..] + t;
    assert (s + t)[1..][1..][1..] == s[1..][1..][1..] + t;
    var body := s[1..][1..][1..];
    ListStable(body, t, ReadSymbol);
    var r0 := ReadList(body, ReadSymbol).rest;
    ListStable(r0, t, ReadString);
    ListStable(ReadList(r0, ReadString).rest, t, ReadCall);
  }

  /** No accepted payload is a strict prefix of another: cutting one short or
      adding bytes to it always makes the decoder refuse. */
  lemma ParsedExact(s: seq<byte>)
    requires Parsed(s).Ok?
    ensures forall t :: t != [] ==> Parsed(s + t).Err?
    ensures forall k :: 0 <= k < |s| ==> Parsed(s[..k]).Err?
  {
    forall t | t != [] ensures Parsed(s + t).Err? { ParsedStable(s, t); }
    forall k | 0 <= k < |s| ensures Parsed(s[..k]).Err? {
      assert s == s[..k] + s[k..];
      if Parsed(s[..k]).Ok? {
        ParsedStable(s[..k], s[k..]);
        assert false;
      }
    }
  }

  /** In particular the encodings themselves. */
  lemma EncodingsExact(p: ParsedFile)
    requires Encodable(p)
    ensures forall t :: t != [] ==> Parsed(ParsedBytes(p) + t).Err?
    ensures forall k :: 0 <= k < |ParsedBytes(p)| ==> Parsed(ParsedBytes(p)[..k]).Err?
  {
    ParsedRoundTrip(p);
    ParsedExact(ParsedBytes(p));
  }

  // ----------------------------------------------------- bounded counts

  lemma {:induction false} VarintConsumes(s: seq<byte>, k: nat, acc: u64)
    requires k <= 10
    ensures var r := ReadVarintFrom(s, k, acc); r.Got? ==> |r.rest| < |s|
    decreases 10 - k
  {
    if k < 10 && s != [] && s[0] >= 0x80 {
      VarintConsumes(s[1..], k + 1, (acc + s[0] % 0x80 * Scale(k)) % U64);
    }
  }

  ghost predicate Consumes<T(!new)>(rd: Reader<T>) {
    forall s :: rd(s).Got? ==> |rd(s).rest| < |s|
  }

  lemma ItemsConsume()
    ensures Consumes(ReadSymbol) && Consumes(ReadString) && Consumes(ReadCall)
  {
    forall s ensures ReadVarint(s).Got? ==> |ReadVarint(s).rest| < |s| { VarintConsumes(s, 0, 0); }
    forall s | ReadString(s).Got? ensures |ReadString(s).rest| < |s| {
      assert |ReadVarint(s).rest| < |s|;
    }
    forall s | ReadCall(s).Got? ensures |ReadCall(s).rest| < |s| {
      assert |ReadVarint(ReadString(s).rest).rest| < |ReadString(s).rest|;
    }
    forall s | ReadSymbol(s).Got? ensures |ReadSymbol(s).rest| < |s| {
      var r0 := ReadString(s).rest;
      var r2 := ReadString(r0[1..]).rest;
      assert |ReadVarint(r2).rest| < |r2|;
      var r3 := ReadVarint(r2).rest;
      assert |ReadVarint(r3).rest| < |r3|;
    }
  }

  lemma {:induction false} ManyBounded<T(!new)>(s: seq<byte>, n: nat, rd: Reader<T>)
    requires Consumes(rd)
    ensures var r := ReadMany(s, n, rd); r.Got? ==> |r.value| == n && n + |r.rest| <= |s|
    decreases n
  {
    if n > 0 && rd(s).Got? { ManyBounded(rd(s).rest, n - 1, rd); }
  }

  /** Whatever the bytes are, hostile or torn, the decoder never returns more
      elements than there are bytes. */
  lemma DecodedCountsBounded(s: seq<byte>)
    ensures Parsed(s).Ok? ==>
      var p := Parsed(s).value; |p.symbols| + |p.imports| + |p.calls| + 6 <= |s|
  {
    if Parsed(s).Ok? {
      ItemsConsume();
      var b := s[1..][1..][1..];
      VarintConsumes(b, 0, 0);
      ManyBounded(ReadLen(b).rest, ReadLen(b).value, ReadSymbol);
      var r0 := ReadList(b, ReadSymbol).rest;
      VarintConsumes(r0, 0, 0);
      ManyBounded(ReadLen(r0).rest, ReadLen(r0).value, ReadString);
      var r1 := ReadList(r0, ReadString).rest;
      VarintConsumes(r1, 0, 0);
      ManyBounded(ReadLen(r1).rest, ReadLen(r1).value, ReadCall);
    }
  }

  // ------------------------------------------------------------- stamps

  const U128: int := U64 * U64

  /** What a run learned about one file, enough to reuse its parse unread. */
  datatype FileStamp = FileStamp(mtimeNs: nat, len: u64, key: Text, sha: Text, loc: u32, language: byte)

  function StampTailBytes(f: FileStamp): seq<byte> {
    StrBytes(f.key) + (StrBytes(f.sha) + (VarintBytes(f.loc) + [f.language]))
  }

  function StampHeadBytes(f: FileStamp): seq<byte>
    requires f.mtimeNs < U128
  {
    VarintBytes(f.mtimeNs / U64) + (VarintBytes(f.mtimeNs % U64) + VarintBytes(f.len))
  }

  function StampBytes(f: FileStamp): seq<byte>
    requires f.mtimeNs < U128
  {
    [STAMP_MAGIC, CACHE_FORMAT_VERSION] + (StampHeadBytes(f) + StampTailBytes(f))
  }

  function ReadStampHead(s: seq<byte>): Read<(nat, u64)> {
    var (hi, r0) :- ReadVarint(s);
    var (lo, r1) :- ReadVarint(r0);
    var (len, r2) :- ReadVarint(r1);
    Got((hi * U64 + lo, len), r2)
  }

  function ReadStampTail(s: seq<byte>, mtimeNs: nat, len: u64): Read<FileStamp> {
    var (key, r0) :- ReadString(s);
    var (sha, r1) :- ReadString(r0);
    var (loc, r2) :- ReadU32(r1);
    var (language, r3) :- ReadByte(r2);
    Got(FileStamp(mtimeNs, len, key, sha, loc, language), r3)
  }

  function ReadStampBody(s: seq<byte>): Read<FileStamp> {
    var (head, r) :- ReadStampHead(s);
    ReadStampTail(r, head.0, head.1)
  }

  function ReadStamp(s: seq<byte>): Read<FileStamp> {
    var (_, r0) :- ReadMagic(s, STAMP_MAGIC);
    ReadStampBody(r0)
  }

  function Stamp(bytes: seq<byte>): Option<FileStamp> {
    match Finish(ReadStamp(bytes)) case Ok(f) => Some(f) case Err(_) => None
  }

  lemma StampHeadRoundTrip(f: FileStamp, post: seq<byte>)
    requires f.mtimeNs < U128
    ensures ReadStampHead(StampHeadBytes(f) + post) == Got((f.mtimeNs, f.len), post)
  {
    var hi, lo := f.mtimeNs / U64, f.mtimeNs % U64;
    Assoc(VarintBytes(hi), VarintBytes(lo) + VarintBytes(f.len), post);
    Assoc(VarintBytes(lo), VarintBytes(f.len), post);
    VarintRoundTrip(hi, VarintBytes(lo) + (VarintBytes(f.len) + post));
    VarintRoundTrip(lo, VarintBytes(f.len) + post);
    VarintRoundTrip(f.len, post);
  }

  lemma StampTailRoundTrip(f: FileStamp)
    requires EncodableText(f.key) && EncodableText(f.sha)
    ensures ReadStampTail(StampTailBytes(f), f.mtimeNs, f.len) == Got(f, [])
  {
    StringRoundTrip(f.key, StrBytes(f.sha) + (VarintBytes(f.loc) + [f.language]));
    StringRoundTrip(f.sha, VarintBytes(f.loc) + [f.language]);
    VarintRoundTrip(f.loc, [f.language]);
  }

  /** Stamps survive, 128-bit modification times included. */
  lemma StampRoundTrip(f: FileStamp)
    requires f.mtimeNs < U128 && EncodableText(f.key) && EncodableText(f.sha)
    ensures Stamp(StampBytes(f)) == Some(f)
  {
    var p := StampHeadBytes(f) + StampTailBytes(f);
    assert ReadByte(StampBytes(f)) == Got(STAMP_MAGIC, [CACHE_FORMAT_VERSION] + p);
    assert ReadByte([CACHE_FORMAT_VERSION] + p) == Got(CACHE_FORMAT_VERSION, p);
    StampHeadRoundTrip(f, StampTailBytes(f));
    StampTailRoundTrip(f);
  }

  lemma VarintKeeps(s: seq<byte>, t: seq<byte>)
    requires ReadVarint(s).Got?
    ensures ReadVarint(s + t) == Got(ReadVarint(s).value, ReadVarint(s).rest + t)
  {
    VarintStable();
  }

  lemma StampHeadStable(s: seq<byte>, t: seq<byte>)
    requires ReadStampHead(s).Got?
    ensures ReadStampHead(s + t) == Got(ReadStampHead(s).value, ReadStampHead(s).rest + t)
  {
    var r0 := ReadVarint(s).rest;
    var r1 := ReadVarint(r0).rest;
    VarintKeeps(s, t);
    VarintKeeps(r0, t);
    VarintKeeps(r1, t);
  }

  lemma StampTailStable(s: seq<byte>, t: seq<byte>, m: nat, len: u64)
    requires ReadStampTail(s, m, len).Got?
    ensures ReadStampTail(s + t, m, len) == Got(ReadStampTail(s, m, len).value, ReadStampTail(s, m, len).rest + t)
  {
    StringStable();
    VarintStable();
    var r0 := ReadString(s).rest;
    assert ReadString(s + t).rest == r0 + t;
    var r1 := ReadString(r0).rest;
    assert ReadString(r0 + t).rest == r1 + t;
    var r2 := ReadU32(r1).rest;
    assert ReadU32(r1 + t).rest == r2 + t;
    assert ReadByte(r2 + t).rest == ReadByte(r2).rest + t;
  }

  lemma StampStable(s: seq<byte>, t: seq<byte>)
    requires ReadStamp(s).Got?
    ensures ReadStamp(s + t) == Got(ReadStamp(s).value, ReadStamp(s).rest + t)
  {
    MagicKeeps(s, t, STAMP_MAGIC);
    var body := ReadMagic(s, STAMP_MAGIC).rest;
    StampBodyStable(body, t);
  }

  lemma MagicKeeps(s: seq<byte>, t: seq<byte>, magic: byte)
    requires ReadMagic(s, magic).Got?
    ensures ReadMagic(s + t, magic) == Got(ReadMagic(s, magic).value, ReadMagic(s, magic).rest + t)
  {
    assert (s + t)[1..] == s[1..] + t;
    assert (s + t)[1..][1..] == s[1..][1..] + t;
  }

  lemma StampBodyStable(s: seq<byte>, t: seq<byte>)
    requires ReadStampBody(s).Got?
    ensures ReadStampBody(s + t) == Got(ReadStampBody(s).value, ReadStampBody(s).rest + t)
  {
    var h := ReadStampHead(s);
    StampHeadStable(s, t);
    StampTailStable(h.rest, t, h.value.0, h.value.1);
  }

  lemma StampExact(s: seq<byte>)
    requires Stamp(s).Some?
    ensures forall t :: t != [] ==> Stamp(s + t) == None
    ensures forall k :: 0 <= k < |s| ==> Stamp(s[..k]) == None
  {
    forall t | t != [] ensures Stamp(s + t) == None { StampStable(s, t); }
    forall k | 0 <= k < |s| ensures Stamp(s[..k]) == None {
      assert s == s[..k] + s[k..];
      if Stamp(s[..k]).Some? {
        StampStable(s[..k], s[k..]);
        assert false;
      }
    }
  }
}
