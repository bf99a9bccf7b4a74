/** The step-by-step encoder and decoder, proved equal to the functions of
    `Codec`: bytes are appended to one growing buffer, and a bounds-checked
    cursor moves over the payload. */
module Wire {
  import opened Types
  import opened Codec

  class ByteBuffer {
    var bytes: seq<byte>

    constructor ()
      ensures bytes == []
    {
      bytes := [];
    }

    method Push(b: byte)
      modifies this
      ensures bytes == old(bytes) + [b]
    {
      bytes := bytes + [b];
    }

    method PutVarint(value: u64)
      modifies this
      ensures bytes == old(bytes) + VarintBytes(value)
    {
      var v := value;
      while v >= 0x80
        invariant bytes + VarintBytes(v) == old(bytes) + VarintBytes(value)
      {
        Assoc(bytes, [v % 0x80 + 0x80], VarintBytes(v / 0x80));
        bytes := bytes + [v % 0x80 + 0x80];
        v := v / 0x80;
      }
      bytes := bytes + [v];
    }

    method PutStr(s: Text)
      requires |s| < U64
      modifies this
      ensures bytes == old(bytes) + StrBytes(s)
    {
      PutVarint(|s|);
      Assoc(old(bytes), VarintBytes(|s|), s);
      bytes := bytes + s;
    }

    method PutSymbol(s: CodeSymbol)
      requires |s.name| < U64 && |s.signature| < U64
      modifies this
      ensures bytes == old(bytes) + SymbolBytes(s)
    {
      PutStr(s.name);
      Push(SymbolKindToU8(s.kind) + if s.exported then 0x80 else 0);
      PutStr(s.signature);
      PutVarint(s.startLine);
      PutVarint(WrapSub(s.endLine, s.startLine));
      assert bytes == old(bytes) + SymbolBytes(s) by {
        var delta := VarintBytes(WrapSub(s.endLine, s.startLine));
        var start := VarintBytes(s.startLine);
        FlattenFive(old(bytes), StrBytes(s.name), [Tag(s)], StrBytes(s.signature), start, delta);
      }
    }
  }

  lemma FlattenFive(o: seq<byte>, a: seq<byte>, b: seq<byte>, c: seq<byte>, d: seq<byte>, e: seq<byte>)
    ensures o + a + b + c + d + e == o + (a + (b + (c + (d + e))))
  {
    Assoc(o + a + b + c, d, e);
    Assoc(o + a + b, c, d + e);
    Assoc(o + a, b, c + (d + e));
    Assoc(o, a, b + (c + (d + e)));
  }

  lemma ManyBytesStep<T>(xs: seq<T>, i: nat, enc: T -> seq<byte>, before: seq<byte>)
    requires i < |xs|
    ensures before + ManyBytes(xs[i..], enc) == (before + enc(xs[i])) + ManyBytes(xs[i + 1..], enc)
  {
    assert xs[i..][1..] == xs[i + 1..];
    Assoc(before, enc(xs[i]), ManyBytes(xs[i + 1..], enc));
  }

  method PutSymbols(buf: ByteBuffer, xs: seq<CodeSymbol>)
    requires |xs| < U64 && forall x :: x in xs ==> EncodableSymbol(x)
    modifies buf
    ensures buf.bytes == old(buf.bytes) + ListBytes(xs, SymbolBytes)
  {
    buf.PutVarint(|xs|);
    ghost var base := buf.bytes;
    for i := 0 to |xs|
      invariant buf.bytes + ManyBytes(xs[i..], SymbolBytes) == base + ManyBytes(xs, SymbolBytes)
    {
      ManyBytesStep(xs, i, SymbolBytes, buf.bytes);
      assert EncodableSymbol(xs[i]);
      buf.PutSymbol(xs[i]);
    }
    Assoc(old(buf.bytes), VarintBytes(|xs|), ManyBytes(xs, SymbolBytes));
  }

  method PutStrings(buf: ByteBuffer, xs: seq<Text>)
    requires |xs| < U64 && forall x :: x in xs ==> EncodableText(x)
    modifies buf
    ensures buf.bytes == old(buf.bytes) + ListBytes(xs, StrBytes)
  {
    buf.PutVarint(|xs|);
    ghost var base := buf.bytes;
    for i := 0 to |xs|
      invariant buf.bytes + ManyBytes(xs[i..], StrBytes) == base + ManyBytes(xs, StrBytes)
    {
      ManyBytesStep(xs, i, StrBytes, buf.bytes);
      assert EncodableText(xs[i]);
      buf.PutStr(xs[i]);
    }
    Assoc(old(buf.bytes), VarintBytes(|xs|), ManyBytes(xs, StrBytes));
  }

  method PutCalls(buf: ByteBuffer, xs: seq<(Text, u32)>)
    requires |xs| < U64 && forall x :: x in xs ==> EncodableCall(x)
    modifies buf
    ensures buf.bytes == old(buf.bytes) + ListBytes(xs, CallBytes)
  {
    buf.PutVarint(|xs|);
    ghost var base := buf.bytes;
    for i := 0 to |xs|
      invariant buf.bytes + ManyBytes(xs[i..], CallBytes) == base + ManyBytes(xs, CallBytes)
    {
      ManyBytesStep(xs, i, CallBytes, buf.bytes);
      assert EncodableCall(xs[i]);
      ghost var before := buf.bytes;
      buf.PutStr(xs[i].0);
      buf.PutVarint(xs[i].1);
      Assoc(before, StrBytes(xs[i].0), VarintBytes(xs[i].1));
    }
    Assoc(old(buf.bytes), VarintBytes(|xs|), ManyBytes(xs, CallBytes));
  }

  method EncodeParsed(p: ParsedFile) returns (out: seq<byte>)
    requires Encodable(p)
    ensures out == ParsedBytes(p)
  {
    var buf := new ByteBuffer();
    buf.Push(PARSED_MAGIC);
    buf.Push(CACHE_FORMAT_VERSION);
    buf.Push(Flags(p));
    ghost var header := [PARSED_MAGIC, CACHE_FORMAT_VERSION, Flags(p)];
    assert buf.bytes == header;
    PutSymbols(buf, p.symbols);
    PutStrings(buf, p.imports);
    PutCalls(buf, p.calls);
    out := buf.bytes;
    Assoc(header + ListBytes(p.symbols, SymbolBytes), ListBytes(p.imports, StrBytes), ListBytes(p.calls, CallBytes));
    Assoc(header, ListBytes(p.symbols, SymbolBytes), ListBytes(p.imports, StrBytes) + ListBytes(p.calls, CallBytes));
  }

  /** The cursor.  Each read agrees with the reader function on the bytes that
      were left, value or error alike. */
  class WireReader {
    const buf: seq<byte>
    var pos: nat

    ghost predicate Valid() reads this { pos <= |buf| }

    ghost function Rest(): seq<byte>
      reads this
      requires Valid()
    { buf[pos..] }

    ghost predicate Agrees<T(!new)>(r: Result<T>, spec: Read<T>)
      reads this
      requires Valid()
    {
      match spec
      case Fail(e) => r == Err(e)
      case Got(v, rest) => r == Ok(v) && Rest() == rest
    }

    constructor (bytes: seq<byte>)
      ensures Valid() && buf == bytes && Rest() == bytes
    {
      buf := bytes;
      pos := 0;
    }

    method Byte() returns (r: Result<byte>)
      requires Valid()
      modifies this
      ensures Valid() && Agrees(r, ReadByte(old(Rest())))
    {
      if pos >= |buf| { return Err(Truncated); }
      r := Ok(buf[pos]);
      pos := pos + 1;
    }

    method Varint() returns (r: Result<u64>)
      requires Valid()
      modifies this
      ensures Valid() && Agrees(r, ReadVarint(old(Rest())))
    {
      var value: u64 := 0;
      ghost var start := Rest();
      for k := 0 to 10
        invariant Valid()
        invariant ReadVarintFrom(Rest(), k, value) == ReadVarint(start)
      {
        var b :- Byte();
        value := (value + b % 0x80 * Scale(k)) % U64;
        if b < 0x80 { return Ok(value); }
      }
      return Err(BadVarint);
    }

    method Uint32() returns (r: Result<u32>)
      requires Valid()
      modifies this
      ensures Valid() && Agrees(r, ReadU32(old(Rest())))
    {
      var v :- Varint();
      return if v < U32 then Ok(v) else Err(OutOfRange);
    }

    /** A count never exceeds the bytes left, so reserving room for it is safe
        even when the payload is corrupt. */
    method Len() returns (r: Result<nat>)
      requires Valid()
      modifies this
      ensures Valid() && Agrees(r, ReadLen(old(Rest())))
      ensures r.Ok? ==> r.value <= |buf| - pos
    {
      var n :- Varint();
      if n > |buf| - pos { return Err(Truncated); }
      return Ok(n);
    }

    method String() returns (r: Result<Text>)
      requires Valid()
      modifies this
      ensures Valid() && Agrees(r, ReadString(old(Rest())))
    {
      var n :- Len();
      var bytes := buf[pos..pos + n];
      assert bytes == Rest()[..n] && buf[pos + n..] == Rest()[n..];
      pos := pos + n;
      return if ValidUtf8(bytes) then Ok(bytes) else Err(InvalidUtf8);
    }

    method Magic(magic: byte) returns (r: Result<byte>)
      requires Valid()
      modifies this
      ensures Valid() && Agrees(r, ReadMagic(old(Rest()), magic))
    {
      var m :- Byte();
      if m != magic { return Err(UnknownFormat); }
      var v :- Byte();
      if v != CACHE_FORMAT_VERSION { return Err(UnknownFormat); }
      return Ok(v);
    }

    method Symbol() returns (r: Result<CodeSymbol>)
      requires Valid()
      modifies this
      ensures Valid() && Agrees(r, ReadSymbol(old(Rest())))
    {
      var name :- String();
      var tag :- Byte();
      var signature :- String();
      var start :- Uint32();
      var delta :- Uint32();
      return Ok(MakeSymbol(name, tag, signature, (start, WrapAdd(start, delta))));
    }

    method Call() returns (r: Result<(Text, u32)>)
      requires Valid()
      modifies this
      ensures Valid() && Agrees(r, ReadCall(old(Rest())))
    {
      var callee :- String();
      var line :- Uint32();
      return Ok((callee, line));
    }
  }

  /** Each item is what reading from one position gives, up to the next. */
  ghost predicate Chain<T(!new)>(rd: Reader<T>, rests: seq<seq<byte>>, items: seq<T>) {
    |rests| == |items| + 1 && forall k :: 0 <= k < |items| ==> rd(rests[k]) == Got(items[k], rests[k + 1])
  }

  /** A full chain is the whole list; a broken one is its error. */
  lemma {:induction false} ChainIsMany<T(!new)>(rd: Reader<T>, rests: seq<seq<byte>>, items: seq<T>, n: nat)
    requires Chain(rd, rests, items) && |items| <= n
    ensures |items| == n ==> ReadMany(rests[0], n, rd) == Got(items, rests[n])
    ensures |items| < n && rd(rests[|items|]).Fail? ==> ReadMany(rests[0], n, rd) == Fail(rd(rests[|items|]).error)
    decreases |items|
  {
    if items != [] {
      ChainIsMany(rd, rests[1..], items[1..], n - 1);
      assert items == [items[0]] + items[1..];
    }
  }

  /** Reads items until there are `n` or one fails. */
  method CollectSymbols(r: WireReader, n: nat)
    returns (items: seq<CodeSymbol>, failed: Option<WireError>, ghost rests: seq<seq<byte>>)
    requires r.Valid()
    modifies r
    ensures r.Valid() && Chain(ReadSymbol, rests, items) && rests[0] == old(r.Rest())
    ensures failed.None? ==> |items| == n && rests[n] == r.Rest()
    ensures failed.Some? ==> |items| < n && ReadSymbol(rests[|items|]) == Fail(failed.value)
  {
    items, failed, rests := [], None, [r.Rest()];
    while |items| < n
      invariant r.Valid() && Chain(ReadSymbol, rests, items) && rests[0] == old(r.Rest())
      invariant |items| <= n && rests[|items|] == r.Rest()
      decreases n - |items|
    {
      var x := r.Symbol();
      if x.Err? { return items, Some(x.error), rests; }
      items, rests := items + [x.value], rests + [r.Rest()];
    }
  }

  method DecodeSymbols(r: WireReader) returns (out: Result<seq<CodeSymbol>>)
    requires r.Valid()
    modifies r
    ensures r.Valid() && r.Agrees(out, ReadList(old(r.Rest()), ReadSymbol))
  {
    var n :- r.Len();
    var items, failed, rests := CollectSymbols(r, n);
    ChainIsMany(ReadSymbol, rests, items, n);
    return if failed.Some? then Err(failed.value) else Ok(items);
  }

  /** Reads items until there are `n` or one fails. */
  method CollectImports(r: WireReader, n: nat)
    returns (items: seq<Text>, failed: Option<WireError>, ghost rests: seq<seq<byte>>)
    requires r.Valid()
    modifies r
    ensures r.Valid() && Chain(ReadString, rests, items) && rests[0] == old(r.Rest())
    ensures failed.None? ==> |items| == n && rests[n] == r.Rest()
    ensures failed.Some? ==> |items| < n && ReadString(rests[|items|]) == Fail(failed.value)
  {
    items, failed, rests := [], None, [r.Rest()];
    while |items| < n
      invariant r.Valid() && Chain(ReadString, rests, items) && rests[0] == old(r.Rest())
      invariant |items| <= n && rests[|items|] == r.Rest()
      decreases n - |items|
    {
      var x := r.String();
      if x.Err? { return items, Some(x.error), rests; }
      items, rests := items + [x.value], rests + [r.Rest()];
    }
  }

  method DecodeImports(r: WireReader) returns (out: Result<seq<Text>>)
    requires r.Valid()
    modifies r
    ensures r.Valid() && r.Agrees(out, ReadList(old(r.Rest()), ReadString))
  {
    var n :- r.Len();
    var items, failed, rests := CollectImports(r, n);
    ChainIsMany(ReadString, rests, items, n);
    return if failed.Some? then Err(failed.value) else Ok(items);
  }

  /** Reads items until there are `n` or one fails. */
  method CollectCalls(r: WireReader, n: nat)
    returns (items: seq<(Text, u32)>, failed: Option<WireError>, ghost rests: seq<seq<byte>>)
    requires r.Valid()
    modifies r
    ensures r.Valid() && Chain(ReadCall, rests, items) && rests[0] == old(r.Rest())
    ensures failed.None? ==> |items| == n && rests[n] == r.Rest()
    ensures failed.Some? ==> |items| < n && ReadCall(rests[|items|]) == Fail(failed.value)
  {
    items, failed, rests := [], None, [r.Rest()];
    while |items| < n
      invariant r.Valid() && Chain(ReadCall, rests, items) && rests[0] == old(r.Rest())
      invariant |items| <= n && rests[|items|] == r.Rest()
      decreases n - |items|
    {
      var x := r.Call();
      if x.Err? { return items, Some(x.error), rests; }
      items, rests := items + [x.value], rests + [r.Rest()];
    }
  }

  method DecodeCalls(r: WireReader) returns (out: Result<seq<(Text, u32)>>)
    requires r.Valid()
    modifies r
    ensures r.Valid() && r.Agrees(out, ReadList(old(r.Rest()), ReadCall))
  {
    var n :- r.Len();
    var items, failed, rests := CollectCalls(r, n);
    ChainIsMany(ReadCall, rests, items, n);
    return if failed.Some? then Err(failed.value) else Ok(items);
  }

  method DecodeBody(r: WireReader, flags: byte) returns (out: Result<ParsedFile>)
    requires r.Valid()
    modifies r
    ensures r.Valid() && r.Agrees(out, ReadBody(old(r.Rest()), flags))
  {
    var symbols :- DecodeSymbols(r);
    var imports :- DecodeImports(r);
    var calls :- DecodeCalls(r);
    return Ok(ParsedFile(symbols, imports, calls, flags % 2 == 1, flags / 2 % 2 == 1));
  }

  method DecodeFlagsAndBody(r: WireReader) returns (out: Result<ParsedFile>)
    requires r.Valid()
    modifies r
    ensures r.Valid() && r.Agrees(out, ReadFlagsAndBody(old(r.Rest())))
  {
    var flags :- r.Byte();
    out := DecodeBody(r, flags);
  }

  method DecodeAll(r: WireReader) returns (out: Result<ParsedFile>)
    requires r.Valid()
    modifies r
    ensures r.Valid() && r.Agrees(out, ReadParsed(old(r.Rest())))
  {
    var _ :- r.Magic(PARSED_MAGIC);
    out := DecodeFlagsAndBody(r);
  }

  method DecodeParsed(bytes: seq<byte>) returns (out: Result<ParsedFile>)
    ensures out == Parsed(bytes)
  {
    var r := new WireReader(bytes);
    out := DecodeAll(r);
    if out.Ok? && r.pos != |r.buf| { out := Err(TrailingBytes); }
  }

  method EncodeStamp(f: FileStamp) returns (out: seq<byte>)
    requires f.mtimeNs < U128 && |f.key| < U64 && |f.sha| < U64
    ensures out == StampBytes(f)
  {
    var buf := new ByteBuffer();
    buf.Push(STAMP_MAGIC);
    buf.Push(CACHE_FORMAT_VERSION);
    assert buf.bytes == [STAMP_MAGIC, CACHE_FORMAT_VERSION];
    buf.PutVarint(f.mtimeNs / U64);
    buf.PutVarint(f.mtimeNs % U64);
    buf.PutVarint(f.len);
    ghost var head := buf.bytes;
    assert head == [STAMP_MAGIC, CACHE_FORMAT_VERSION] + StampHeadBytes(f);
    buf.PutStr(f.key);
    buf.PutStr(f.sha);
    buf.PutVarint(f.loc);
    buf.Push(f.language);
    out := buf.bytes;
    FlattenFive(head, StrBytes(f.key), StrBytes(f.sha), VarintBytes(f.loc), [f.language], []);
    assert out == head + StampTailBytes(f);
    Assoc([STAMP_MAGIC, CACHE_FORMAT_VERSION], StampHeadBytes(f), StampTailBytes(f));
  }

  method DecodeStampHead(r: WireReader) returns (out: Result<(nat, u64)>)
    requires r.Valid()
    modifies r
    ensures r.Valid() && r.Agrees(out, ReadStampHead(old(r.Rest())))
  {
    var hi :- r.Varint();
    var lo :- r.Varint();
    var len :- r.Varint();
    return Ok((hi * U64 + lo, len));
  }

  method DecodeStampTail(r: WireReader, mtimeNs: nat, len: u64) returns (out: Result<FileStamp>)
    requires r.Valid()
    modifies r
    ensures r.Valid() && r.Agrees(out, ReadStampTail(old(r.Rest()), mtimeNs, len))
  {
    var key :- r.String();
    var sha :- r.String();
    var loc :- r.Uint32();
    var language :- r.Byte();
    return Ok(FileStamp(mtimeNs, len, key, sha, loc, language));
  }

  method DecodeStampBody(r: WireReader) returns (out: Result<FileStamp>)
    requires r.Valid()
    modifies r
    ensures r.Valid()
    ensures r.Agrees(out, match ReadStampHead(old(r.Rest()))
                          case Fail(e) => Fail(e)
                          case Got(head, rest) => ReadStampTail(rest, head.0, head.1))
  {
    var head :- DecodeStampHead(r);
    out := DecodeStampTail(r, head.0, head.1);
  }

  method DecodeStampAll(r: WireReader) returns (out: Result<FileStamp>)
    requires r.Valid()
    modifies r
    ensures r.Valid() && r.Agrees(out, ReadStamp(old(r.Rest())))
  {
    var _ :- r.Magic(STAMP_MAGIC);
    out := DecodeStampBody(r);
  }

  method DecodeStamp(bytes: seq<byte>) returns (out: Result<FileStamp>)
    ensures out == Finish(ReadStamp(bytes))
  {
    var r := new WireReader(bytes);
    out := DecodeStampAll(r);
    if out.Ok? && r.pos != |r.buf| { out := Err(TrailingBytes); }
  }
}
