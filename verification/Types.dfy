/** The values that flow from the parser through the store and the assembler
    into the graph. */
module Types {

  const U32: int := 0x1_0000_0000
  const U64: int := 0x1_0000_0000_0000_0000

  type byte = b: int | 0 <= b < 256
  type u32 = n: int | 0 <= n < U32
  type u64 = n: int | 0 <= n < U64

  /** A Rust string as its bytes; comparisons are bytewise. */
  type Text = seq<byte>

  datatype Option<+T> = None | Some(value: T)

  datatype SymbolKind =
    | Function | Method | Class | Interface | Struct | Enum
    | Trait | Type | Const | Module | Field | Variable

  datatype Language =
    | Python | Go | Java | Rust | TypeScript | Tsx | JavaScript | C | Cpp
    | ObjC | ObjCpp | Swift | Php | Vue | Dart | CSharp | VisualBasic
    | Kotlin | Shell | Ruby | Lua | Proto

  /** `startLine` and `endLine` are 1-based and inclusive; nothing stops the
      extractor from reporting a reversed span. */
  datatype CodeSymbol = CodeSymbol(
    id: nat, file: nat, name: Text, kind: SymbolKind, signature: Text,
    startLine: u32, endLine: u32, exported: bool)

  /** What the parser extracts from one file. */
  datatype ParsedFile = ParsedFile(
    symbols: seq<CodeSymbol>, imports: seq<Text>, calls: seq<(Text, u32)>,
    partialParse: bool, cFamilyRewrite: bool)

  datatype EdgeKind = Import | Call | Inherit | Namespace | Pair

  datatype Confidence = Exact | Scoped | Syntactic | Unknown

  /** Import, Namespace and Pair edges join file ids, Call and Inherit edges
      join symbol ids; both are plain numbers. */
  datatype CodeEdge = CodeEdge(from: nat, to: nat, kind: EdgeKind, weight: nat, confidence: Confidence)
}
