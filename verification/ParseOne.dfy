/** What indexing one file means: the row, failure or skip that its path and
    bytes determine, with no cache involved. */
module ParseOne {
  import opened Types
  import opened Assembly

  /** Why a file is on the failure list.  A partial parse is on the list too,
      although the file is in the index. */
  datatype Reason = Partial(rewrite: bool) | ReadError | Timeout | NoTree | Other(message: Text)

  datatype ParseResult = Parsed(file: ParsedFile) | ParseError(reason: Reason)

  datatype Outcome = Row(row: ParsedRow) | Failed(reason: Reason) | Skipped

  /** Deterministic collaborators: language tables, the text decoder, the
      content digest (hash and line count), the per-path salt, the parser. */
  datatype Frontend = Frontend(
    langOfPath: Text -> Option<Language>,
    shebangCandidate: Text -> bool,
    hasShebang: Text -> bool,
    readSource: Text -> Option<Text>,
    langOfSource: (Text, Text) -> Option<Language>,
    digest: Text -> (Text, u32),
    salt: (Language, Text) -> Option<Text>,
    parse: (Language, Text, Text) -> ParseResult)

  function LanguageFor(f: Frontend, path: Text, source: Text): Option<Language> {
    match f.langOfSource(path, source) case Some(l) => Some(l) case None => f.langOfPath(path)
  }

  /** Extension-less files are looked at only if they may be scripts and are. */
  predicate WorthReading(f: Frontend, path: Text, bytes: Text) {
    f.langOfPath(path) != None || (f.shebangCandidate(path) && f.hasShebang(bytes))
  }

  /** What follows once a file is worth reading; no content is a failed read. */
  function ReadAndParse(f: Frontend, path: Text, content: Option<Text>): (o: Outcome)
    ensures o.Row? ==> o.row.path == path
  {
    match (if content.None? then None else f.readSource(content.value))
    case None => if f.langOfPath(path) == None then Skipped else Failed(ReadError)
    case Some(source) =>
      match LanguageFor(f, path, source)
      case None => Skipped
      case Some(l) => Finished(f, path, source, l, f.parse(l, path, source))
  }

  function Finished(f: Frontend, path: Text, source: Text, l: Language, r: ParseResult): (o: Outcome)
    ensures o.Row? ==> o.row.path == path
  {
    match r
    case ParseError(reason) => Failed(reason)
    case Parsed(p) => Row(ParsedRow(path, l, f.digest(source).0, f.digest(source).1, p))
  }

  function Index(f: Frontend, path: Text, bytes: Text): (o: Outcome)
    ensures o.Row? ==> o.row.path == path
  {
    if WorthReading(f, path, bytes) then ReadAndParse(f, path, Some(bytes)) else Skipped
  }

  /** Real parse errors are never reported as partial parses. */
  ghost predicate HonestReasons(f: Frontend) {
    forall l, p, s :: f.parse(l, p, s).ParseError? ==> !f.parse(l, p, s).reason.Partial?
  }

  /** The note a row leaves on the failure list. */
  function NoteOf(row: ParsedRow): Option<Reason> {
    if row.parsed.partialParse then Some(Partial(row.parsed.cFamilyRewrite)) else None
  }
}
