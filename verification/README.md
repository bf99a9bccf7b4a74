# Astrolabe: verified model of the indexing engine

Astrolabe turns a repository into a code graph (files, symbols, weighted edges),
keeps it up to date from watcher change sets, and answers queries on it. Most of
its speed comes from structures that replace a simple computation by a fast or
an incremental one. Each module here models one of those structures with the
branches, constants and error cases of the code, next to the simple computation
it stands for, and proves that the two agree for every input, run or
interleaving that meets the premises listed below.

| part | modules |
|---|---|
| incremental index | `Resolvers`, `ParseOne`, `ProductCache`, `Incremental`, `IndexMeaning` |
| graph assembly | `Enclosing`, `Edges`, `CallEdges`, `Assembly`, `GraphMeaning` |
| persistent caches | `Stamps`, `CacheKeys`, `StoreRuns`, `StoreSample`, `StoreRebuild`, `CacheWrites`, `WriteThreads` |
| binary codec | `Codec` (formats and laws), `Wire` (buffer and reader), `DecodedText` |
| symbol paths | `NamePath`, `NameMatch`, `NameTable`, `NameQuery` |
| Go interfaces | `GoMethodSets`, `GoIface` |
| graph queries | `PageRank`, `Centrality`, `Reach`, `Mentions` |
| comment and string lexer | `MaskLang`, `MaskOpeners`, `MaskLexer`, `MaskScan`, `CodeMask`; what they come to: `MaskMeaning`, `MaskLiterals`, `MaskHeredocs` |
| heap trimming | `Trim`, `TrimThrift` |
| paths and files | `Paths`, `FileIndex` |
| shared | `Types`, `Sorting`, `Sums` |

`dafny verify dfyconfig.toml` checks everything.

## Where the code and its documentation disagree

The code is modelled as it is; each difference is proved, with the exact
condition under which the promise is kept.

- **Evicted partial parses vanish.** `apply_changeset` is documented to parse an
  evicted file again. A file with syntax errors is in the graph, but it is also
  on the failure list; once its product is evicted, index.rs:1890-1900 takes the
  note for a permanent failure, and the file drops out of the next graph.
  `Incremental.EvictedPartialIsDropped` is a one-file repository where that
  happens; `Incremental.AgreesIffNoneEvicted` shows that an applied graph is the
  cold build's exactly if no unchanged file with such a note has lost its
  product, and `Incremental.Replay` carries this over every history.
  `Incremental.FittingHistory` shows when it never happens: while the products
  of all files of each tree fit the cache budget together, every graph of every
  history is the cold build's, with no further condition.
- **"One more pass before it stops."** A trim request that finds the lock taken
  is told the holder does one more pass (alloc.rs:36-40). Between the holder's
  last look at the dirty flag and its unlock it does not:
  `Trim.RefusedInTheGap` reaches that state, `Trim.OneMorePassIff` gives the
  exact condition. The flag stays set, so the next request picks it up.
- **"Top-level" absolute paths.** The documentation of name paths asks that the
  first segment match a top-level symbol; the code asks that it match the last
  symbol of the sorted ancestor list. With crossing line ranges several
  ancestors are top-level and only one is last: `NameMatch.CrossingRefused` and
  `NameMatch.AbsoluteMeansTopLevel`.
- **Young shebang verdicts.** Every cache keyed by `(mtime, len)` records only
  mtimes older than two seconds, except `shebang_state`, which records young
  ones and trusts them later: `Stamps.ShebangServesStale`,
  `Stamps.ShebangStaleIff`.

## Premises

They are predicates in the contracts, never assumptions.

- *Incremental index* (`Premises`, `Exact`, `ExcludesAre`): the change set is the
  exact difference of the scan-admitted files; the declared build-output
  excludes stay the same; a resolver's `detect` depends on the path set and the
  files it read, and not on excluded files; parsing and resolving are
  deterministic functions; a parse error never carries a partial-parse reason.
  Whether an extension-less file is a script is taken from its present bytes;
  the code may answer that from the cache of young `#!` verdicts described
  above, so the results on the index hold while that cache is not stale.
- *Stamps*: a write dates the file no later than the clock and less than two
  seconds before it; only writes set mtimes; the clock does not go back; one
  read is atomic.
- *Store* (`Sound`): among the sources that files have had by the end of the run,
  no two different ones share a digest, and digests have one length; a parse of
  them uses the path only through its salt and carries placeholder ids; keys and
  parsed strings are UTF-8. `StoreSample.PremisesCanBeMet` is a build that meets
  all of it.
  One process at a time has the database open, as its file lock enforces.
- *Trim*: atomics are sequentially consistent, as interleaved steps.
- *Rankings*: file ids are distinct; arithmetic is over the reals.

## Model

| member | source | states |
|---|---|---|
| Incremental.Build | crates/astrolabe-core/src/index.rs:1676-1723 | a cold build yields a sound snapshot (every held product is the parse of the current bytes, every held resolution what resolving returns now) and the graph of exactly the admitted, parsable files; of their products, all held but the oldest ones too many for the budget |
| Incremental.Apply | crates/astrolabe-core/src/index.rs:1756-1959 | absorbing an exact change set keeps the snapshot sound and yields the graph of its files minus the evicted partial parses, whatever was reused, evicted or resolved again; exactly the touched files and those due for another attempt are parsed; every product of the new graph is held but the oldest ones too many for the budget; retries are counted |
| Incremental.AgreesIffNoneEvicted | crates/astrolabe-core/src/index.rs:1875-1905 | the applied graph equals the cold build's, ids and weights included, if and only if no untouched file noted as a partial parse has lost its product |
| Incremental.EvictedPartialIsDropped | crates/astrolabe-core/src/index.rs:1890-1900 | a one-file history in which the built graph has the file and the applied one is empty |
| Incremental.Replay | crates/astrolabe-core/src/index.rs:1656-1734 | for every sequence of change sets, every snapshot is sound and its graph agrees with a cold build of its tree exactly under the condition above |
| Incremental.FittingHistory | crates/astrolabe-core/src/index.rs:1656-1959 | while the products of all files of each tree fit the budget, every graph of every history is the cold build's |
| Incremental.NothingLost | crates/astrolabe-core/src/index.rs:1875-1905 | from a snapshot whose products all fit the budget no next change set meets an evicted partial parse |
| Incremental.FillProducts | crates/astrolabe-core/src/index.rs:1929-1942 | the held products are the carried-over ones overwritten by one per fresh row, minus the shortest oldest-first part that exceeds the budget |
| Incremental.GraphsAgree | crates/astrolabe-core/src/index.rs:1166-1464 | graphs of nested file sets are equal if and only if the extra files have no row |
| Incremental.ClassifySound | crates/astrolabe-core/src/index.rs:1857-1906 | for an untouched file of a sound snapshot, each of skip, reuse, keep failure and parse again is what a fresh parse would say, except that an evicted partial parse may be kept as a failure |
| Incremental.ClassifyPlans | crates/astrolabe-core/src/index.rs:1857-1906 | an untouched file is read again exactly if it is worth reading, no product is held, and no failure stands or a read error, timeout or missing tree was met fewer than three times; each such attempt is counted |
| Incremental.PlanFiles | crates/astrolabe-core/src/index.rs:1847-1906 | the per-file loop splits the file set into reused rows, carried failures and files to parse, right for all files but the lost ones; which files are parsed, carried over and counted is given exactly |
| Incremental.UpdateFiles | crates/astrolabe-core/src/index.rs:1762-1795 | the new file set and the dirty set, oversized live edits left out of both |
| Incremental.UpdateResolvers | crates/astrolabe-core/src/index.rs:1807-1816 | partial re-detection gives the metadata a cold detection of the new tree gives, and lists every language whose metadata moved |
| IndexMeaning.ColdGraphMeans | crates/astrolabe-core/src/index.rs:1676-1723 | a cold build indexes exactly the files within the size limit, outside the build output of the languages that declare one, that look like source and parse; files, symbols and edges are those their bytes, imports, references, pairs, calls and interfaces mean |
| IndexMeaning.RowIff | crates/astrolabe-core/src/index.rs:724-863 | a file has a row exactly if its bytes read as it: named or script, decodable, in the language content or path settle, with that parse, hash and line count |
| IndexMeaning.FailureIff | crates/astrolabe-core/src/index.rs:724-863 | it is a failure exactly if a named file cannot be decoded or a source does not parse, with that reason |
| Resolvers.Redetect | crates/astrolabe-core/src/resolvers/mod.rs:131-177 | re-running only failed resolvers and those that read a modified file gives the full detection; unlisted languages kept their metadata |
| ProductCache.ParseProductCache.constructor | crates/astrolabe-core/src/index.rs:233-240 | an empty cache with a budget of at least one byte |
| ProductCache.ParseProductCache.InsertAt | crates/astrolabe-core/src/index.rs:260-265 | replaces one entry and keeps the byte count equal to the total of the entries |
| ProductCache.ParseProductCache.Insert | crates/astrolabe-core/src/index.rs:254-258 | the same, at the cache's own generation |
| ProductCache.ParseProductCache.RunPending | crates/astrolabe-core/src/index.rs:275-295 | eviction leaves a cache within budget, dropping the shortest oldest-first prefix: whatever went is no younger than whatever stayed, and the youngest evicted entry would not have fitted |
| ProductCache.TotalInsert | crates/astrolabe-core/src/index.rs:242-265 | replacing an entry changes the byte total by exactly the difference of the two entries |
| ProductCache.PrefixEvicted | crates/astrolabe-core/src/index.rs:275-295 | dropping oldest entries until the rest fits, and no further, is the shortest such prefix |
| ProductCache.NothingEvicted | crates/astrolabe-core/src/index.rs:275-295 | a cache within its budget loses nothing |
| Enclosing.EnclosingSymbols | crates/astrolabe-core/src/index.rs:1528-1583 | for every call the sweep, and the plain scan below its size threshold, return what the plain scan returns |
| Enclosing.Sweep | crates/astrolabe-core/src/index.rs:1545-1583 | the start-sorted list, open set and heap of ends give for each call the smallest containing span, the earliest symbol on ties, none if no span holds the line |
| Enclosing.LinearScanIsSmallest | crates/astrolabe-core/src/index.rs:1522-1537 | the plain scan finds the narrowest containing span, the earliest on ties |
| Enclosing.SmallestUnique | crates/astrolabe-core/src/index.rs:1522-1537 | that answer is unique and never a reversed span |
| Edges.SortAndMerge | crates/astrolabe-core/src/index.rs:1475-1485 | strictly increasing keys, each with the total weight of its raw occurrences |
| Edges.MergeSortedEdges | crates/astrolabe-core/src/index.rs:1489-1517 | merging two strict runs is the canonical form of their concatenation |
| Edges.CanonicalUnique | crates/astrolabe-core/src/index.rs:1470-1517 | a raw edge list has one canonical form |
| CallEdges.FileCallEdges | crates/astrolabe-core/src/index.rs:1373-1440 | sorting sites by caller, pooling targets and folding runs gives the canonical form of one file's raw call edges |
| CallEdges.AllCallEdges | crates/astrolabe-core/src/index.rs:1373-1440 | because symbol id ranges ascend with files, the concatenated runs are canonical without a global sort |
| CallEdges.BuildEdges | crates/astrolabe-core/src/index.rs:1441-1464 | merging file-level edges with call edges is the canonical form of all raw edges |
| Assembly.SymbolRanges | crates/astrolabe-core/src/index.rs:1194-1229 | symbol ids are positions, and each file owns one contiguous range, in path order |
| Assembly.RowsForgetOrder | crates/astrolabe-core/src/index.rs:1166-1176 | parsed rows with distinct paths sort to one list whatever order the workers delivered |
| Assembly.GraphUnique | crates/astrolabe-core/src/index.rs:1166-1464 | rows in path order determine the graph |
| Assembly.AssemblyDeterministic | crates/astrolabe-core/src/index.rs:1130-1142 | any two deliveries of the same rows assemble to equal graphs: ids, symbols, edges, weights |
| Assembly.ResolveRow | crates/astrolabe-core/src/index.rs:1240-1272 | a carried-over resolution list is returned only when it is what resolving afresh returns |
| Assembly.CacheSound | crates/astrolabe-core/src/index.rs:1331-1333 | every recorded resolution entry is what resolving now returns |
| Assembly.AssembleGraph | crates/astrolabe-core/src/index.rs:1166-1464 | the assembled graph is the graph of the sorted rows, with or without reused resolutions |
| GraphMeaning.EdgesMean | crates/astrolabe-core/src/index.rs:1166-1464 | an edge is in the graph exactly if something joins its ends in its direction, and its weight counts how often: imports and namespaces resolved now to the target, project references, pairs, calls from the innermost symbol around the line to at most fifty symbols of the short name, interface satisfaction; imports and namespaces are scoped, all else syntactic |
| GraphMeaning.RawWeight | crates/astrolabe-core/src/index.rs:1276-1464 | each end pair and kind has, over all raw edges, exactly that weight |
| GraphMeaning.GraphNumbered | crates/astrolabe-core/src/index.rs:1194-1229 | row `i` is file `i`, symbols are numbered through in row order, and edges are strictly ordered by ends and kind |
| GraphMeaning.CallerIs | crates/astrolabe-core/src/index.rs:1385-1392 | the caller found for a line is the symbol that encloses it most narrowly, the first on ties |
| GraphMeaning.NamedIsNamesakes | crates/astrolabe-core/src/index.rs:1366-1405 | the targets of a call are all symbols of its name, each once |
| GraphMeaning.ShortNameIs | crates/astrolabe-core/src/index.rs:1394-1399 | a callee's name is what follows its last separator, trailing ones aside |
| Stamps.NoStaleEntry | crates/astrolabe-core/src/scan.rs:700-818 | under every interleaving of writers with stat, trust check, look-up, read and record, an entry whose key is the present `(mtime, len)` holds what the present bytes say |
| Stamps.AnswersAreLinearizable | crates/astrolabe-core/src/index.rs:573-686 | every answer, hit or miss, is that of a version at or after the agent's stat; with no write in between, of the bytes the stat saw |
| Stamps.RecordedAnswers | crates/astrolabe-core/src/index.rs:573-686 | a recorded answer is used: while the file is left alone the next agent that trusts its stat gets the value without a read |
| Stamps.ShebangIff | crates/astrolabe-core/src/index.rs:423-488 | the verdict is yes exactly for `#!` at the start, alone or after a byte order mark |
| Stamps.StaleIffYoung | crates/astrolabe-core/src/index.rs:423-474 | for any such cache, an entry right now can go stale by writes and waiting if and only if it is inside the two-second window and other bytes of its length have another verdict |
| Stamps.ShebangStaleIff | crates/astrolabe-core/src/index.rs:423-488 | for the `#!` verdict: if and only if the entry is young and the file has two bytes or the verdict was yes |
| Stamps.ShebangServesStale | crates/astrolabe-core/src/index.rs:423-474 | a run from a fresh start in which a trusted shebang hit contradicts every version since its stat |
| CacheKeys.KeyInjective | crates/astrolabe-core/src/store.rs:655-660 | the flattened cache key determines language, content hash and path salt |
| CacheKeys.PrefixSeparates | crates/astrolabe-core/src/store.rs:115-117 | a key starts with the prefix of the extractor and format versions that wrote it and of no others |
| StoreRuns.Transparent | crates/astrolabe-core/src/index.rs:724-863 | over every run of builds, file writes, flushes, prunes, cancellations, readers and other binaries whose sources do not collide, each parse outcome is one parsing without a store gives for a version at or after the stat; for an untouched file, the indexing of its bytes |
| StoreRuns.WarmStart | crates/astrolabe-core/src/index.rs:939-1091 | once a build has written what it owed, pruned or not, the store answers every settled untouched file with its row, unread |
| StoreSample.PremisesCanBeMet | crates/astrolabe-core/src/index.rs:939-1091 | a build of one of two files from an empty store to all written meets the premises of both theorems, and the next build finds the stored row |
| StoreRebuild.SecondBuild | crates/astrolabe-core/src/index.rs:939-1091 | the run that closes such a build, opens the next one and looks a settled, untouched file up ends with the same outcome, with no read and no parse |
| StoreRebuild.ContentHit | crates/astrolabe-core/src/index.rs:819-850 | a source whose key has a payload is answered from it, not parsed |
| StoreRebuild.ParsedOnce | crates/astrolabe-core/src/index.rs:819-936 | once a parse is committed, the next job with that key ends with it |
| StoreRebuild.TurnedIffNotWorth | crates/astrolabe-core/src/index.rs:724-760 | a probe turns a file away exactly if its bytes are not worth reading |
| StoreRebuild.OnlyProbesTurn | crates/astrolabe-core/src/index.rs:724-863 | nothing else does |
| StoreRuns.BuildLosesOnlyUnreferenced | crates/astrolabe-core/src/index.rs:958-985 | a build drops only keys and paths it did not reference, only after a full scan has seen every file; a reader or storeless build changes nothing |
| StoreRuns.CancelledBuildKeepsStore | crates/astrolabe-core/src/index.rs:1046-1091 | a cancelled build removes no parse and touches no stamp |
| StoreRuns.FreshPayload | crates/astrolabe-core/src/index.rs:819-850 | an encoded parse stored under its key is the parse of every occurring source with that key |
| StoreRuns.StampHitIsDirect | crates/astrolabe-core/src/index.rs:657-686 | a stamp hit returns the row of a version no older than the stat |
| StoreRuns.LanguageRoundTrip | crates/astrolabe-core/src/store.rs:967-1021 | language tags read back as written |
| CacheWrites.Writes.constructor | crates/astrolabe-core/src/index.rs:882-892 | nothing pushed, nothing pending |
| CacheWrites.Writes.Push | crates/astrolabe-core/src/index.rs:894-912 | every push is in the store or pending, in order; less than the threshold stays pending; a read-only store takes nothing |
| CacheWrites.Writes.Write | crates/astrolabe-core/src/index.rs:914-927 | one batch is handed to the store and counted; a read-only store refuses it and stays as it was |
| CacheWrites.Writes.Flush | crates/astrolabe-core/src/index.rs:929-936 | afterwards everything ever pushed has been handed over, and a writable store holds it |
| CacheWrites.Store.PutCachedParses | crates/astrolabe-core/src/store.rs:470-487 | the chunked transactions insert the batch in order, or nothing when read-only |
| CacheWrites.Store.PutFileStamps | crates/astrolabe-core/src/store.rs:579-595 | the encoded stamps are inserted in order, or nothing when read-only |
| CacheWrites.Store.Prune | crates/astrolabe-core/src/store.rs:524-575 | both tables end up restricted to the live keys and paths and the count is the number of dropped parses; a read-only store refuses |
| CacheWrites.PutAllContents | crates/astrolabe-core/src/store.rs:470-487 | with content-addressed keys no entry is lost and nothing else changes |
| CacheWrites.OrderOfBatches | crates/astrolabe-core/src/index.rs:894-927 | two orders of the same entries leave the same table |
| WriteThreads.InterleavingsAgree | crates/astrolabe-core/src/index.rs:894-936 | however parse threads interleave their locked pushes and unlocked writes, once all is written the table is what one thread pushing in the same order would have left |
| WriteThreads.NothingVanishes | crates/astrolabe-core/src/index.rs:894-936 | at any moment of any interleaving a pushed entry is pending, held by a thread, in the table or in a failed write, and less than the threshold is pending |
| CacheWrites.Persist | crates/astrolabe-core/src/index.rs:939-1000 | pending parses, then stamps, then the prune of a full scan; a read-only store is untouched |
| Codec.VarintRoundTrip | crates/astrolabe-core/src/store.rs:788-833 | every 64-bit value survives LEB128 (section 7.6 of DWARF Version 5), followed by anything |
| Codec.StringRoundTrip | crates/astrolabe-core/src/store.rs:796-858 | length-prefixed UTF-8 survives |
| Codec.SymbolRoundTrip | crates/astrolabe-core/src/store.rs:667-751 | a symbol survives with ids reset, reversed line spans included through wrapping deltas |
| Codec.ParsedRoundTrip | crates/astrolabe-core/src/store.rs:667-751 | decoding an encoded parse gives it back with symbol ids reset |
| Codec.ParsedExact | crates/astrolabe-core/src/store.rs:705-751 | no strict prefix and no extension of anything decodable decodes |
| Codec.EncodingsExact | crates/astrolabe-core/src/store.rs:667-751 | hence no truncation or extension of an encoding decodes |
| Codec.DecodedCountsBounded | crates/astrolabe-core/src/store.rs:843-849 | no decoded list has more elements than bytes were left |
| Codec.StampRoundTrip | crates/astrolabe-core/src/store.rs:753-786 | stamps survive, 128-bit mtimes included |
| Codec.StampExact | crates/astrolabe-core/src/store.rs:769-786 | no strict prefix or extension of a readable stamp is readable |
| DecodedText.DecodedIsEncodable | crates/astrolabe-core/src/store.rs:705-858 | whatever bytes decode, the result has valid texts and placeholder ids, and comes back from its own encoding |
| DecodedText.Utf8Iff | crates/astrolabe-core/src/store.rs:851-858 | a text passes exactly if it spells Unicode scalar values: no surrogates, no overlong forms, nothing past U+10FFFF |
| Wire.ByteBuffer.PutVarint | crates/astrolabe-core/src/store.rs:788-794 | the loop appends the LEB128 bytes of the value |
| Wire.ByteBuffer.PutStr | crates/astrolabe-core/src/store.rs:796-799 | appends length and bytes |
| Wire.ByteBuffer.PutSymbol | crates/astrolabe-core/src/store.rs:680-690 | appends name, tag, signature and wrapped span |
| Wire.EncodeParsed | crates/astrolabe-core/src/store.rs:667-702 | the buffer holds the specified encoding of the whole parse |
| Wire.WireReader.Byte | crates/astrolabe-core/src/store.rs:817-821 | reads one byte or fails, and moves the position as specified |
| Wire.WireReader.Varint | crates/astrolabe-core/src/store.rs:823-833 | at most ten groups, 64-bit truncation in the tenth, as specified |
| Wire.WireReader.Uint32 | crates/astrolabe-core/src/store.rs:835-840 | a varint out of the 32-bit range is an error |
| Wire.WireReader.Len | crates/astrolabe-core/src/store.rs:843-849 | a count beyond the bytes left is an error |
| Wire.WireReader.String | crates/astrolabe-core/src/store.rs:851-858 | length, bounds and UTF-8 checked |
| Wire.DecodeParsed | crates/astrolabe-core/src/store.rs:705-751 | the reader's result is the specified decoding, errors and trailing bytes included |
| Wire.EncodeStamp | crates/astrolabe-core/src/store.rs:753-767 | the buffer holds the specified encoding of the stamp |
| Wire.DecodeStamp | crates/astrolabe-core/src/store.rs:769-786 | the reader's result is the specified decoding of a stamp |
| NamePath.ContainmentOrder | crates/astrolabe-core/src/name_path.rs:332-343 | containment is irreflexive, asymmetric and transitive, for all spans |
| NamePath.ContainsByLines | crates/astrolabe-core/src/name_path.rs:332-343 | containment by sets of lines: the outer symbol has all lines of the inner and more, or the same and alone is of a container kind |
| NamePath.DirectChildren | crates/astrolabe-core/src/name_path.rs:494-506 | exactly the symbols containment covers, none in between |
| NamePath.ContainedIsReached | crates/astrolabe-core/src/name_path.rs:494-506 | whatever is inside is reached by covering steps, at most one more than there are symbols in between |
| NamePath.ExpandOne | crates/astrolabe-core/src/name_path.rs:177-208 | layers from one matcher improve each depth to the shortest chain |
| NamePath.Expand | crates/astrolabe-core/src/name_path.rs:177-208 | each symbol is reported at its least covering-chain length from any matcher, up to the requested depth |
| NamePath.DeepEnough | crates/astrolabe-core/src/name_path.rs:177-208 | with depth at least the number of symbols, exactly what is strictly inside a matcher is reported |
| NameMatch.AncestorsWithinFile | crates/astrolabe-core/src/name_path.rs:476-491 | the containers of a symbol, inner to outer |
| NameMatch.LastIsTopLevel | crates/astrolabe-core/src/name_path.rs:476-491 | no symbol contains the last ancestor |
| NameMatch.ChainMatches | crates/astrolabe-core/src/name_path.rs:526-559 | greedy matching accepts if and only if some in-order embedding exists, for absolute paths one that ends on the last ancestor |
| NameMatch.AbsoluteMeansTopLevel | crates/astrolabe-core/src/name_path.rs:526-559 | the "top-level" reading agrees on every path if and only if all top-level ancestors share the last one's name |
| NameMatch.CrossingRefused | crates/astrolabe-core/src/name_path.rs:526-559 | three symbols with crossing ranges on which they differ |
| NameMatch.MatchOne | crates/astrolabe-core/src/name_path.rs:161-176 | a candidate is kept exactly if its ancestors, level and container status fit the query |
| NameMatch.NameMatchesIff | crates/astrolabe-core/src/name_path.rs:148-160 | a name matches a segment if equal, or, with substrings allowed, if it holds it somewhere |
| NameQuery.Candidates | crates/astrolabe-core/src/name_path.rs:148-160 | the name table and the full scan give the same candidates in the same order |
| NameQuery.Understand | crates/astrolabe-core/src/name_path.rs:94-141 | a query is one name if its whole text names a symbol; else its last segment is the longest tail with a slash that names one; else it is split at slashes; with or without the table |
| NameQuery.MatchNamePath | crates/astrolabe-core/src/name_path.rs:86-215 | the answer holds exactly the symbols of the wanted kind within the depth below a match of the query, each once, with its least depth, in report order; for a query written as names and slashes, directly: below the symbols those names lead to, outermost first |
| NameQuery.ReadsWritten | crates/astrolabe-core/src/name_path.rs:268-288 | reading inverts writing: names joined by slashes come back in order, a leading slash only makes the path absolute, a trailing one only asks for a container |
| NameQuery.AcceptsIffLeads | crates/astrolabe-core/src/name_path.rs:526-559 | inside-out matching accepts exactly if ancestors called as the segments say lie on the chain, outermost first |
| NameQuery.AnswerOrder | crates/astrolabe-core/src/name_path.rs:201-215 | answers go by file, first line, name, last line and id |
| NameQuery.AnswerOnce | crates/astrolabe-core/src/name_path.rs:201-215 | with distinct symbol ids that answer is one sequence |
| NameTable.New | crates/astrolabe-core/src/name_path.rs:405-414 | every position once, ordered by name, then position |
| NameTable.Exact | crates/astrolabe-core/src/name_path.rs:422-428 | two binary searches find what a scan of every name finds |
| NameTable.Groups | crates/astrolabe-core/src/name_path.rs:431-437 | disjoint groups that cover the table, each the scan's answer for its name |
| GoMethodSets.MethodSet | crates/astrolabe-core/src/go_iface.rs:273-295 | the depth-limited walk with one shared seen set is the specified walk |
| GoMethodSets.WalkIsWalked | crates/astrolabe-core/src/go_iface.rs:273-295 | that walk collects only methods of reachable types; when complete, whatever the visited types embed has been seen |
| GoMethodSets.FullSetIsKnown | crates/astrolabe-core/src/go_iface.rs:301-309 | complete: exactly the methods of every type reachable by embedding, cycles included; incomplete: still only of reachable types |
| GoMethodSets.FullSetCollects | crates/astrolabe-core/src/go_iface.rs:273-309 | complete or cut short, a walk has exactly the methods of the declared types it met, among them the type itself and all it embeds from its package |
| GoMethodSets.SmallGroupIsComplete | crates/astrolabe-core/src/go_iface.rs:273-295 | a closed group of at most as many types as the depth limit is always complete, in any order and with cycles |
| GoIface.CollectSets | crates/astrolabe-core/src/go_iface.rs:297-317 | keeps exactly the interfaces with a complete, non-empty set and the other types with a non-empty one, each with its walk's methods, in key order |
| GoIface.CollectImporters | crates/astrolabe-core/src/go_iface.rs:328-334 | for each package, exactly the packages with a file importing it |
| GoIface.Rarest | crates/astrolabe-core/src/go_iface.rs:339-347 | a needed method carried by the fewest types |
| GoIface.ImplementorsArePosted | crates/astrolabe-core/src/go_iface.rs:321-369 | whoever implements an interface is on the posting list of each of its methods |
| GoIface.Filter | crates/astrolabe-core/src/go_iface.rs:352-367 | testing candidates in order and stopping one past the cap |
| GoIface.FindImplementors | crates/astrolabe-core/src/go_iface.rs:339-370 | the same answer as testing every type: all near types covering the set when there are 1 to 50, none otherwise |
| GoIface.EdgesOfInterface | crates/astrolabe-core/src/go_iface.rs:335-384 | the edges into one interface come from exactly the declared types in sight that cover its set, when there are 1 to 50 of them |
| GoIface.ImplementationEdges | crates/astrolabe-core/src/go_iface.rs:297-386 | from the table of types and the import edges alone: an edge is in the result if and only if it joins a declaration of a type to one of an interface it covers, is in sight of, and shares with at most 50 types |
| PageRank.RunPagerank | crates/astrolabe-core/src/graph.rs:573-605 | forty rounds; non-negative restart and start of sum one give non-negative scores of sum one |
| PageRank.RunRound | crates/astrolabe-core/src/graph.rs:581-604 | the pushing loops compute one specified round |
| PageRank.RoundConserves | crates/astrolabe-core/src/graph.rs:581-604 | one round keeps a distribution, dangling nodes and weights included |
| PageRank.RoundEquation | crates/astrolabe-core/src/graph.rs:581-604 | each score is 0.15 of its restart, 0.85 of its inflow (every node splits its score by link weight) and 0.85 of the dangling mass spread by restart |
| PageRank.RestartStays | crates/astrolabe-core/src/graph.rs:573-605 | without links the scores stay the restart |
| PageRank.Normalize | crates/astrolabe-core/src/graph.rs:607-614 | proportional values of sum one, or the input when its sum is not positive |
| Centrality.ImportAdjacency | crates/astrolabe-core/src/graph.rs:544-571 | links by position with the saturating total weight of the import edges between two files |
| Centrality.LinkWeightIgnoresOrder | crates/astrolabe-core/src/graph.rs:544-571 | saturating totals do not depend on the order of edges |
| Centrality.ComputeCentrality | crates/astrolabe-core/src/graph.rs:46-66 | static centrality is a distribution over the files: forty rounds that restart in every file alike |
| Centrality.RankWithHits | crates/astrolabe-core/src/graph.rs:414-496 | the task ranking is a distribution for any positive boosts: forty rounds whose restart gives each file its base score times its boost, 1/n and 1 where it has none, over the sum of these products; without import edges it is that share |
| Centrality.RaisingBoost | crates/astrolabe-core/src/graph.rs:472-489 | a higher boost raises no other file's restart share and strictly raises its own exactly if the base ranks that file and some other above zero |
| Centrality.LinkWeightCounts | crates/astrolabe-core/src/graph.rs:544-571 | a link weighs the sum over its import edges of the larger of one and the edge's weight, fifty times that out of a file in the task's context, up to the largest 64-bit number |
| Centrality.DistributionIsSensible | crates/astrolabe-core/src/graph.rs:472-483 | any distribution over the files, static centrality included, is a fit base |
| Centrality.RankingsIgnoreOrder | crates/astrolabe-core/src/graph.rs:530-571 | neither ranking depends on the order of files or edges |
| Reach.ReachableImports | crates/astrolabe-core/src/graph.rs:811-876 | exactly the files reachable over import edges minus the target, each once, in rank order; nothing for an unknown target |
| Reach.Traverse | crates/astrolabe-core/src/graph.rs:816-841 | the depth-first walk terminates and finds exactly the reachable files |
| Reach.Dependents | crates/astrolabe-core/src/graph.rs:500-502 | the files that reach the target, each once, in rank order |
| Reach.Dependencies | crates/astrolabe-core/src/graph.rs:504-506 | the files the target reaches, each once, in rank order |
| Reach.DependentsDependenciesDual | crates/astrolabe-core/src/graph.rs:500-506 | `b` is a dependent of `a` if and only if `a` is a dependency of `b` |
| Reach.RankOrder | crates/astrolabe-core/src/graph.rs:853-875 | higher score first, then path, first line and id: a total order |
| Mentions.MentionsPath | crates/astrolabe-core/src/graph.rs:623-651 | true if and only if some occurrence, overlapping ones included, has no path character next to it |
| Mentions.MentionIff | crates/astrolabe-core/src/graph.rs:623-651 | a mention splits the text around the path with no letter, digit, underscore or hyphen touching it |
| MaskLexer.TokenGood | crates/astrolabe-mcp/src/code_mask.rs:599-1062 | from any state every inner step advances, paints only what it passed, and keeps the lexer well formed: frames resume strings only, none in Rust, block depth at least one |
| CodeMask.LineKeepsBoundary | crates/astrolabe-mcp/src/code_mask.rs:540-1087 | at every line boundary only a Rust `"` string is pending, no frame resumes a single-line string, heredoc queues are not empty, nothing opened on a line is still to be queued |
| CodeMask.RunTokens | crates/astrolabe-mcp/src/code_mask.rs:599-1062 | the inner loop ends, labels stay as long as the line, and bytes once passed are never repainted |
| CodeMask.MaskLines | crates/astrolabe-mcp/src/code_mask.rs:527-1089 | the program's masks are the mode's view of labels that do not depend on the mode; one mask per line, one bit per byte |
| CodeMask.MaskLine | crates/astrolabe-mcp/src/code_mask.rs:540-1087 | one line, in place on its mask |
| CodeMask.TwoModes | crates/astrolabe-mcp/src/code_mask.rs:545-556 | strings as code turns on exactly the string bytes and never a comment byte |
| CodeMask.MaskOfPrefix | crates/astrolabe-mcp/src/code_mask.rs:540-1089 | the mask of a prefix of the lines is the prefix of the mask |
| CodeMask.LineInsideBlock | crates/astrolabe-mcp/src/code_mask.rs:663-686 | a line inside a block comment that does not close it is all comment, and the comment goes on, no shallower |
| CodeMask.SlashCommentRunsToEnd | crates/astrolabe-mcp/src/code_mask.rs:876-878 | from `//` in code to the end of the line everything is comment |
| MaskMeaning.QuietRun | crates/astrolabe-mcp/src/code_mask.rs:854-1062 | bytes that open nothing stay code |
| MaskMeaning.LineComment | crates/astrolabe-mcp/src/code_mask.rs:873-950 | in every language its line comment takes the rest of the line and nothing else |
| MaskMeaning.HashIsCode | crates/astrolabe-mcp/src/code_mask.rs:889-906 | a hash that starts no comment is code |
| MaskMeaning.BlockComment | crates/astrolabe-mcp/src/code_mask.rs:663-686 | a block comment is comment from its opener through the first closer, or where comments nest through the one that balances, and code goes on after it |
| MaskMeaning.StringLiteral | crates/astrolabe-mcp/src/code_mask.rs:767-808 | a literal of one line is string through its first unescaped closing quote |
| MaskMeaning.StringBody | crates/astrolabe-mcp/src/code_mask.rs:767-853 | so is the rest of a string from inside it, of one line or of many |
| MaskMeaning.StringGoesOn | crates/astrolabe-mcp/src/code_mask.rs:767-853 | without such a quote the rest of the line is string and the string goes on |
| MaskMeaning.RawBody | crates/astrolabe-mcp/src/code_mask.rs:687-702 | raw strings and long comments end with the first terminator or go on |
| MaskMeaning.InterpolationOpens | crates/astrolabe-mcp/src/code_mask.rs:785-802 | code starts in a string exactly where the language says, in a frame that remembers the string |
| MaskMeaning.InterpolationCloses | crates/astrolabe-mcp/src/code_mask.rs:856-872 | the delimiter that balances the opening one ends the interpolation and the string around it goes on |
| MaskMeaning.StepReads | crates/astrolabe-mcp/src/code_mask.rs:211-247 | which openers interpolate and which bytes hide the next, language by language |
| MaskLiterals.RegexIsString | crates/astrolabe-mcp/src/code_mask.rs:1033-1042 | where an operand may stand a regex literal is string, flags included |
| MaskLiterals.SlashIsCode | crates/astrolabe-mcp/src/code_mask.rs:1033-1042 | anywhere else, or unclosed, a slash is code |
| MaskLiterals.JsRegexAfter | crates/astrolabe-mcp/src/code_mask.rs:488-526 | JavaScript expects an operand at the start of a line, after operators and braces, and after thirteen words |
| MaskLiterals.PrefixInterpolates | crates/astrolabe-mcp/src/code_mask.rs:193-208 | which string prefixes interpolate in Python, C# and Scala |
| MaskLiterals.PercentCloses | crates/astrolabe-mcp/src/code_mask.rs:602-662 | a Ruby `%` literal is string up to the delimiter that balances its opening one |
| MaskLiterals.PercentInterpolates | crates/astrolabe-mcp/src/code_mask.rs:602-662 | its interpolations are code and it goes on after them as deep as it was |
| MaskLiterals.CsIsString | crates/astrolabe-mcp/src/code_mask.rs:703-766 | a C# raw string ends with the first run of at least as many quotes as opened it, a verbatim one with the first odd run |
| MaskLiterals.CsInterpolates | crates/astrolabe-mcp/src/code_mask.rs:703-766 | code follows as many braces as there were dollars |
| MaskLiterals.RustQuote | crates/astrolabe-mcp/src/code_mask.rs:1013-1029 | a quote in Rust begins a character, escaped or of one UTF-8 width, or else a lifetime |
| MaskLiterals.QuoteIsCode | crates/astrolabe-mcp/src/code_mask.rs:1011-1053 | quotes within a plain YAML scalar and between C digits are code, and so is what a backslash hides in the shell |
| MaskHeredocs.EndOfLine | crates/astrolabe-mcp/src/code_mask.rs:1063-1087 | strings of one line end with it and with them every interpolation they hold, but for Rust strings; heredocs opened outside of other literals are next; anything else goes on |
| MaskHeredocs.OpeningLine | crates/astrolabe-mcp/src/code_mask.rs:919-934 | each opener on a line is string and queues its heredoc, in order |
| MaskHeredocs.Bodies | crates/astrolabe-mcp/src/code_mask.rs:558-585 | the bodies follow in the order of their openers; every byte up to the first line with the terminator is string, but for the interpolations; then code goes on, in PHP in the same line |
| MaskHeredocs.HeredocsRead | crates/astrolabe-mcp/src/code_mask.rs:540-1087 | over whole files: a line that opens heredocs, their bodies, and after the last terminator the lexer is back where it was before the line |
| MaskHeredocs.CloseIff | crates/astrolabe-mcp/src/code_mask.rs:408-427 | a line closes a heredoc exactly if it holds its terminator, indented if it may be, with nothing but white space after it, in PHP no more of a word |
| MaskHeredocs.CommentBlock | crates/astrolabe-mcp/src/code_mask.rs:586-598 | from `=begin` through the first `=end` every byte is comment, and then the lexer is where it was |
| MaskScan.TakeToken | crates/astrolabe-mcp/src/code_mask.rs:599-1062 | one turn of the main loop, branch by branch and with the scanning loops of strings, comments and openers, is the specified step |
| MaskScan.LoopRegexEnd | crates/astrolabe-mcp/src/code_mask.rs:1156-1177 | the loop over a regex body, its class flag and its flags finds the specified end |
| MaskScan.LoopRubyPercent | crates/astrolabe-mcp/src/code_mask.rs:290-331 | the backward scans decide as specified whether `%` opens a literal |
| CodeMask.PaintBody | crates/astrolabe-mcp/src/code_mask.rs:573-584 | a heredoc body line is string except for its interpolations |
| MaskScan.LoopInterp | crates/astrolabe-mcp/src/code_mask.rs:429-462 | the loop over a heredoc line returns the specified ranges |
| MaskLang.Find | crates/astrolabe-mcp/src/code_mask.rs:464-469 | the first occurrence, or none at all |
| MaskOpeners.RegexEndIff | crates/astrolabe-mcp/src/code_mask.rs:1156-1177 | a regex literal ends, with its flags, after the first slash that is neither escaped nor in a character class, and nowhere else |
| MaskOpeners.InterpByRange | crates/astrolabe-mcp/src/code_mask.rs:429-462 | the code ranges of a heredoc line are those of its unescaped openers from left to right, each up to its matching brace |
| MaskOpeners.MatchingBraceBalances | crates/astrolabe-mcp/src/code_mask.rs:446-456 | the matching brace is the first one that closes more than was opened, or the end of the line |
| MaskOpeners.CppRawOpenIff | crates/astrolabe-mcp/src/code_mask.rs:1129-1144 | a C++ raw opener is read exactly for a delimiter of at most 17 allowed bytes and a parenthesis, and is closed by that delimiter |
| MaskOpeners.CsOpenerReads | crates/astrolabe-mcp/src/code_mask.rs:1094-1108 | three or more quotes open a C# raw string with as many braces as dollars, fewer after an `@` a verbatim one, anything else none |
| MaskOpeners.RubyHeredocReads | crates/astrolabe-mcp/src/code_mask.rs:334-359 | flagged Ruby heredocs open anywhere, bare ones only if quoted or upper-case and not glued to an operand; single quotes stop interpolation |
| MaskOpeners.PhpHeredocReads | crates/astrolabe-mcp/src/code_mask.rs:362-381 | a PHP heredoc opens if and only if its identifier ends the line |
| MaskOpeners.IdentIsText | crates/astrolabe-mcp/src/code_mask.rs:384-405 | every identifier read for a heredoc is a word, bare or between equal quotes |
| MaskOpeners.PercentReads | crates/astrolabe-mcp/src/code_mask.rs:290-331 | after an operator every `%` literal is read up to the partner of its delimiter |
| MaskOpeners.RemainderStays | crates/astrolabe-mcp/src/code_mask.rs:290-331 | `%` before a blank, word or number, or as `%=` after an operand, opens nothing |
| Trim.OneWalkAtATime | crates/astrolabe-mcp/src/alloc.rs:41-57 | under every interleaving at most one heap walk is open and at most three begin in one hold of the lock |
| Trim.RequestsAreKept | crates/astrolabe-mcp/src/alloc.rs:41-57 | after each request a walk begins or is about to, or the dirty flag is set; it is set exactly while some request has not been taken by a pass |
| Trim.QuietRequestsAreCalled | crates/astrolabe-mcp/src/alloc.rs:96-125 | each quiet-time request is followed by a release call begun after it, because one thread holds the queued flag until it clears it |
| Trim.OneMorePassIff | crates/astrolabe-mcp/src/alloc.rs:36-57 | a refused request is served before the holder leaves, whatever the interleaving, if and only if the holder has a pass left |
| Trim.RefusedInTheGap | crates/astrolabe-mcp/src/alloc.rs:41-57 | a run in which a request is refused by a holder with no pass left |
| TrimThrift.WalksSpendRequests | crates/astrolabe-mcp/src/alloc.rs:41-57 | in every interleaving there are at most as many walks as requests: each walk spends the mark of a request of its own |
| TrimThrift.CallsAfterFiveSeconds | crates/astrolabe-mcp/src/alloc.rs:96-120 | the waiting thread goes on to its call exactly if five seconds have passed since the last request it saw, whatever happens in between |
| Paths.NewRelPath | crates/astrolabe-core/src/types.rs:13-29 | the nested loops compute the normal form |
| Paths.NormalIffFixed | crates/astrolabe-core/src/types.rs:13-74 | a path is normal if and only if normalising leaves it alone; normalising always ends in a normal path |
| Paths.PrefixesStrip | crates/astrolabe-core/src/types.rs:13-29 | normalising strips slashes and `./` in front, in either spelling of the slash |
| Paths.LoopJoinRel | crates/astrolabe-core/src/types.rs:78-90 | the segment loop computes the specified join |
| Paths.JoinedIsClean | crates/astrolabe-core/src/types.rs:78-90 | a joined path has no `.`, `..` or empty segment, and joining it again changes nothing |
| Paths.JoinEnters | crates/astrolabe-core/src/types.rs:78-90 | joining two paths enters the segments of both in turn |
| Paths.JoinRules | crates/astrolabe-core/src/types.rs:78-90 | plain segments stay in order, empty ones and `.` mean nothing, `..` takes back the plain one before it and cannot leave the root |
| Paths.LoopEscapesRoot | crates/astrolabe-core/src/types.rs:898-916 | the depth loop computes the specified test |
| Paths.EscapesIffJoinFails | crates/astrolabe-core/src/types.rs:898-916 | without backslashes, a path escapes if and only if it is absolute, has a drive letter, or cannot be joined onto the root |
| FileIndex.FileIndex.constructor | crates/astrolabe-core/src/types.rs:495-517 | ordered distinct paths, and as directories exactly the ancestors of some path |
| FileIndex.FileIndex.HasDir | crates/astrolabe-core/src/types.rs:577-579 | true if and only if the root is asked for or some file lies under the directory |
| FileIndex.FileIndex.Contains | crates/astrolabe-core/src/types.rs:523-532 | any spelling of a path finds its normal form |
| FileIndex.FileIndex.IterPrefix | crates/astrolabe-core/src/types.rs:536-543 | a range seek and a walk give what filtering all paths gives, in order |
| FileIndex.PrefixBlock | crates/astrolabe-core/src/types.rs:536-543 | paths that share a prefix sit together in path order |
| Sorting.SortIgnoresOrder | crates/astrolabe-core/src/index.rs:1176 | sorting by an order that separates distinct elements forgets the input order |

## Left out

- Parsing, resolver internals, the `ignore` walker, redb, moka and LSP: functions or tables with the stated premises, because their code is foreign.
- Report fields (`too_large`, unresolved imports, excluded sources) and logging: they do not feed back into the graph.
- Transient failures: parsing is deterministic here, so a retried timeout fails again; the retry bookkeeping is modelled, its effect on a racing file is not.
- Integer widths of ids, weights and byte totals: unbounded, except in the codec (32, 64 and 128 bits) and in the saturating link weights.
- CacheWrites.Writes.Push: is the call of one thread; `WriteThreads` has the interleavings of many.
- StoreRuns.Transparent: does not model a corrupt database file; a damaged store is moved aside, which is a lost table here.
- Stamps.NoStaleEntry: does not model torn reads or clocks set back; the capacity limit is a step that forgets any entries.
- Trim.QuietRequestsAreCalled: does not cover a failed thread spawn, after which the code drops the request by design; the quiet interval only delays the call.
- NameQuery.MatchNamePath: Unicode trimming and lower-casing are functions; the depth is not limited to 8 bits.
- MaskHeredocs.HeredocsRead: is said of openers with plain code around them; whatever else a line holds, `MaskHeredocs.EndOfLine` says what it leaves queued and `MaskHeredocs.Bodies` goes on from there.
- MaskMeaning.QuietRun: leaves Rust out, where the letters of raw-string prefixes are looked at too; `MaskMeaning.LineComment`, `BlockComment` and `StringLiteral` include it.
- GoIface.ImplementationEdges: takes the table of declared types as given; see the next line.
- Collecting Go types and methods from signatures, with its eight-container look-back: a heuristic with no independent specification.
- Centrality.RankWithHits: takes boosts and context files as inputs, because the task-word heuristics behind them have no independent specification.
- Floating-point rounding: rankings are over the reals.
- The lexer's extension table: the language is an input.
- Directory entries, name look-ups and file reads of the file index: easy members of the same class.
- `elect.rs`, `freshness.rs`, `budget.rs`, `cache.rs`, `render.rs`, `body.rs`, `paths.rs`, `text_search.rs`, the command line, scripts and plug-ins: locks, library wrappers and plumbing.
