# graphloom: models and proofs

This Dafny project models the parts of graphloom where a mistake would be silent and proves what they promise:

* the PyYAML-compatible emitter whose text is hashed into cache keys (`Text`, `Resolver`, `Json`, `Scalars`,
  `DoubleQuoted`, `Emitter`, `Writers`), readers that undo it or read it as YAML does (`Lines`, `Folding`, `Parser`,
  `Documents`), and what two requests with the same key text have in common (`CacheKey`);
* the JSON cache and the caching model middleware, over runs with overlapping calls and damaged entries (`Caching`);
* the Studio event timelines: merged deliveries (`Timeline`), the Basic timeline (`Basic`), and the Global timeline with
  its request lifecycles, dynamic community selection and batches (`GlobalEvents`, `Selection`, `Global`);
* staged table handles over memory and Parquet, refining one abstract table (`Tables`);
* the run-history request protocol (`History`), overlapping token windows (`Chunking`), sorted and paginated graph
  lists (`Paging`), and path resolution with the write roots that must stay apart (`Paths`).

`Lists` holds filtering and stable sorting. `dafny verify dfyconfig.toml` checks everything.

Where the source pushes onto a buffer, loops or updates fields, the model is a method or a class, tied by its contract
to a function or predicate about which the properties are proved.

## What is worth knowing

* The key text is injective at every depth: the exact reading used for that also takes a backslash followed by an
  escaped line feed for nothing. YAML takes it for a backslash and a line end, which it folds. The emitter writes that
  when it guards a space at the start of a line and then breaks the line again before the space, so YAML silently reads
  another, longer string. It reads the string itself exactly when that never happens (`DoubleQuoted.YamlReadsDoubleTail`),
  which is so for all strings exactly when the continuation indent is below the line limit
  (`DoubleQuoted.YamlReadsDoubleQuoted`); from 40 levels on there are documents that are read as others
  (`Documents.DeepDocumentMisread`).
* Plain and single-quoted text is broken at any space past the limit, inside a run of spaces too. YAML's line folding
  gives the string back exactly when no break has a further space beside it (`Folding.FoldFormattedString`). YAML reads
  every document as some document, and as itself exactly when both conditions hold of its strings in their places
  (`Documents.YamlReadsDocument`).
* Merging deliveries keeps the first envelope of a sequence number. The merged list is independent of the order of
  deliveries exactly as far as the first deliveries are (`Timeline.MergeDeterminedByFirst`).
* A community that is rated twice has its attempts listed twice (`Selection.DecisionsPartition`), and a valid completion
  event can rate one twice (`Selection.TwiceRatedSplits`).
* A truncating handle that staged no columns leaves the old table when it is closed (`Tables.CloseTruncates`). A
  rejected write drops what was staged while the read position stays, which matters exactly when the reader had yielded
  staged rows (`Tables.RejectedWriteInOrder`, `Tables.RejectedWriteSkipsRows`).
* `loadMore` asks with the cursor of the render that made it. A callback from before an applied refresh can leave a gap
  in the list, or end it early, exactly when the run of its cursor is not held (`History.LoadMoreKeepsPrefix`,
  `History.StaleLoadMoreLeavesGap`).
* A page can end with an item whose id the server refuses as a cursor (`Paging.BlankIdStopsWalk`); following cursors
  visits everything exactly when that never happens (`Paging.WalkVisitsAll`).

## Model

| member | source | states |
|---|---|---|
| `Documents.ParseDumpText` | crates/graphloom-llm/src/cache_key.rs:182-409 | the exact reading of the text of every document is that document: simple and explicit keys, nested and inline blocks, empty collections, every string style, at every depth |
| `Documents.YamlReadsDocument` | crates/graphloom-llm/src/cache_key.rs:182-696 | YAML, folding lines as sections 6.5 and 7.3 of YAML 1.2.2 have it, reads the text of every document as some document, and as itself exactly when no break of its plain and single-quoted strings falls beside a further space and no break of its double-quoted ones parts a guard from its space |
| `Parser.ParseRereads` | crates/graphloom-llm/src/cache_key.rs:182-409 | what either reading finds in the text of every document: each string, in its place, as that reading finds it |
| `Documents.RereadKeeps` | crates/graphloom-llm/src/cache_key.rs:182-409 | what a reading finds is the document exactly when it keeps every string in its place |
| `Documents.YamlReadsShallowDocument` | crates/graphloom-llm/src/cache_key.rs:182-530 | YAML reads back every document of at most 39 levels whose strings have no two adjacent spaces |
| `Documents.DeepDocumentMisread` | crates/graphloom-llm/src/cache_key.rs:641 | from 40 levels on there are documents that YAML silently reads as other documents |
| `CacheKey.KeyTextRoundTrip` | crates/graphloom-llm/src/cache_key.rs:157-180 | the key text of a request determines its filtered kwargs |
| `CacheKey.KeyTextEquality` | crates/graphloom-llm/src/cache_key.rs:157-180 | two requests share a key text exactly when their filtered kwargs are equal JSON values |
| `CacheKey.KwargsKeyText` | crates/graphloom-llm/src/cache_key.rs:168-227 | for kwargs objects: the key text ignores entry order at every depth and the excluded outermost keys, and any other difference changes it |
| `CacheKey.SameValues` | crates/graphloom-llm/src/cache_key.rs:213-227 | two values have the same document exactly when they are equal with objects taken as maps |
| `CacheKey.SortedUnique` | crates/graphloom-llm/src/cache_key.rs:218 | entries sorted by key are determined by the set of entries |
| `CacheKey.FilterKeepsValid` | crates/graphloom-llm/src/cache_key.rs:168-180 | dropping keys leaves a valid kwargs value |
| `CacheKey.GraphragCacheYaml` | crates/graphloom-llm/src/cache_key.rs:157-159 | dumping the filtered kwargs never fails and gives the key text |
| `CacheKey.PlainIsNoOtherScalar` | crates/graphloom-llm/src/cache_key.rs:429-439 | a string styled plain is never the rendering of null, a boolean or a number |
| `Writers.PyYamlDump` | crates/graphloom-llm/src/cache_key.rs:182-186 | the buffer-pushing writers produce exactly the specified document text and never fail |
| `Writers.WriteYamlValue` | crates/graphloom-llm/src/cache_key.rs:188-198 | a value on a fresh line is written as its block and ends its line |
| `Writers.WriteYamlMapping` | crates/graphloom-llm/src/cache_key.rs:200-211 | a mapping on a fresh line: `{}` or its sorted entries |
| `Writers.WriteYamlMappingEntries` | crates/graphloom-llm/src/cache_key.rs:213-227 | the loop writes the sorted entries, the first of them behind a filled line when inline |
| `Writers.WriteYamlMappingEntry` | crates/graphloom-llm/src/cache_key.rs:229-259 | an entry with a simple key on one line or an explicit key on two |
| `Writers.WriteSimpleMappingValue` | crates/graphloom-llm/src/cache_key.rs:261-280 | the value of a simple key: on its line, or below it at the indent its kind asks for |
| `Writers.WriteExplicitMappingValue` | crates/graphloom-llm/src/cache_key.rs:282-301 | the value of an explicit key goes inline behind the colon |
| `Writers.WriteYamlSequence` | crates/graphloom-llm/src/cache_key.rs:303-311 | a sequence on a fresh line, with an indented `[]` when empty |
| `Writers.WriteYamlSequenceWithFirst` | crates/graphloom-llm/src/cache_key.rs:313-347 | the item loop writes every item behind its dash |
| `Writers.WriteNestedSequence` | crates/graphloom-llm/src/cache_key.rs:331-341 | a nested sequence written to a buffer of its own, with its blanks trimmed, is byte for byte what in-place writing gives |
| `Writers.NestedText` | crates/graphloom-llm/src/cache_key.rs:331-341 | trimming the indentation of a separately written sequence leaves its in-place text |
| `Writers.WriteYamlSequenceMapping` | crates/graphloom-llm/src/cache_key.rs:355-372 | a mapping behind a dash has its entries at the indent of the dash plus two |
| `Writers.ColumnAdvances` | crates/graphloom-llm/src/cache_key.rs:698-702 | the byte-counted current column is the true column, since everything written is printable ASCII |
| `Writers.FormatScalar` | crates/graphloom-llm/src/cache_key.rs:374-389 | scalars are formatted, collections are the error case |
| `Writers.FormatStringWithContext` | crates/graphloom-llm/src/cache_key.rs:402-409 | each style is formatted by its loop |
| `Writers.SortToNodes` | crates/graphloom-llm/src/cache_key.rs:213-227 | sorting the entries of a map sorts the entries of its document |
| `Emitter.FormatStringEmitted` | crates/graphloom-llm/src/cache_key.rs:402-409 | all formatted text is printable ASCII and line feeds |
| `Emitter.FormatStringUnlimited` | crates/graphloom-llm/src/cache_key.rs:229-244 | a simple key, formatted without a limit, is one line that does not depend on its column |
| `Scalars.WrapScalarWords` | crates/graphloom-llm/src/cache_key.rs:511-530 | the loop breaks at a space past the limit unless it is the last character |
| `Scalars.FormatSingleQuotedScalar` | crates/graphloom-llm/src/cache_key.rs:445-447 | one-line single-quoted text with doubled quotes |
| `Scalars.FormatSingleQuotedMultilineScalar` | crates/graphloom-llm/src/cache_key.rs:449-504 | the line buffer loop writes the quoted text, n line feeds as n plus one |
| `Scalars.WriteOriginalNewlineGroup` | crates/graphloom-llm/src/cache_key.rs:506-509 | what is appended for a group of line feeds is read back as exactly that many line feeds |
| `Scalars.ReadWrapped` | crates/graphloom-llm/src/cache_key.rs:511-530 | plain text is unfolded to its string wherever the breaks fell |
| `Scalars.ReadQuotedTail` | crates/graphloom-llm/src/cache_key.rs:449-530 | single-quoted text is unfolded to its string: quotes, line feeds and breaks |
| `Scalars.WrapDoubledLine` | crates/graphloom-llm/src/cache_key.rs:449-530 | doubling the quotes and wrapping line by line is the quoted text of the whole string |
| `Parser.ReadFormattedString` | crates/graphloom-llm/src/cache_key.rs:402-409 | every formatted string, in whatever style its classification picks, is read at the end of a line: back to itself by the exact reading, to the content that its breaks leave by the YAML reading |
| `Folding.FoldFormattedString` | crates/graphloom-llm/src/cache_key.rs:429-530 | plain and single-quoted text is undone by the line folding of YAML 1.2.2 section 6.5 exactly when no break falls on a space that has a space before or after it; otherwise a shorter string is read |
| `Folding.FoldWrapped` | crates/graphloom-llm/src/cache_key.rs:511-530 | section 6.5 folding of wrapped plain text finds one content, wherever the breaks fell and whatever follows |
| `Folding.PlainContentLoses` | crates/graphloom-llm/src/cache_key.rs:519 | that content is the string exactly when every break stands alone, and shorter otherwise |
| `Folding.FoldQuotedTail` | crates/graphloom-llm/src/cache_key.rs:449-530 | section 6.5 folding of single-quoted text finds one content, k plus one line feeds back to k |
| `Folding.QuotedContentLoses` | crates/graphloom-llm/src/cache_key.rs:449-530 | that content is the string exactly when every break stands alone, and shorter otherwise |
| `Folding.SingleSpacesWrap` | crates/graphloom-llm/src/cache_key.rs:511-530 | without two adjacent spaces every break stands alone |
| `Folding.TwoSpaces` | crates/graphloom-llm/src/cache_key.rs:519 | "a  b" is folded back exactly when both its spaces stand within the limit |
| `DoubleQuoted.FormatDoubleQuotedScalar` | crates/graphloom-llm/src/cache_key.rs:599-649 | the loop with its pending characters writes the specified double-quoted text |
| `DoubleQuoted.Visit` | crates/graphloom-llm/src/cache_key.rs:607-646 | one turn of the loop: the text so far, the pending characters and the signed column stay in step |
| `DoubleQuoted.BreakLine` | crates/graphloom-llm/src/cache_key.rs:623-644 | a break writes what is pending, the escaped line feed and the guard of a following blank |
| `DoubleQuoted.ReadDoubleTail` | crates/graphloom-llm/src/cache_key.rs:599-696 | either reading takes double-quoted text at every indent for one content, before whatever follows: to YAML each guard parted from its space is a further backslash and space |
| `DoubleQuoted.DoubleContentGrows` | crates/graphloom-llm/src/cache_key.rs:636-644 | that content is the string to the exact reading always, to YAML exactly when all guards hold, and longer otherwise |
| `DoubleQuoted.YamlReadsDoubleTail` | crates/graphloom-llm/src/cache_key.rs:599-649 | for every string, column, indent and width: YAML reads the text as some string, as its own exactly when no break after an escape writes a guard for a space that is broken again on the next line, and as a longer one otherwise |
| `DoubleQuoted.GuardsHoldWithin` | crates/graphloom-llm/src/cache_key.rs:636-644 | all guards hold where continuation lines start left of the limit |
| `DoubleQuoted.YamlReadsDoubleQuoted` | crates/graphloom-llm/src/cache_key.rs:636-644 | the YAML reading recovers every string at every column exactly when the continuation indent is below the limit |
| `DoubleQuoted.DeepIndentMisread` | crates/graphloom-llm/src/cache_key.rs:641 | a guarded space is broken again exactly when it stands at the limit on its line and on the next, and YAML then silently reads the guard as a backslash and the line end as a space |
| `DoubleQuoted.ReadEscapeOf` | crates/graphloom-llm/src/cache_key.rs:661-696 | every escape of YAML 1.2.2 section 5.7 that is written is read back to its character |
| `DoubleQuoted.HexRoundTrip` | crates/graphloom-llm/src/cache_key.rs:690-696 | hexadecimal digits of the fixed width are read back |
| `DoubleQuoted.DoubleTailUnlimited` | crates/graphloom-llm/src/cache_key.rs:599-649 | without a limit the text does not depend on where it starts |
| `Json.NumberResembles` | crates/graphloom-llm/src/cache_key.rs:570-597 | every number rendering, rewritten exponents included, is in the resolver language |
| `Resolver.IntegerResembles` | crates/graphloom-llm/src/cache_key.rs:52-74 | signed decimal integers are in the resolver language |
| `Resolver.FloatResembles` | crates/graphloom-llm/src/cache_key.rs:52-74 | decimals with a signed exponent or none are in the resolver language |
| `Caching.SameKeySameKwargs` | crates/graphloom-llm/src/cache_key.rs:94-149 | up to hash collisions, two valid requests have the same cache key exactly when their kwargs agree outside the excluded keys |
| `Caching.MissingFormatIsNull` | crates/graphloom-llm/src/cache_key.rs:94-107 | a completion without `response_format` has the key of one whose format is null |
| `Caching.KwargsAreValid` | crates/graphloom-llm/src/types/request.rs:348-363 | a request without conflicting extras serialises to an object with distinct keys |
| `Caching.JsonCache.Get` | crates/graphloom-cache/src/json.rs:30-54 | what is stored, and the deletion of a file that is not JSON |
| `Caching.JsonCache.SetWithDebug` | crates/graphloom-cache/src/json.rs:56-80 | the envelope is stored, null is ignored, a value that is not JSON is refused |
| `Caching.JsonCache.Delete` | crates/graphloom-cache/src/json.rs:86-91 | the entry is gone and nothing else changes |
| `Caching.JsonCache.Clear` | crates/graphloom-cache/src/json.rs:93-95 | nothing is left |
| `Caching.EnvelopeHolds` | crates/graphloom-cache/src/json.rs:70-72 | the envelope holds the value unless debug data has its own `result`, which then wins |
| `Caching.GetAfterSet` | crates/graphloom-cache/src/json.rs:30-80 | what was set is read, as an equal JSON value |
| `Caching.CachedModel.ReadCached` | crates/graphloom-llm/src/middleware/cached.rs:117-132 | the usable payload, and the deletion of an unusable one |
| `Caching.CachedModel.WriteCached` | crates/graphloom-llm/src/middleware/cached.rs:134-150 | the payload is stored in its envelope under the key |
| `Caching.CachedModel.Call` | crates/graphloom-llm/src/middleware/cached.rs:51-68 | one call: refused, bypassed, hit, or missed and written; `Caching.CallTakesStep` makes it a step of the runs below |
| `Caching.RunsAreSound` | crates/graphloom-llm/src/middleware/cached.rs:51-150 | over every interleaving of calls, misses, provider failures and damaged entries, every answer is the provider's answer to that request, and every usable entry holds the answer for its key |
| `Caching.BypassesLeaveCache` | crates/graphloom-llm/src/middleware/cached.rs:53-55 | runs of bypassed and refused calls leave every entry alone and are all answered |
| `Caching.EachKeyOnce` | crates/graphloom-llm/src/middleware/cached.rs:56-67 | without damage and overlap the provider answers each key at most once, and an answered key stays usable |
| `Caching.EachKeyExactlyOnce` | crates/graphloom-llm/src/middleware/cached.rs:56-67 | from an empty cache, without damage and overlap, every key accepted while the provider was up is asked for exactly once |
| `Caching.WriteKeepsSound` | crates/graphloom-llm/src/middleware/cached.rs:134-150 | writing an answer keeps every other request sound, because a shared key means equal kwargs |
| `Timeline.MergeHolds` | studio/src/lib/explainability.ts:52-60 | merging holds the first delivery of every sequence number, in strict order |
| `Timeline.MergeDeterminedByFirst` | studio/src/lib/explainability.ts:52-60 | two delivery streams merge to the same list exactly when they agree on first deliveries |
| `Timeline.MergeOrderIrrelevant` | studio/src/lib/explainability.ts:52-60 | when redeliveries agree, order and duplicates do not matter and everything delivered is held |
| `Timeline.Partition` | studio/src/lib/semantic-basic.ts:223 | filtering by unclaimed sequence number leaves exactly what is not shown |
| `Timeline.LastWhere` | studio/src/lib/semantic-basic.ts:337-339 | the last match, and over ordered events the one of the greatest sequence number |
| `Basic.SelectPairLifecycle` | studio/src/lib/semantic-basic.ts:313-328 | the latest completion under the cutoff with a start above the floor, with its latest start; else the latest start |
| `Basic.SelectContextLifecycle` | studio/src/lib/semantic-basic.ts:227-255 | the latest completed context that ends a supported chain on one span; no later one has a chain |
| `Basic.SelectSection` | studio/src/lib/semantic-basic.ts:234-254 | the latest coherent section with its latest budget |
| `Basic.SelectRetrievalLifecycle` | studio/src/lib/semantic-basic.ts:270-300 | the preferred branch: a skip when nothing is expected, a usable decision with its latest source, else the latest source or skip |
| `Basic.BuildBasicSemanticTimeline` | studio/src/lib/semantic-basic.ts:83-225 | every lifecycle is the latest its window allows, the steps show exactly the chosen events in order, the rest are diagnostics |
| `Basic.ClassifyEvents` | studio/src/lib/semantic-basic.ts:96-122 | the candidate lists hold the valid children of the root inside the query window |
| `Basic.EachEnvelopeOnce` | studio/src/lib/semantic-basic.ts:83-225 | each envelope is in exactly one place: one of the three steps or the diagnostics |
| `Basic.DeliveriesPlacedOnce` | studio/src/lib/semantic-basic.ts:83-225 | whatever was delivered, the timeline of the merged deliveries puts the first delivery of every sequence number in exactly one place, and nothing else anywhere |
| `Basic.CompletedContextIsBacked` | studio/src/lib/semantic-basic.ts:227-268 | a completed context is a chain on one span inside the window whose section is backed by matching candidates or a skip with no candidates |
| `GlobalEvents.SelectLlmLifecycle` | studio/src/lib/semantic-global.ts:614-629 | the loop is the backward search over the valid events |
| `GlobalEvents.SearchIsTest` | studio/src/lib/semantic-global.ts:622-628 | over ordered events the backward search is the test of the latest valid completion alone |
| `GlobalEvents.SearchFindsLatest` | studio/src/lib/semantic-global.ts:614-629 | it returns the latest valid completion with its greatest start, or the latest start when none precedes it |
| `GlobalEvents.GroupBy` | studio/src/lib/semantic-global.ts:599-603 | appending to a map of lists groups the events by key |
| `GlobalEvents.LatestByKey` | studio/src/lib/semantic-global.ts:452-469 | a map set in order keeps one event for each key, the latest |
| `Selection.WindowIsCoherent` | studio/src/lib/semantic-global.ts:424-447 | a chosen completion is the latest one consistent with the threshold of its start, and that start is the start of the window |
| `Selection.BuildDynamicSelection` | studio/src/lib/semantic-global.ts:410-521 | the window, its canonical waves and attempts, the decisions and the raw events are the specified ones |
| `Selection.BuildDynamicAttemptView` | studio/src/lib/semantic-global.ts:523-557 | an attempt is shown with the latest lifecycle of its request inside the window |
| `Selection.RawEventsInsideWindow` | studio/src/lib/semantic-global.ts:443-492 | every raw event lies between the start and the completion of the window |
| `Selection.RawEventsAreCandidates` | studio/src/lib/semantic-global.ts:487-492 | every raw event is a candidate or a model request of the run |
| `Selection.IdentityInjective` | studio/src/lib/semantic-global.ts:559-561 | attempt identities are unambiguous for all community ids |
| `Selection.DistinctSlots` | studio/src/lib/semantic-global.ts:457-469 | no two attempts shown are for the same repeat of the same community |
| `Selection.AttemptsFit` | studio/src/lib/semantic-global.ts:452-469 | with waves and a start, the attempts number at most the repeats times the wave communities |
| `Selection.DecisionsPartition` | studio/src/lib/semantic-global.ts:480-486 | the attempts of the decisions are the attempts shown, each once, exactly when no attempted community is rated twice |
| `Selection.TwiceRatedSplits` | studio/src/lib/semantic-global.ts:480-486 | a valid run whose completion rates an attempted community twice, and whose decisions therefore repeat an attempt |
| `Selection.DecisionAscends` | studio/src/lib/semantic-global.ts:482-486 | the attempts of a decision are in strict order of their repeats |
| `Global.BuildBatch` | studio/src/lib/semantic-global.ts:218-238 | a batch is its latest build under the map span, the builds on that span and the latest request |
| `Global.BuildBatches` | studio/src/lib/semantic-global.ts:218-239 | one batch for each index that has a build under the map span |
| `Global.AssignPoints` | studio/src/lib/semantic-global.ts:241-259 | each batch gets its latest eligible points |
| `Global.BatchesInOrder` | studio/src/lib/semantic-global.ts:227-254 | every batch of a timeline is built, requested, answered and turned into points in that order, with no further request in between |
| `Global.BuildGlobalSemanticTimeline` | studio/src/lib/semantic-global.ts:172-403 | the five steps hold what their lifecycles say and the diagnostics what is unclaimed |
| `Global.DiagnosticsAreTheRest` | studio/src/lib/semantic-global.ts:400-403 | the diagnostics are exactly the events that no step shows, and every event shown is of the run |
| `Global.TimelineSelection` | studio/src/lib/semantic-global.ts:172-521 | the selection of any Global timeline has one attempt for each repeat of a community, stays inside its window, fits the repeats of the wave communities, and agrees with the threshold of the start on its span |
| `Global.CommunityShows` | studio/src/lib/semantic-global.ts:264-267 | Community Context shows the context, the map start and the canonical builds, and leaves superseded builds to the diagnostics |
| `Global.FindAnswer` | studio/src/lib/semantic-global.ts:281-290 | the answer is the latest request under the parent of the reduce context, and none after a skip |
| `Tables.AppendConcatenates` | crates/graphloom-storage/src/table/mod.rs:139-167 | appending concatenates the rows as column-name maps, whatever the column orders |
| `Tables.MemoryTable.constructor` | crates/graphloom-storage/src/table/memory.rs:78-97 | a handle opens with a snapshot, or nothing when truncating |
| `Tables.MemoryTable.Write` | crates/graphloom-storage/src/table/memory.rs:146-151 | rows are staged, a rejected write leaves nothing staged |
| `Tables.MemoryTable.Close` | crates/graphloom-storage/src/table/memory.rs:168-184 | the staged rows are committed onto the table as it is at close |
| `Tables.MemoryTable.AbortWrites` | crates/graphloom-storage/src/table/memory.rs:186-190 | nothing stays staged |
| `Tables.MemoryTable.Next` | crates/graphloom-storage/src/table/mod.rs:189-208 | the next row: existing, then staged |
| `Tables.ParquetTable.constructor` | crates/graphloom-storage/src/table/parquet.rs:103-120 | the same over objects that decode |
| `Tables.ParquetTable.Write` | crates/graphloom-storage/src/table/parquet.rs:158-163 | the same staging |
| `Tables.ParquetTable.Close` | crates/graphloom-storage/src/table/parquet.rs:180-208 | commits like a memory handle under decoding, and leaves unreadable objects alone |
| `Tables.ParquetTable.AbortWrites` | crates/graphloom-storage/src/table/parquet.rs:210-214 | the same abort |
| `Tables.ParquetTable.Next` | crates/graphloom-storage/src/table/parquet.rs:216-220 | the same reading |
| `Tables.HoldsAfterSet` | crates/graphloom-storage/src/table/parquet.rs:200-205 | writing one encoded data frame changes the one table it holds |
| `Tables.SameColumns` | crates/graphloom-storage/src/table/mod.rs:147-165 | selecting by name and comparing types passes exactly when both data frames have the same columns in some order |
| `Tables.AppendRefines` | crates/graphloom-storage/src/table/mod.rs:139-167 | data frames are appended exactly when their sheets of named, typed columns are, with the sheet of the result |
| `Tables.CloseRefines` | crates/graphloom-storage/src/table/memory.rs:168-184 | a close is accepted exactly when the abstract one is, and commits the sheet that the abstract one does |
| `Tables.RunRefines` | crates/graphloom-storage/src/table/memory.rs:144-196 | over every interleaving of handles, the store accepts exactly the writes and closes that the abstract tables accept, and its tables and handles hold the same sheets |
| `Tables.CloseTruncates` | crates/graphloom-storage/src/table/memory.rs:170-182 | closing a truncating handle leaves exactly the staged rows unless it staged no columns, which leaves the old rows |
| `Tables.RunYieldsInOrder` | crates/graphloom-storage/src/table/mod.rs:189-208 | over every interleaving, reads yield existing then staged rows, each once, also across rejected writes and aborts, unless one of these drops rows already yielded |
| `Tables.RunEndsRows` | crates/graphloom-storage/src/table/mod.rs:200-203 | after every interleaving, a reader whose rows were not dropped is told that there are no more rows exactly when it has yielded all of them |
| `Tables.RejectedWriteInOrder` | crates/graphloom-storage/src/table/memory.rs:146-151 | a rejected write puts the reader out of step exactly when it had yielded staged rows |
| `Tables.AbortInOrder` | crates/graphloom-storage/src/table/memory.rs:186-190 | so does an abort |
| `Tables.RejectedWriteSkipsRows` | crates/graphloom-storage/src/table/memory.rs:146-151 | on every truncating handle there are writes and reads after which newly staged rows are skipped |
| `History.RunHistory.Refresh` | studio/src/hooks/use-run-history.ts:24-38 | a refresh becomes the active request |
| `History.RunHistory.LoadMore` | studio/src/hooks/use-run-history.ts:48-69 | the next page is asked for with the rendered cursor, unless there is none or a request is running |
| `History.RunHistory.Resolve` | studio/src/hooks/use-run-history.ts:28-32 | only the answer of the active request is applied |
| `History.RunHistory.Reject` | studio/src/hooks/use-run-history.ts:33-37 | only the failure of the active request is reported |
| `History.RunHistory.Unmount` | studio/src/hooks/use-run-history.ts:42-45 | no request stays active |
| `History.RunConsistent` | studio/src/hooks/use-run-history.ts:13-72 | over every run the active request is the latest one sent and not aborted, and run ids are distinct |
| `History.LoadingWhileActive` | studio/src/hooks/use-run-history.ts:24-69 | from mount to unmount, loading holds exactly while a request is active |
| `History.RunTracks` | studio/src/hooks/use-run-history.ts:24-69 | against a fixed list, whenever its callbacks were rendered, the runs held are a prefix of the list all along exactly when every applied page continues from a run held or from the last run |
| `History.PromptRunTracks` | studio/src/hooks/use-run-history.ts:24-69 | when every `loadMore` is of the current render, the runs held are always a prefix of the list |
| `History.PromptRunCompletes` | studio/src/hooks/use-run-history.ts:54-62 | and an applied answer without a cursor has completed it |
| `History.LoadMoreKeepsPrefix` | studio/src/hooks/use-run-history.ts:48-69 | a served `loadMore` keeps the prefix exactly when the run of its rendered cursor is held or is the last one, and ends the list complete exactly when it is held |
| `History.ResolveTracks` | studio/src/hooks/use-run-history.ts:54-62 | an answer to a request from a run held keeps the prefix, and one without a cursor completes it |
| `History.PrefixIffNoGap` | studio/src/hooks/use-run-history.ts:57-58 | merging a page keeps the prefix exactly when the page leaves no gap behind the runs held |
| `History.StaleLoadMoreLeavesGap` | studio/src/hooks/use-run-history.ts:48-69 | a run of the hook from its first call, against any list of three, that ends with the first and the third run |
| `History.RestAfter` | crates/graphloom-studio/src/api/runs.rs:65-89 | the runs before the cursor of a run are the runs behind it |
| `Chunking.SplitTextOnTokensWithSpans` | crates/graphloom-chunking/src/token_chunker.rs:84-117 | the loop gives one chunk for each window, or the failure of the first window that is not decoded |
| `Chunking.CreateChunkResults` | crates/graphloom-chunking/src/token_chunker.rs:119-144 | one result for each chunk with its index, span, transformed text and token count |
| `Chunking.WindowInside` | crates/graphloom-chunking/src/token_chunker.rs:99-114 | windows start inside the list, each at the end of the one before less the overlap, the last ends the list |
| `Chunking.WindowLength` | crates/graphloom-chunking/src/token_chunker.rs:99-114 | only the last window may be short |
| `Chunking.SharedTokens` | crates/graphloom-chunking/src/token_chunker.rs:99-114 | neighbouring windows share exactly the overlap |
| `Chunking.Covered` | crates/graphloom-chunking/src/token_chunker.rs:99-114 | every token is in a window |
| `Chunking.Rebuilt` | crates/graphloom-chunking/src/token_chunker.rs:99-114 | joining the windows without their overlaps gives the tokens back |
| `Chunking.NotLast` | crates/graphloom-chunking/src/token_chunker.rs:102-114 | the number of windows is none, one, or one plus the rest over the stride rounded up |
| `Paging.Paginate` | crates/graphloom-studio/src/api/graph.rs:507-531 | the items behind the cursor up to the limit, and a cursor when there are more |
| `Paging.WalkVisitsAll` | crates/graphloom-studio/src/api/graph.rs:507-531 | following the cursors ends and visits every item once in order exactly when every cursor handed out is an id the server takes back |
| `Paging.BlankIdStopsWalk` | crates/graphloom-studio/src/api/graph.rs:507-531 | a sorted list of two whose first id holds a blank is not walked to its end by pages of one |
| `Paging.EntitiesTotallyOrdered` | crates/graphloom-studio/src/api/graph.rs:533-543 | entities are totally ordered by every sort in both directions |
| `Paging.RelationshipsTotallyOrdered` | crates/graphloom-studio/src/api/graph.rs:545-556 | relationships are totally ordered by every sort in both directions |
| `Paging.MissingLast` | crates/graphloom-studio/src/api/graph.rs:558-565 | entities without the sorted value come last in both directions |
| `Paging.RelationshipsMissingLast` | crates/graphloom-studio/src/api/graph.rs:558-581 | so do relationships without a weight or a rank |
| `Paging.SortedUnique` | crates/graphloom-studio/src/api/graph.rs:533-556 | a list with distinct ids has exactly one sorted order |
| `Paging.EntitySortIndependent` | crates/graphloom-studio/src/api/graph.rs:533-543 | the stored order of entities does not matter |
| `Paging.RelationshipSortIndependent` | crates/graphloom-studio/src/api/graph.rs:545-556 | the stored order of relationships does not matter |
| `Paging.SortEntities` | crates/graphloom-studio/src/api/graph.rs:533-543 | the slice is reordered to the sorted list |
| `Paging.SortRelationships` | crates/graphloom-studio/src/api/graph.rs:545-556 | the slice is reordered to the sorted list |
| `Paths.NormalizePath` | crates/graphloom/src/path_safety.rs:113-127 | the loop over components gives the normalized names |
| `Paths.NormalizedConcat` | crates/graphloom/src/path_safety.rs:113-127 | normalization is idempotent and can be done piecewise |
| `Paths.FollowNormalizes` | crates/graphloom/src/path_safety.rs:113-127 | where every step meets a plain directory, the operating system ends at the normalized path |
| `Paths.ScanExisting` | crates/graphloom/src/path_safety.rs:184-223 | the loop finds how many names exist, or why the path is refused |
| `Paths.ResolvePathWithExistingAncestor` | crates/graphloom/src/path_safety.rs:176-239 | the longest existing beginning is canonicalized and the missing names follow, or the error of the first step that fails |
| `Paths.RejectedLinksResolveLexically` | crates/graphloom/src/path_safety.rs:129-132 | link-rejecting resolution gives the lexical path, whose existing proper ancestors are directories and which has no link on the way |
| `Paths.RejectSucceedsWhen` | crates/graphloom/src/path_safety.rs:176-239 | it succeeds exactly on such paths |
| `Paths.ResolvedIsLinkFree` | crates/graphloom/src/path_safety.rs:176-239 | under either policy nothing on a resolved path is a link, and nothing before its last name a file |
| `Paths.WritesLandInResolved` | crates/graphloom/src/path_safety.rs:224-238 | once missing directories are made at the resolved path, the lexical path leads exactly there |
| `Paths.ValidatedRootsAreApart` | crates/graphloom/src/project.rs:92-230 | the three validators accept exactly the roots of which no write root shares a path with a root it must not touch, or holds the project, the home or everything |
| `Paths.OutputAccepted` | crates/graphloom/src/project.rs:139-180 | the output validator accepts exactly an output root that shares no path with the data and does not hold the project, the home or everything |
| `Paths.UpdateAccepted` | crates/graphloom/src/project.rs:92-137 | the update validator accepts exactly an update root that also shares no path with the output and the vector database |
| `Paths.VectorAccepted` | crates/graphloom/src/project.rs:182-230 | the vector validator accepts exactly such a vector root that does not hold the output |
| `Paths.AcceptedPathsAreApart` | crates/graphloom/src/project.rs:92-230 | on any file system all three accept exactly the paths whose roots all resolve and are apart |

## Left out

- SHA-256 and hexadecimal output: the hash is a parameter, assumed free of collisions.
- JSON reading and printing and the response types: parameters. What the JSON library represents is assumed to read back as an equal value, objects in any order, and a value equal to a payload to decode to its body.
- Parquet encoding: a parameter, assumed to decode an encoded data frame to itself.
- `f64` display and number printing: a number is its rendered text by the JSON grammar (RFC 8259 section 6) with the decimal display as a parameter, and numbers are compared by their YAML renderings.
- The regular expression engine: the resolver patterns are written as a regular-expression datatype with its language.
- Writers.FormatScalar: only this step returns an error; the block writers call it on scalars only, so they return no result and the proof shows that the error cannot occur.
- `usize::MAX` as the width of simple keys is a width without a limit.
- Caching.RunsAreSound: a run is of one wrapped model, so of one endpoint, and whatever else writes to the cache counts as damage. Damage is the loss of an entry or its replacement by anything that is not a usable payload; a usable payload that this model did not write would be served.
- Caching.CachedModel.Call: storage and serialisation errors, tracing, metrics and the streaming call are not modelled; `up` stands for whether the provider answers.
- Event payloads with missing or mistyped fields are one constructor `Other`; numbers that a validator only asks to be finite are integers.
- Timestamps, elapsed times, titles, token counts and the other summary fields that are copied from the chosen events.
- The order of attempts by `localeCompare`, of the batch and wave views by their index, and of points by theirs; the notice about a run that ended without data.
- Global.BuildGlobalSemanticTimeline: takes events in sequence order, as its caller passes them.
- Tables.ParquetTable.Close: is one step; two closes that overlap between reading and writing the object are not modelled.
- Tables.ParquetTable.constructor: opening an object that cannot be read is an error of the provider and has no handle.
- Table names, namespaces, `has`, column listing and whole-table reads and writes: they add nothing to the staging protocol.
- Polars failures other than different column names or types when appending.
- React rendering and effects other than the order of renders, refreshes, answers and the unmount.
- Paging.SortEntities: the standard library's stable sort is modelled by stable insertion.
- The graph search filters, summaries and projections around the paginated lists.
- Windows path comparison, reparse points, permissions and other I/O errors of the file system; changes of the file system while a path is resolved.
- LanceDB, the OpenAI transport, retries, tiktoken, the sentence splitter and SQLite: libraries that this code calls.
- The response parsers and citation scraping, configuration defaults, prompts, pipelines and routing: nothing in them needs more than reading one branch.
