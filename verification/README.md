# InfluxDB IOx: a verified model

This project models five parts of InfluxDB IOx in Dafny and proves what they are for.

* **Compaction and garbage collection.** Ingested level 0 files are selected together with the level 1 files they overlap,
  merged, split in time, uploaded and swapped into the catalog in one transaction; a catalog clean-up and an orphan collector
  remove what is no longer needed. `Protocol` is the transition system of one partition: 18 kinds of steps by ingesters, the
  compactor, its clean-up and the three tasks of the orphan collector, in any order. `ObjectSafety` and `ViewSafety` hold its
  invariants and the main theorems; `Filtering`, `Splitting`, `CatalogUpdates` and `OrphanCollector` are the loops behind the
  steps; `Level1Ranges` and `GapRun` say when ranges stay disjoint; `Finishing`, `Progress` and `StuckRun` say when a selected
  compaction can be carried through, how many can follow each other, and that a partition can stay uncompacted for ever. `Runs`
  is about paths through the protocol.
* **Line protocol.** `LineProtocol` has the text a builder writes, the splitter and the parser. `LineFraming`, `RoundTrip` and
  `BatchRoundTrip` lead to: a batch is read back as it was built *if and only if* every line is well-formed. `LineBuilder` is the
  builder as a class, `ParserLoops` the parser's loops, `SeriesBase` and `SeriesRaw` the base of a series key.
* **Packed Arrow structures.** `Bytes`, `BitSets`, `SetPositions`, `PackedStrings`, `Dictionaries`, `DictionaryColumns`: each
  refines a plain sequence.
* **Statistics and names.** `Statistics`, `TableSummaries`: merging summaries is summarising the concatenation. `DatabaseNames`:
  the mapping from organisation and bucket to database is injective.
* **Dedicated executor.** `Executor`: the shutdown protocol over all interleavings.

`Basics` and `TextOrder` hold what several parts share.

## How the model reads the source

* A file's rows are a map from cells to values, where a cell is tags, time and field: deduplication keeps, for each field, the
  last value that is not null. A query plan is represented by its contract: union of the rows, a file of higher chunk order
  overwrites. Splitting at times sends rows with time up to and including the split time to the earlier output.
* Assumptions of the compaction theorems: registered level 0 sequence numbers are positive and increase; one compaction at a time
  is in flight in a partition; object ids are fresh; an object that is ever registered is registered before the orphan
  collector's grace period is over. `Progress.LateRegistrationLosesObject` is a run that shows the last one is needed.
* A floating point field value is kept as its decimal text; characters are Unicode scalar values.
* `hide` statements only keep function bodies out of a proof that does not need them.

Where code and documentation disagree the model follows the code:

* Both filters are documented to stay below the byte limit, and the cold one to select all level 0 files; the code stops after the
  file that reaches the limit (`Filtering.LimitsNotReachedBeforeLast`, `Filtering.ColdTakesAllIff`).
* Merging column statistics of different types is documented to do nothing; the code panics. `TableSummaries.CanUpdate` is what
  the code asserts.
* Organisation and bucket are documented not to contain `_`; the code accepts it and encodes it.
* `BitSet.set` and `get` let the index equal the length (`BitSets.BitSet.Set` says what that does), and `is_all_set` leaves a byte
  unchecked (`BitSets.AllSetIsRightIff`).

Properties that turned out false of the code, each with a concrete input and the exact condition:

* Time ranges of level 1 files stay disjoint: input `GapRun.RangesComeToOverlap`, condition `Level1Ranges.RangesStayDisjointIff`,
  and over recorded ranges alone, for plans that do not split, `Level1Ranges.UnsplitRangesStayDisjointIff`.
* A selected compaction can be carried through: input `StuckRun.RunToSelection`, `StuckRun.CannotFinish` and
  `StuckRun.NeverCompacted`, condition `Finishing.CanFinishIff`. An output stream without rows makes the upload panic
  (parquet_file/src/serialize.rs:104-107), and the filters select the same files again.
* Every built batch is read back: input `BatchRoundTrip.TabIsNotReadBack`, condition `BatchRoundTrip.RoundTripsIff`.
* Every built batch is cut into its lines: input `LineFraming.NewlineIsNotFramed`, condition `LineFraming.FramedIff`.
* The raw text of an unescaped, sorted series is its canonical base: inputs `SeriesRaw.EmptyTagSetChangesBase` and
  `SeriesRaw.LoneEscapeStaysEscaped`, condition `SeriesRaw.BaseIsSortedIff`.
* `is_all_set` is right: input `BitSets.NineBitsPass`, condition `BitSets.AllSetIsRightIff`.

## Model

| member | source | states |
|---|---|---|
| `ParquetFiles.OverlapsIffCommonInstant` | compactor/src/parquet_file_filtering.rs:245-248 | for ranges that are not inverted, the two-case test holds exactly if some instant lies in both ranges, and is symmetric |
| `Filtering.ForPartition` | compactor/src/parquet_file_lookup.rs:38-69 | level 1 files in listed order; level 0 files sorted by sequence number, a permutation of the listed ones |
| `Filtering.FilterHotParquetFiles` | compactor/src/parquet_file_filtering.rs:19-130 | the loop over vectors and byte totals computes `Filter` with a count threshold |
| `Filtering.FilterColdParquetFiles` | compactor/src/parquet_file_filtering.rs:142-243 | the loop computes `Filter` without a count threshold |
| `Filtering.Cut` | compactor/src/parquet_file_filtering.rs:56-100 | the number of level 0 files taken is the first count at which a limit is reached |
| `Filtering.FilterIsExact` | compactor/src/parquet_file_filtering.rs:56-130 | the answer is the level 1 files overlapping some selected level 0 file, each as often as listed, then a prefix of the level 0 files |
| `Filtering.LimitsNotReachedBeforeLast` | compactor/src/parquet_file_filtering.rs:64-99 | before the last level 0 file was taken neither limit was reached; nothing is taken only without level 0 files or with threshold 0 |
| `Filtering.LargerLimitsExtend` | compactor/src/parquet_file_filtering.rs:64-99 | raising limits only extends the selected prefix |
| `Filtering.ColdIsHotWithoutThreshold` | compactor/src/parquet_file_filtering.rs:183-212 | the cold filter is the hot one with a threshold no selection reaches |
| `Filtering.ColdTakesAllIff` | compactor/src/parquet_file_filtering.rs:133-212 | the cold filter takes all level 0 files exactly if no shorter prefix reaches the byte limit |
| `Splitting.ComputeSplitTime` | compactor/src/utils.rs:181-211 | the loop gives the multiples of the step before the end, or the end alone; it terminates |
| `Splitting.StepsAre` | compactor/src/utils.rs:193-210 | the k-th split time is k + 1 steps from the start and before the end; one more step than there are times reaches the end |
| `Splitting.SplitTimesAreProper` | compactor/src/parquet_file_combining.rs:172-213 | whenever a compaction splits, its times increase strictly and lie in [min, max) |
| `Splitting.PlanBySize` | compactor/src/parquet_file_combining.rs:172-213 | by total size: one file, one cut at the configured share of the range unless that is its end, or cuts a step apart and at most ceil(total / desired) outputs |
| `Splitting.LargeSplitIsBounded` | compactor/src/utils.rs:181-211 | in the large branch no output is wider than a step, and there are at most ceil(total / desired) outputs |
| `Finishing.FirstAndLastHoldRows` | compactor/src/parquet_file_combining.rs:172-213 | whatever the plan, its first and its last output hold rows |
| `Protocol.Created` | compactor/src/parquet_file_combining.rs:424-436 | the records of a commit: consecutive new ids, each the upload of its stream |
| `CatalogUpdates.Catalog.Create` | iox_catalog/src/mem.rs:950-997 | a record under a new id, or an error and no change if the object is recorded already |
| `CatalogUpdates.Catalog.FlagForDelete` | iox_catalog/src/mem.rs:999-1009 | flags one record, or an error and no change if there is none |
| `CatalogUpdates.Catalog.DeleteOld` | iox_catalog/src/mem.rs:1059-1069 | the loop parts the records: each is returned if it was flagged before the time and kept otherwise, unchanged, and there are no others |
| `CatalogUpdates.CreateAll` | compactor/src/parquet_file_combining.rs:424-436 | adds all outputs, or those before the first whose object is recorded already, which is the error |
| `CatalogUpdates.FlagAll` | compactor/src/parquet_file_combining.rs:439-444 | flags all inputs, or those before the first without a record, which is the error |
| `CatalogUpdates.UpdateCatalog` | compactor/src/parquet_file_combining.rs:412-446 | one transaction: creates and flags everything, or leaves the catalog as it was; when it succeeds |
| `Finishing.TransactionSucceeds` | compactor/src/parquet_file_combining.rs:412-446 | the transaction of a compaction ready to commit meets no recorded output and no missing input, so it never fails on either |
| `CatalogUpdates.DeleteObjects` | compactor/src/garbage_collector.rs:66-81 | deletes the objects of removed records; failures are collected and the rest carried out |
| `CatalogUpdates.Cleanup` | compactor/src/garbage_collector.rs:55-90 | records first, then their objects; failed deletions are reported and the others carried out |
| `CatalogUpdates.MergedBounds` | compactor/src/parquet_file_combining.rs:142-166 | the loop gives the largest sequence number and the hull of the time ranges |
| `ObjectSafety.UploadStepKeepsObjects` | compactor/src/parquet_file_combining.rs:280-287 | an upload under a fresh id keeps the object invariant |
| `ObjectSafety.RegisterKeepsObjects` | compactor/src/parquet_file_combining.rs:280-312 | registering an object in time keeps it |
| `ObjectSafety.CommittedRecord` | compactor/src/parquet_file_combining.rs:412-446 | the catalog after a commit, record by record |
| `ObjectSafety.CommitKeepsObjects` | compactor/src/parquet_file_combining.rs:304-312 | a commit after all uploads keeps it |
| `ObjectSafety.UpgradeKeepsObjects` | compactor/src/lib.rs:126-136 | an upgrade in place keeps it |
| `ObjectSafety.CleanupCatalogKeepsObjects` | compactor/src/garbage_collector.rs:55-64 | removing flagged records keeps it |
| `ObjectSafety.CleanupObjectKeepsObjects` | compactor/src/garbage_collector.rs:66-81 | deleting the object of a removed record, or failing to, keeps it |
| `ObjectSafety.CollectorKeepsObjects` | garbage_collector/src/checker.rs:29-111 | starting, listing and checking keep it: what is scheduled is unreferenced and past its grace period |
| `ObjectSafety.GcDeleteKeepsObjects` | garbage_collector/src/deleter.rs:7-26 | deleting a scheduled object keeps it, although it was checked earlier |
| `ObjectSafety.StepKeepsObjects` | garbage_collector/src/lib.rs:58-88 | every timely step keeps the object invariant |
| `ViewSafety.EveryRecordHasItsObject` | compactor/src/parquet_file_combining.rs:280-312 | in every state of every timely run the object of every catalog record exists |
| `ViewSafety.SelectionIsOk` | compactor/src/parquet_file_filtering.rs:56-130 | what a filter leaves out is newer than, or does not overlap, each selected level 0 file |
| `ViewSafety.ReferencedIsNotDeleted` | garbage_collector/src/checker.rs:47-111 | neither collector deletes an object the catalog refers to |
| `ViewSafety.RowsKept` | compactor/src/garbage_collector.rs:55-90 | no step changes the rows of a live file |
| `ViewSafety.NewestFileShows` | data_types/src/lib.rs:1084-1090 | a file of the highest order overwrites what the others show |
| `ViewSafety.RegisterKeepsData` | compactor/src/query.rs:237-242 | registering a newer level 0 file, also during a compaction, keeps the data invariant |
| `ViewSafety.LeftOutApart` | compactor/src/parquet_file_filtering.rs:64-99 | a level 1 file left out shares no timestamp with a selected file |
| `ViewSafety.UpgradeKeepsData` | compactor/src/lib.rs:126-136 | upgrading the only selected file in place keeps the view and the distinct timestamps |
| `ViewSafety.ReplacementShows` | compactor/src/query.rs:237-242 | outputs at order 0 show what the selected files showed, although newer files stayed |
| `ViewSafety.ReplacementApart` | compactor/src/parquet_file_combining.rs:182-213 | outputs share no timestamp with each other or with level 1 files left out |
| `ViewSafety.CommitReplaces` | compactor/src/parquet_file_combining.rs:412-446 | after a commit the live files are the old ones without the selected ones, and the outputs |
| `ViewSafety.CommitKeepsData` | compactor/src/parquet_file_combining.rs:142-213 | a commit keeps the data invariant |
| `ViewSafety.StepKeepsData` | compactor/src/lib.rs:49-168 | every timely step keeps the data invariant |
| `ViewSafety.RunIsSafe` | compactor/src/lib.rs:49-168 | both invariants hold in every state of every timely run |
| `ViewSafety.Level1TimestampsApart` | compactor/src/parquet_file_filtering.rs:64-99 | in every state of every timely run no two live level 1 files hold rows with the same timestamp |
| `ViewSafety.ViewIsUpsert` | data_types/src/lib.rs:1084-1090 | in every state of every timely run, the live files layered by chunk order show the upsert of all ingested files in sequence order |
| `Level1Ranges.RangesStayDisjointIff` | compactor/src/parquet_file_combining.rs:182-213 | disjoint level 1 ranges stay disjoint over a commit exactly if no level 1 file left out is straddled by one output |
| `Level1Ranges.HullIsEnough` | compactor/src/parquet_file_combining.rs:142-153 | a level 1 file outside the hull of the selected files is not straddled |
| `Level1Ranges.RangesStayDisjointOutsideHull` | compactor/src/parquet_file_combining.rs:142-213 | a commit keeps level 1 ranges disjoint when no level 1 file left out meets the hull |
| `Level1Ranges.UnsplitRangesStayDisjointIff` | compactor/src/parquet_file_combining.rs:174-179 | without a split, exactly then |
| `GapRun.GapIsLeftOut` | compactor/src/parquet_file_filtering.rs:899-958 | a level 1 file in the gap between two level 0 files is not selected with them |
| `GapRun.RangesComeToOverlap` | compactor/src/parquet_file_filtering.rs:899-958 | a timely run whose last step, a commit, makes two level 1 ranges overlap |
| `Progress.OnlyIngestAddsLevel0` | compactor/src/parquet_file_combining.rs:254-312 | no step but a registration adds a level 0 file |
| `Progress.CompactionRemovesLevel0` | compactor/src/lib.rs:119-152 | a finished compaction removes at least one level 0 file |
| `Progress.CompactionsAreBounded` | compactor/src/lib.rs:49-168 | without ingest, compactions and remaining level 0 files together never exceed the level 0 files at first |
| `Progress.AllLevel1AfterEnoughRounds` | compactor/src/lib.rs:104-168 | n finished compactions leave none of n level 0 files |
| `Progress.SelectionPossible` | compactor/src/parquet_file_filtering.rs:64-99 | while a level 0 file is left, the cold filter, and the hot one with a positive threshold, select something |
| `Progress.ColdRoundCanFinishIff` | compactor/src/lib.rs:104-152 | a cold round can be carried through exactly if it selects one file or every output of its plan gets a row |
| `Finishing.CommitNeedsRows` | parquet_file/src/serialize.rs:104-107 | whatever steps come between plan and commit, a commit needs a selected row in every output |
| `Finishing.CanFinishIff` | compactor/src/parquet_file_combining.rs:172-312 | a selected compaction can be planned, uploaded and committed in time exactly if every output gets a selected row |
| `Finishing.AtMostOneSplitCanFinish` | compactor/src/parquet_file_combining.rs:172-195 | a plan with at most one split time can always finish |
| `StuckRun.RunToSelection` | compactor/src/parquet_file_combining.rs:182-195 | a timely run from an empty catalog to a selection of two files far apart |
| `StuckRun.CannotFinish` | parquet_file/src/serialize.rs:104-107 | that selection cannot be carried through |
| `StuckRun.NeverCompacted` | compactor/src/lib.rs:49-168 | from there, without ingest, no sequence of steps ever finishes a compaction |
| `Progress.LateRegistrationLosesObject` | garbage_collector/src/checker.rs:47-65 | a run in which an object registered after the grace period is deleted under its record |
| `OrphanCollector.Check` | garbage_collector/src/checker.rs:29-45 | the loop sends on exactly the scheduled items and fails exactly on one without a file name |
| `OrphanCollector.Decides` | garbage_collector/src/checker.rs:47-111 | an object goes exactly if it is not newer than the cutoff, has a file name, and is not a referenced parquet file |
| `OrphanCollector.DeleteAll` | garbage_collector/src/deleter.rs:7-26 | deletes every item, or all before the first refusal; a dry run deletes nothing |
| `OrphanCollector.PassRemovesOrphans` | garbage_collector/src/lib.rs:58-88 | an undisturbed pass removes exactly the orphans and no object of a record |
| `LineFraming.SplitLinesLoop` | influxdb_line_protocol/src/lib.rs:530-585 | the closure with its flags and counters cuts where `SplitLines` does |
| `LineFraming.PiecesRejoin` | influxdb_line_protocol/src/lib.rs:530-585 | for any input the pieces joined with newlines are the input |
| `LineFraming.FeedValue` | influxdb_line_protocol/src/lib.rs:545-575 | a field value, whatever newlines and quotes it holds, is not split and leaves the state alone |
| `LineFraming.BuiltLineIsOnePiece` | influxdb_line_protocol/src/builder.rs:202-223 | a built line whose names hold no newline is one piece, and the splitter starts over after it |
| `LineFraming.BatchIsFramed` | influxdb_line_protocol/src/lib.rs:530-585 | a built batch is cut into the texts of its lines and an empty rest |
| `LineFraming.FramedIff` | influxdb_line_protocol/src/lib.rs:530-585 | that holds exactly if no name holds a newline |
| `LineFraming.NewlineIsNotFramed` | influxdb_line_protocol/src/lib.rs:530-585 | a measurement with a newline: the line is not one piece |
| `RoundTrip.ScanIsUnescape` | influxdb_line_protocol/src/lib.rs:837-898 | the scan's slices spell the unescaped text, unit by unit, and it stops where that stops |
| `RoundTrip.NameInverts` | influxdb_line_protocol/src/lib.rs:821-835 | an escaped name is read back, or fails for good exactly if it ends in a backslash |
| `RoundTrip.StringDataIsUnquote` | influxdb_line_protocol/src/lib.rs:733-754 | the slices of a quoted string spell its text up to the closing quote |
| `RoundTrip.ValueInverts` | influxdb_line_protocol/src/lib.rs:659-772 | every field value is read back as its own type and value, and nothing behind it is consumed |
| `RoundTrip.TagsInvert` | influxdb_line_protocol/src/lib.rs:628-642 | reading built tags brings the list parser to what follows, with the same tags in order |
| `RoundTrip.FieldsInvert` | influxdb_line_protocol/src/lib.rs:644-657 | the same for fields |
| `RoundTrip.SeriesInverts` | influxdb_line_protocol/src/lib.rs:600-626 | measurement and tags are read back; without tags there is no tag set |
| `RoundTrip.FieldSetInverts` | influxdb_line_protocol/src/lib.rs:644-657 | a built field set is read back |
| `RoundTrip.TimestampInverts` | influxdb_line_protocol/src/lib.rs:727-731 | a timestamp, or none, is read back |
| `RoundTrip.LineInverts` | influxdb_line_protocol/src/lib.rs:587-598 | a well-formed line is read back completely |
| `BatchRoundTrip.AcceptedLinesAreReadable` | influxdb_line_protocol/src/lib.rs:487-518 | for any input, an accepted line has no empty name, none ending in a backslash, tabs and newlines only after a backslash, no measurement starting with a hash |
| `BatchRoundTrip.BrokenLineFails` | influxdb_line_protocol/src/lib.rs:821-835 | a name cut at a tab or newline fails the line for good |
| `BatchRoundTrip.BrokenLineIsBad` | influxdb_line_protocol/src/lib.rs:487-518 | such a line is reported as an error |
| `BatchRoundTrip.LineComesBack` | influxdb_line_protocol/src/lib.rs:487-518 | a well-formed line is read back and what follows is read as if alone |
| `BatchRoundTrip.RoundTripsIff` | influxdb_line_protocol/src/lib.rs:487-518 | parsing a built batch gives the same lines, names, values and timestamps in order exactly if every line is well-formed |
| `BatchRoundTrip.TabIsNotReadBack` | influxdb_line_protocol/src/lib.rs:633-637 | a tag key with a tab: the line is not read back |
| `LineBuilder.LineProtocolBuilder.constructor` | influxdb_line_protocol/src/builder.rs:113-130 | a builder that appends to a given buffer |
| `LineBuilder.LineProtocolBuilder.WriteEscaped` | influxdb_line_protocol/src/builder.rs:251-261 | the loop appends the escaped text |
| `LineBuilder.LineProtocolBuilder.WriteValue` | influxdb_line_protocol/src/builder.rs:300-328 | appends the text of a value by its type |
| `LineBuilder.LineProtocolBuilder.WriteField` | influxdb_line_protocol/src/builder.rs:263-291 | appends the key, an equals sign and the value |
| `LineBuilder.LineProtocolBuilder.Measurement` | influxdb_line_protocol/src/builder.rs:132-138 | opens a line |
| `LineBuilder.LineProtocolBuilder.Tag` | influxdb_line_protocol/src/builder.rs:155-159 | adds a tag to the open line |
| `LineBuilder.LineProtocolBuilder.Field` | influxdb_line_protocol/src/builder.rs:161-188 | adds a field to the open line; tags are over |
| `LineBuilder.LineProtocolBuilder.Timestamp` | influxdb_line_protocol/src/builder.rs:190-199 | sets the timestamp; fields are over |
| `LineBuilder.LineProtocolBuilder.CloseLine` | influxdb_line_protocol/src/builder.rs:201-223 | closes the line; the buffer is the text of all closed lines |
| `LineBuilder.LineProtocolBuilder.Build` | influxdb_line_protocol/src/builder.rs:140-143 | the text of the lines in order; parsing it gives them back exactly if all are well-formed |
| `ParserLoops.EscapeOrFallback` | influxdb_line_protocol/src/lib.rs:821-898 | the loop over the head equals `Name` |
| `ParserLoops.SeparatedListLoop` | influxdb_line_protocol/src/lib.rs:902-964 | the list loop equals `SeparatedList`, for any element parser, with the error for a first element that consumes nothing |
| `ParserLoops.TrimLeadingLoop` | influxdb_line_protocol/src/lib.rs:776-790 | the trimming loop equals `TrimLeading` |
| `SeriesBase.SortedIffNeighbours` | influxdb_line_protocol/src/lib.rs:326-334 | comparing neighbours decides strict order |
| `SeriesBase.CollectSorts` | influxdb_line_protocol/src/lib.rs:288-303 | collecting tags succeeds exactly if no key repeats; then it sorts and keeps the tags |
| `SeriesBase.SortDeduplicate` | influxdb_line_protocol/src/lib.rs:288-313 | the two loops compute `SortedBase` |
| `SeriesBase.SortedBaseIgnoresOrder` | influxdb_line_protocol/src/lib.rs:288-313 | the sorting path fails exactly on a repeated key and does not depend on the order of tags |
| `SeriesRaw.NameFaithful` | influxdb_line_protocol/src/lib.rs:837-898 | the raw text of a one-slice name is the name itself, or longer if it has a backslash |
| `SeriesRaw.RawIsSortedIff` | influxdb_line_protocol/src/lib.rs:268-276 | where the raw text is used, it is the sorted base exactly if it has no backslash and the tag set is not empty |
| `SeriesRaw.BaseIsSortedIff` | influxdb_line_protocol/src/lib.rs:268-313 | for every parsed series, when the base equals the sorted one |
| `SeriesRaw.BaseIgnoresOrder` | influxdb_line_protocol/src/lib.rs:268-313 | without backslashes and empty tag sets, the order of tags does not change the base, and a repeated key is always an error |
| `SeriesRaw.EmptyTagSetChangesBase` | influxdb_line_protocol/src/lib.rs:268-276 | the same series has two bases if a comma with no tag follows the measurement |
| `SeriesRaw.LoneEscapeStaysEscaped` | influxdb_line_protocol/src/lib.rs:402-415 | a lone escaped delimiter is taken for unescaped, and its backslash stays in the base |
| `BitSets.PackedBytesAreUnique` | arrow_util/src/bitset.rs:9-18 | equal bit sequences have identical bytes |
| `BitSets.PackPacks` | arrow_util/src/bitset.rs:9-18 | every bit sequence can be packed |
| `BitSets.BitSet.WithSize` | arrow_util/src/bitset.rs:26-30 | a set of unset bits |
| `BitSets.BitSet.AppendUnset` | arrow_util/src/bitset.rs:39-43 | appends unset bits |
| `BitSets.BitSet.AppendSet` | arrow_util/src/bitset.rs:46-63 | appends set bits; the padding stays zero |
| `BitSets.BitSet.Truncate` | arrow_util/src/bitset.rs:66-74 | keeps the first bits; a longer length is valid exactly as far as the buffer goes; what every bit of the buffer is in any case |
| `BitSets.BitSet.AppendShifted` | arrow_util/src/bitset.rs:134-151 | the loop that cuts every byte in two appends its bits |
| `BitSets.BitSet.AppendBits` | arrow_util/src/bitset.rs:111-155 | appends the first bits of a packed slice, at any alignment |
| `BitSets.BitSet.ExtendFrom` | arrow_util/src/bitset.rs:77-79 | appends another set |
| `BitSets.BitSet.ExtendFromRange` | arrow_util/src/bitset.rs:82-108 | appends a range of another set, in all three alignment cases |
| `BitSets.BitSet.Set` | arrow_util/src/bitset.rs:158-164 | sets one bit; the set stays valid exactly if the index is below the length |
| `BitSets.BitSet.Get` | arrow_util/src/bitset.rs:167-173 | the bit at an index |
| `BitSets.BitSet.IsAllSet` | arrow_util/src/bitset.rs:201-223 | what the check says: all bits but those of the byte before a partial last byte |
| `BitSets.AllSetIsRightIff` | arrow_util/src/bitset.rs:201-223 | all set is never denied; the answer is right for all contents of a length exactly if it is below eight or a multiple of eight |
| `BitSets.NineBitsPass` | arrow_util/src/bitset.rs:201-223 | nine bits with the first unset pass for all set |
| `BitSets.BitSet.IsAllUnset` | arrow_util/src/bitset.rs:226-228 | true exactly if no bit is set |
| `SetPositions.PositionsAreExact` | arrow_util/src/bitset.rs:238-257 | the positions are exactly the set ones at or above the offset, strictly increasing |
| `SetPositions.Iter.constructor` | arrow_util/src/bitset.rs:238-246 | the iterator is to yield the positions from the offset on |
| `SetPositions.Iter.Next` | arrow_util/src/bitset.rs:248-257 | yields the next position, or none for ever after; terminates |
| `PackedStrings.JoinedStrings` | arrow_util/src/string.rs:67-79 | joined storages with moved offsets hold both lists of strings |
| `PackedStrings.PackedStringArray.Append` | arrow_util/src/string.rs:54-64 | appends a string and returns its index |
| `PackedStrings.PackedStringArray.ExtendFrom` | arrow_util/src/string.rs:67-79 | appends the strings of another array |
| `PackedStrings.PackedStringArray.ExtendFromRange` | arrow_util/src/string.rs:82-99 | appends a range of them |
| `PackedStrings.PackedStringArray.Get` | arrow_util/src/string.rs:102-107 | the string at an index, or none |
| `PackedStrings.PackedStringArray.Extend` | arrow_util/src/string.rs:110-113 | pads with empty strings |
| `PackedStrings.PackedStringArray.Truncate` | arrow_util/src/string.rs:116-120 | keeps the first strings |
| `PackedStrings.PackedStringArray.Clear` | arrow_util/src/string.rs:123-126 | removes all strings |
| `Dictionaries.Find` | arrow_util/src/dictionary.rs:69-72 | for any hash function a probe finds the string if it is filed |
| `Dictionaries.File` | arrow_util/src/dictionary.rs:76-86 | filing one more index, rehashing or not, keeps the table right |
| `Dictionaries.StringDictionary.LookupValueOrInsert` | arrow_util/src/dictionary.rs:62-88 | the index of the value, appended if it was not there; values stay distinct |
| `Dictionaries.StringDictionary.LookupValue` | arrow_util/src/dictionary.rs:91-97 | the index of the value and of no other, none exactly if it is not there |
| `Dictionaries.StringDictionary.LookupId` | arrow_util/src/dictionary.rs:100-102 | the value of an index |
| `Dictionaries.StringDictionary.Truncate` | arrow_util/src/dictionary.rs:117-121 | keeps the entries up to an index |
| `Dictionaries.StringDictionary.Clear` | arrow_util/src/dictionary.rs:124-127 | removes all entries |
| `Dictionaries.TryFrom` | arrow_util/src/dictionary.rs:167-208 | succeeds exactly if no string repeats, and then keeps the strings; else names a repeated one |
| `Dictionaries.RunKeepsDictionary` | arrow_util/src/dictionary.rs:62-127 | over any run of calls values stay distinct and an index keeps its value until removed |
| `Dictionaries.RunOps` | arrow_util/src/dictionary.rs:62-127 | a run of calls on the dictionary has the contents that run gives |
| `DictionaryColumns.CollectedIsExact` | arrow_util/src/optimize.rs:65-80 | exactly the used values are collected, each once |
| `DictionaryColumns.OptimizedKeepsRows` | arrow_util/src/optimize.rs:31-94 | every row decodes as before, nulls included; no duplicate and no unused entry |
| `DictionaryColumns.CollectedStaysSorted` | arrow_util/src/optimize.rs:12-16 | a sorted dictionary stays sorted |
| `DictionaryColumns.OptimizedTwice` | arrow_util/src/optimize.rs:31-94 | rewriting twice is rewriting once |
| `DictionaryColumns.UsedKeys` | arrow_util/src/optimize.rs:63-72 | the first pass gives the keys that occur |
| `DictionaryColumns.Deduplicate` | arrow_util/src/optimize.rs:74-80 | the second pass builds the collected dictionary and the map from old to new keys |
| `DictionaryColumns.RemapKeys` | arrow_util/src/optimize.rs:82-85 | the third pass gives the new keys, minus one at nulls |
| `DictionaryColumns.KeysComeBack` | arrow_util/src/optimize.rs:82-93 | raw keys, minus one at nulls, under the sliced bitmap are the keys they came from |
| `DictionaryColumns.OptimizeDictCol` | arrow_util/src/optimize.rs:31-94 | the passes compute the rewritten column on key data with offset and validity bits, which are copied; other key or value types are refused |
| `Statistics.StatsAreExact` | data_types/src/lib.rs:1680-1717 | the statistics of a column are its least and greatest value, its cells and its nulls |
| `Statistics.MergeIsConcatenation` | data_types/src/lib.rs:1720-1752 | merging the statistics of two columns gives those of one behind the other |
| `Statistics.UpdateIsAssociative` | data_types/src/lib.rs:1720-1752 | merging is associative |
| `Statistics.UpdateIsCommutative` | data_types/src/lib.rs:1720-1752 | merging is commutative |
| `Statistics.PaddedStats` | data_types/src/lib.rs:1680-1683 | padding with nulls gives the statistics of the padded column, in front or behind |
| `Statistics.Gather` | data_types/src/lib.rs:1685-1717 | gathering cell by cell gives the statistics of the column |
| `TableSummaries.TableSummary.UpdateFrom` | data_types/src/lib.rs:1998-2019 | the two loops compute `Merged`, for any summaries that pass the assertions of the source |
| `TableSummaries.ConsistentCanUpdate` | data_types/src/lib.rs:1525-1565 | summaries with equal row counts and matching types always pass them |
| `TableSummaries.FindMerged` | data_types/src/lib.rs:1998-2019 | for any two summaries, where the column of a name comes from |
| `TableSummaries.MergedColumn` | data_types/src/lib.rs:1998-2019 | column by column, merging adds up both sides, nulls where a side lacks the column |
| `TableSummaries.MergedIsConsistent` | data_types/src/lib.rs:1975-1991 | all columns of a merged summary have the rows of both sides |
| `TableSummaries.MergeIsCommutative` | data_types/src/lib.rs:1998-2019 | the order of merging does not matter, up to column order |
| `TableSummaries.MergeIsAssociative` | data_types/src/lib.rs:1998-2019 | nor does the grouping |
| `TableSummaries.MergeSummarisesConcat` | data_types/src/lib.rs:1998-2019 | merging the summaries of two tables is the summary of both, missing columns null |
| `DatabaseNames.AcceptedIff` | data_types/src/lib.rs:1332-1349 | a pair is accepted exactly if neither name is empty and the encoded name fits; no character is ever rejected |
| `DatabaseNames.DecodeInverts` | data_types/src/lib.rs:1338-1339 | percent-encoding, section 2.1 of RFC 3986, can be undone up to the separator |
| `DatabaseNames.NameDecodes` | data_types/src/lib.rs:1332-1349 | both names can be read back from the database name |
| `DatabaseNames.NamesAreUnambiguous` | data_types/src/lib.rs:1332-1349 | different pairs never get the same database |
| `Executor.StepKeepsInv` | executor/src/lib.rs:183-204 | every step keeps: tasks are received in the order accepted and none is lost; the worker waits only after shutdown with an empty queue |
| `Executor.SignalledMeansDone` | executor/src/lib.rs:183-204 | in every interleaving, once shutdown is signalled every accepted task was received and is over, finished, panicked or cancelled; only tasks of dropped jobs were cancelled |
| `Executor.DetachedIsNotCancelled` | executor/src/lib.rs:65-94 | a task whose job was detached is never cancelled |
| `Executor.NothingAfterShutdown` | executor/src/lib.rs:224-299 | nothing is accepted after shutdown, and nothing starts or changes after the signal |
| `Executor.NoDeadlock` | executor/src/lib.rs:183-204 | after shutdown, short of the signal, the worker or a task can always go on |
| `Executor.ProgressDecreases` | executor/src/lib.rs:38-48 | every step of the worker or a task brings the signal closer |
| `Executor.JoinIsBounded` | executor/src/lib.rs:266-299 | after shutdown a bounded number of steps is left, and when they are used up shutdown is signalled |

## Left out

- Query planning and execution, Parquet encoding, schemas: represented by the merge and split contract only.
- Catalog and object store internals: only the operations the compactor and the collectors call; record ids come from a counter, as in a database, not from the length of a list as in the in-memory catalog; one partition.
- Integer widths of sizes, timestamps and offsets, and the panics when a value does not fit; wrap-around does not occur in the modelled ranges.
- Splitting.ComputeSplitTime: exact rational arithmetic instead of floating point; requires a positive desired size, since zero never ends.
- Floating point field values beyond their decimal text: conversion and rounding, NaN and infinities, which the builder writes and the parser does not read.
- Column summaries are values, updated in the sequence that owns them; the tag, field or time role of a column is not modelled.
- `distinct_count` of statistics: merging resets it and padding leaves it stale.
- Arrow's own array and buffer code: slicing a bitmap is represented by its result.
- Executor: tasks that a task spawns by itself, a panicking worker thread, thread priority, and dropping the last handle, which is a shutdown.
- `Display` of parsed lines, which does not escape backslashes and drops quotes, so it is not an inverse of the parser.
- Metrics, logging, candidate selection, configuration, clients: no effect on the modelled state, or only easy members.
