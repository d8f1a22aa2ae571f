# A verified model of the QLDB export processor

The Amazon QLDB export processor reads a journal export that QLDB has written to S3. An export is
a set of *completed manifests*. Each manifest lists *data files*, and each data file holds journal
blocks. The processor walks the blocks in order and hands each block, and each revision inside a
block, to registered visitors. This project models in Dafny the processing engine and three of its
visitors, and proves what they promise:

- **`ExportProcessor`** (module `ExportProcessing`, class `ExportProcessor`). Modelled as imperative
  code over a value that stands for S3 (module `ExportWalk`, type `Store`: manifest keys and data
  file blocks by key). Every call the engine makes is appended to a `trace`: a manifest or data file
  fetched, a visitor set up, handed a block or a revision, or torn down. Each loop method is proved
  against a recursive function in `ExportWalk` that gives the trace, `currentBlockNum` and the
  exception of the run. `ExportWalkProperties` then proves the engine's promises about those
  functions:
  - argument checks happen before any call;
  - no visitor sees a block outside the `startBlock`/`endBlock` window;
  - data files out of range are never fetched;
  - manifests are processed in block order and must be contiguous;
  - setup, walk and teardown happen in order, and every visitor is torn down exactly once;
  - exceptions are wrapped with the block at which they happened.
- **`StatsCalculatorBlockVisitor`** (module `StatsCalculation`). The visitor is a class whose fields
  `visit` updates. Its state is specified by a function on a `Stats` value. Lemmas prove the block
  and revision totals, the first and last block times, and the per-second histogram: the lines
  written plus the open slice are the run-length encoding of the visited blocks' seconds, and
  `teardown` writes the open slice exactly once. The lemmas also cover the integer duration
  `printResults` computes and the lenient UTC timestamp parser.
- **`TableDocumentCountRevisionVisitor`** (module `TableDocumentCounting`). A map from table id to
  mutable `TableDocCount` counters. Lemmas prove the following:
  - inserts are counted up and deletes down;
  - updates and redactions change nothing, and a missing `metadata` throws;
  - `getCounts` returns one counter per table;
  - the teardown report is ordered by table name, then id, and keeps every counter;
  - the scenarios of the visitor's unit tests hold.
- **`SequentialLedgerLoadBlockVisitor`** (module `SequentialLedgerLoading`). The builder's null check,
  and `visit`'s single `writeEvents` call per qualifying block, carrying one event per revision with
  metadata, in order, tagged with its table name.

Supporting modules:
- `JavaStrings` gives the Java library behaviour the code relies on: `String.split` with a
  one-character regex (trailing empty strings dropped), `Integer.parseInt`, `String.compareTo`,
  `File.getName`.
- `Sorting` models `List.sort`, proved to return a sorted permutation.
- `ExportNames` models the manifest-name and data-file-key patterns, `blocksInRange` and
  `getManifestBlockRange`. Each regular expression is given by a segment predicate, proved
  equivalent to a direct reading of the pattern.
- `Journal` holds the journal block fields the code reads.
- `Wrappers` holds `Option` and `Result`.

In
`ExportProcessor.blocksInRange` (`src/main/java/software/amazon/qldb/export/ExportProcessor.java:366-377`),
a key that does not match the pattern gives `false`, so that file is skipped. This is what
`ExportNames.BlocksInRange` states. A key that does match the pattern but ends in a dot (an empty suffix) loses that suffix
in `split`, so the code reads the block numbers from the piece before the range. Three cases
follow when that piece has no dash:
- If it is not a numeral and an end bound is set, reading the first number throws
  `NumberFormatException` (`ExportNames.BlocksInRangeThrowsOnEmptySuffix`).
- If it is a numeral, that number is taken as the first block. For example, `7.1-5.` with end bound 3
  is skipped (`ExportNames.BlocksInRangeEmptySuffixNumeral`).
- With only a start bound set, reading the second number throws `ArrayIndexOutOfBoundsException`
  (`ExportNames.BlocksInRangeEmptySuffixStartOnly`).

The model keeps all of this behaviour.

## Model

| member | source | states |
|---|---|---|
| JavaStrings.SplitAll | src/main/java/software/amazon/qldb/export/ExportProcessor.java:370-371 | every piece between separators, none containing the separator |
| JavaStrings.JoinSplitAll | src/main/java/software/amazon/qldb/export/ExportProcessor.java:370-371 | joining the pieces with the separator gives back the string |
| JavaStrings.SplitAllAt | src/main/java/software/amazon/qldb/export/ExportProcessor.java:370-371 | splitting `x + c + y` splits `x` and `y` separately |
| JavaStrings.DropTrailingEmpty | src/main/java/software/amazon/qldb/export/ExportProcessor.java:370 | `split` drops trailing empty pieces: the result is a prefix, ends non-empty, and only empty pieces were dropped |
| JavaStrings.JavaSplit | src/main/java/software/amazon/qldb/export/ExportProcessor.java:370-371 | `String.split` of one char: `[s]` when the char is absent, otherwise a prefix of all pieces |
| JavaStrings.ParseInt | src/main/java/software/amazon/qldb/export/ExportProcessor.java:373-376 | `Integer.parseInt` succeeds exactly on an optional sign followed by one or more digits, non-negative without a minus |
| JavaStrings.FormatNat | src/main/java/software/amazon/qldb/export/ExportProcessor.java:403 | a decimal numeral is a non-empty digit string |
| JavaStrings.DigitsValueOfFormat | src/main/java/software/amazon/qldb/export/ExportProcessor.java:403 | reading a numeral gives back its number |
| JavaStrings.ParseFormat | src/main/java/software/amazon/qldb/export/ExportProcessor.java:403-412 | `Integer.parseInt` of a numeral gives back its number |
| JavaStrings.CompareZero | src/main/java/software/amazon/qldb/export/impl/TableDocumentCountRevisionVisitor.java:66 | `compareTo` is 0 exactly on equal strings |
| JavaStrings.CompareSwap | src/main/java/software/amazon/qldb/export/impl/TableDocumentCountRevisionVisitor.java:66 | `compareTo` is antisymmetric |
| JavaStrings.CompareTransitive | src/main/java/software/amazon/qldb/export/impl/TableDocumentCountRevisionVisitor.java:66 | `compareTo` < 0 is transitive |
| JavaStrings.StripLeadingSlash | src/main/java/software/amazon/qldb/export/ExportProcessor.java:308-309 | the path with at most one leading `/` removed |
| JavaStrings.StripTrailingSlashes | src/main/java/software/amazon/qldb/export/ExportProcessor.java:161-162 | a prefix of the path without a trailing `/` (unless it is `/` itself) |
| JavaStrings.AfterLastSlash | src/main/java/software/amazon/qldb/export/ExportProcessor.java:161-162 | the longest suffix without `/`, preceded by `/` when shorter than the path |
| JavaStrings.BaseName | src/main/java/software/amazon/qldb/export/ExportProcessor.java:161-162 | `new File(path).getName()` contains no `/` |
| Sorting.Insert | src/main/java/software/amazon/qldb/export/ExportProcessor.java:187-192 | inserting adds exactly one element to the multiset |
| Sorting.SortBy | src/main/java/software/amazon/qldb/export/ExportProcessor.java:187-192 | `List.sort` returns a permutation of its input |
| Sorting.InsertSorted | src/main/java/software/amazon/qldb/export/ExportProcessor.java:187-192 | inserting into a sorted list under a strict order keeps it sorted |
| Sorting.SortedCons | src/main/java/software/amazon/qldb/export/ExportProcessor.java:187-192 | a head no later element is less than, before a sorted tail, is sorted |
| Sorting.SortBySorted | src/main/java/software/amazon/qldb/export/ExportProcessor.java:187-192 | under a strict order the result of `List.sort` is sorted |
| ExportNames.ManifestNameMatchesPattern | src/main/java/software/amazon/qldb/export/ExportProcessor.java:163 | the segment test for a manifest name holds exactly when the name fully matches `\w+\.\w+\.completed\.manifest` |
| ExportNames.PatternIsManifestName | src/main/java/software/amazon/qldb/export/ExportProcessor.java:163 | every `<word>.<word>.completed.manifest` passes the name check |
| ExportNames.ManifestNamePieces | src/main/java/software/amazon/qldb/export/ExportProcessor.java:167 | a manifest name splits on `.` into export id, strand, `completed`, `manifest` |
| ExportNames.Strand | src/main/java/software/amazon/qldb/export/ExportProcessor.java:167-175 | the strand `parts[1]` is a word, and the name is `<exportId>.<strand>.completed.manifest` |
| ExportNames.RangedKeyMatchesPattern | src/main/java/software/amazon/qldb/export/ExportProcessor.java:367 | the segment test for a data file key holds exactly when the key matches `^.*\.[0-9]*-[0-9]*\.[a-zA-Z0-9]*$` |
| ExportNames.RangedKeyIsPattern | src/main/java/software/amazon/qldb/export/ExportProcessor.java:367 | a key passing the segment test matches the pattern |
| ExportNames.RangedKeyPieces | src/main/java/software/amazon/qldb/export/ExportProcessor.java:367-371 | a key built from the pattern's pieces passes the test, and its dot and dash splits give those pieces back |
| ExportNames.RangedKeyDots | src/main/java/software/amazon/qldb/export/ExportProcessor.java:370 | the dot split of such a key ends with the range and the suffix |
| ExportNames.RangeDash | src/main/java/software/amazon/qldb/export/ExportProcessor.java:371 | the dash split of `<first>-<last>` is `[first, last]` |
| ExportNames.DataFileKeyRange | src/main/java/software/amazon/qldb/export/ExportProcessor.java:370-376 | a key `<prefix>.<first>-<last>.<suffix>` passes the test and yields `first` and `last` |
| ExportNames.BlocksInRange | src/main/java/software/amazon/qldb/export/ExportProcessor.java:366-377 | a key not matching the pattern gives `false` (the file is skipped) |
| ExportNames.BlocksInRangeOfDataFileKey | src/main/java/software/amazon/qldb/export/ExportProcessor.java:366-377 | on a well-formed key: in range exactly when not (end set and first > end) and not (start set and last < start) |
| ExportNames.BlocksInRangeThrowsOnEmptySuffix | src/main/java/software/amazon/qldb/export/ExportProcessor.java:367-373 | a key ending in a dot whose piece before the range has no dash and is not a numeral matches the pattern, but with an end bound set reading the first number throws `NumberFormatException` |
| ExportNames.BlocksInRangeEmptySuffixStartOnly | src/main/java/software/amazon/qldb/export/ExportProcessor.java:367-376 | a key ending in a dot, with only a start bound set, throws `ArrayIndexOutOfBoundsException` when the piece before the range has no dash |
| ExportNames.BlocksInRangeEmptySuffixNumeral | src/main/java/software/amazon/qldb/export/ExportProcessor.java:367-373 | a key ending in a dot whose piece before the range is a numeral past the end bound is skipped without an exception (so `7.1-5.` with end bound 3 gives false) |
| ExportNames.EmptySuffixSplit | src/main/java/software/amazon/qldb/export/ExportProcessor.java:370 | `split` drops the empty piece after a final dot |
| ExportNames.FirstNumberOfName | src/main/java/software/amazon/qldb/export/ExportProcessor.java:371-373 | when the piece before the range is not a number, reading the first block number fails |
| ExportNames.ManifestBlockRange | src/main/java/software/amazon/qldb/export/ExportProcessor.java:395-412 | an empty key list gives no range (the manifest is dropped); a range keeps the manifest path |
| ExportNames.ManifestBlockRangeOfDataFileKeys | src/main/java/software/amazon/qldb/export/ExportProcessor.java:398-412 | the range runs from the first key's first block to the last key's last block (the same key when there is one) |
| ExportWalk.FirstThrowing | src/main/java/software/amazon/qldb/export/ExportProcessor.java:244-245 | the index of the first visitor that throws on a call, or the list length |
| ExportWalk.CallsMade | src/main/java/software/amazon/qldb/export/ExportProcessor.java:244-245 | the visitors called: all of them, or up to and including the first that throws |
| ExportWalk.ThrownBy | src/main/java/software/amazon/qldb/export/ExportProcessor.java:244-245 | no exception exactly when no visitor throws; otherwise the exception of the last visitor called |
| ExportWalk.BlockVisitEvents | src/main/java/software/amazon/qldb/export/ExportProcessor.java:244-245 | visitor `j` is handed the block as the `j`-th call |
| ExportWalk.RevisionVisitEvents | src/main/java/software/amazon/qldb/export/ExportProcessor.java:284-286 | revision visitor `j` is handed the revision with its table id and name as the `j`-th call |
| ExportWalk.SetupCallEvents | src/main/java/software/amazon/qldb/export/ExportProcessor.java:419-425 | visitor `j` is set up as the `j`-th call |
| ExportWalk.BlockVisits | src/main/java/software/amazon/qldb/export/ExportProcessor.java:243-246 | block visitors are called in list order; all of them unless one throws, whose exception ends the run |
| ExportWalk.RevisionVisits | src/main/java/software/amazon/qldb/export/ExportProcessor.java:284-286 | revision visitors are called in list order with the same revision, table id and table name, until one throws |
| ExportWalk.ResolveTable | src/main/java/software/amazon/qldb/export/ExportProcessor.java:275-282 | the listed document's table id and name, or `***UNKNOWN***` for both |
| ExportWalk.WalkFiles | src/main/java/software/amazon/qldb/export/ExportProcessor.java:222-229 | defines the key loop of a manifest (see `WalkFilesShape`, `WalkFilesStops`, `FetchedFilesInRange`) |
| ExportWalk.WalkManifest | src/main/java/software/amazon/qldb/export/ExportProcessor.java:218-293 | passing the window's end ends this manifest normally, never the whole export |
| ExportWalk.WalkManifests | src/main/java/software/amazon/qldb/export/ExportProcessor.java:203-205 | the manifests in order; passing the window's end does not stop the later manifests |
| ExportWalk.SetupEvents | src/main/java/software/amazon/qldb/export/ExportProcessor.java:419-425 | setup calls visitors in order; all of them exactly when none throws, otherwise up to the thrower |
| ExportWalk.TeardownCalls | src/main/java/software/amazon/qldb/export/ExportProcessor.java:428-444 | defines `teardown()` (see `TeardownCallsCount`, `TeardownCallsShape`) |
| ExportWalk.Wrap | src/main/java/software/amazon/qldb/export/ExportProcessor.java:127-132 | the rethrown exception: "prior to first block" when `currentBlockNum < 0`, else at that block |
| ExportWalk.Paths | src/main/java/software/amazon/qldb/export/ExportProcessor.java:203-204 | the stitched manifests' paths, in order |
| ExportWalkProperties.DispatchRevisionsShape | src/main/java/software/amazon/qldb/export/ExportProcessor.java:266-287 | each dispatched revision comes from the block, has metadata, and carries the table its document id resolves to |
| ExportWalkProperties.DispatchRevisionsComplete | src/main/java/software/amazon/qldb/export/ExportProcessor.java:266-287 | with no throwing visitor, the events are, revision by revision in list order, one visit by each revision visitor in registration order (`EveryVisit`): visitors x revisions calls |
| ExportWalkProperties.DispatchRevisionsEveryPair | src/main/java/software/amazon/qldb/export/ExportProcessor.java:266-287 | with no throwing visitor, event `i * k + j` is the `i`-th revision with metadata handed to revision visitor `j` with its resolved table |
| ExportWalkProperties.EveryVisit | src/main/java/software/amazon/qldb/export/ExportProcessor.java:266-287 | defines the reference order of a block's revision visits: each revision with metadata, in list order, handed to every revision visitor in registration order (see `DispatchRevisionsComplete`, `EveryVisitAt`) |
| ExportWalkProperties.EveryVisitAt | src/main/java/software/amazon/qldb/export/ExportProcessor.java:284-286 | the reference sequence has `k` visits per revision, and its event `i * k + j` is revision `i` handed to visitor `j` |
| ExportWalkProperties.WithMetadata | src/main/java/software/amazon/qldb/export/ExportProcessor.java:269-270 | the revisions kept are those of the block that have metadata |
| ExportWalkProperties.BlockEventsShape | src/main/java/software/amazon/qldb/export/ExportProcessor.java:243-287 | block visitors first in list order, then revisions only when there are revision visitors, revisions, transactionInfo and documents |
| ExportWalkProperties.WalkBlocksShape | src/main/java/software/amazon/qldb/export/ExportProcessor.java:230-241 | every visit of a data file is of a block inside the window |
| ExportWalkProperties.WalkBlocksStops | src/main/java/software/amazon/qldb/export/ExportProcessor.java:238-241 | once a file's walk stops, the blocks after it are never read |
| ExportWalkProperties.WalkBlocksReachesEnd | src/main/java/software/amazon/qldb/export/ExportProcessor.java:233-241 | the first block after the end bound (and not before the start) stops the file's walk and becomes `currentBlockNum` |
| ExportWalkProperties.WalkFilesShape | src/main/java/software/amazon/qldb/export/ExportProcessor.java:222-229 | a manifest's walk only fetches in-range data files and visits in-window blocks |
| ExportWalkProperties.WalkFilesStops | src/main/java/software/amazon/qldb/export/ExportProcessor.java:290-291 | once a manifest's walk stops, none of its later data files is fetched |
| ExportWalkProperties.EndReachedContinues | src/main/java/software/amazon/qldb/export/ExportProcessor.java:238-241 | passing the window's end in one manifest still walks the next manifests |
| ExportWalkProperties.WalkManifestsShape | src/main/java/software/amazon/qldb/export/ExportProcessor.java:203-205 | every event of the walk is a manifest read, an in-range file fetch or an in-window visit |
| ExportWalkProperties.AllSetups | src/main/java/software/amazon/qldb/export/ExportProcessor.java:419-425 | the setups of every visitor: only setup calls |
| ExportWalkProperties.SetupCallsOrder | src/main/java/software/amazon/qldb/export/ExportProcessor.java:419-425 | setup calls revision visitors, then block visitors, a prefix of them all; the exception names the last one called |
| ExportWalkProperties.SetupEventsPrefix | src/main/java/software/amazon/qldb/export/ExportProcessor.java:420-424 | the setups of one list are those of its first visitors |
| ExportWalkProperties.SetupCallsShape | src/main/java/software/amazon/qldb/export/ExportProcessor.java:419-425 | setup only sets visitors up |
| ExportWalkProperties.TeardownEventsShape | src/main/java/software/amazon/qldb/export/ExportProcessor.java:428-444 | teardown only tears down (and logs warnings for) visitors of the list |
| ExportWalkProperties.TeardownEventsCount | src/main/java/software/amazon/qldb/export/ExportProcessor.java:428-444 | each visitor of the list is torn down exactly once, whether or not an earlier one threw |
| ExportWalkProperties.TeardownCallsShape | src/main/java/software/amazon/qldb/export/ExportProcessor.java:428-444 | teardown events are teardowns and their warnings |
| ExportWalkProperties.RunWalkShape | src/main/java/software/amazon/qldb/export/ExportProcessor.java:124-135 | the walk inside the `try` makes only walk events |
| ExportWalkProperties.RunManifestsShape | src/main/java/software/amazon/qldb/export/ExportProcessor.java:201-214 | a run is setups, walk events and teardowns; every visit is in the window; every exception is wrapped |
| ExportWalkProperties.SetupFailureSkipsWalk | src/main/java/software/amazon/qldb/export/ExportProcessor.java:201-214 | a throwing setup skips the walk, still tears every visitor down, and is rethrown wrapped |
| ExportWalkProperties.TeardownExactlyOnce | src/main/java/software/amazon/qldb/export/ExportProcessor.java:124-135 | on every exit path after setup, each visitor is torn down exactly once |
| ExportWalkProperties.NoTeardownBeforeTeardown | src/main/java/software/amazon/qldb/export/ExportProcessor.java:124-135 | no teardown happens before the `finally` block |
| ExportWalkProperties.TeardownCallsCount | src/main/java/software/amazon/qldb/export/ExportProcessor.java:428-444 | `teardown()` tears each registered visitor down exactly once |
| ExportWalkProperties.ProcessExportRejects | src/main/java/software/amazon/qldb/export/ExportProcessor.java:114-122 | no call at all exactly when the bucket or path is null or the path does not end in `.completed.manifest`; then an argument error, with the counter kept |
| ExportWalkProperties.ProcessExportInWindow | src/main/java/software/amazon/qldb/export/ExportProcessor.java:114-136 | no visitor of a single-manifest run sees a block outside the window |
| ExportWalkProperties.PreflightStepEvents | src/main/java/software/amazon/qldb/export/ExportProcessor.java:158-181 | one pre-flight step reads at most its own manifest, and goes on only past a valid name |
| ExportWalkProperties.PreflightStepSuccess | src/main/java/software/amazon/qldb/export/ExportProcessor.java:158-181 | a successful pre-flight step had a valid name of the first path's strand and keeps its manifest's path |
| ExportWalkProperties.PreflightEvents | src/main/java/software/amazon/qldb/export/ExportProcessor.java:157-184 | the pre-flight only reads manifests, of the given paths |
| ExportWalkProperties.PreflightNames | src/main/java/software/amazon/qldb/export/ExportProcessor.java:158-175 | the pre-flight succeeds only if every file name is a completed manifest, all of the first path's strand |
| ExportWalkProperties.PreflightPaths | src/main/java/software/amazon/qldb/export/ExportProcessor.java:177-180 | the pre-flight's manifests come from the given paths |
| ExportWalkProperties.ProcessExportsRejectsBeforeSetup | src/main/java/software/amazon/qldb/export/ExportProcessor.java:145-198 | a rejected input only read manifests: no setup, no data file, no visit, no teardown, counter kept |
| ExportWalkProperties.ProcessExportsInWindow | src/main/java/software/amazon/qldb/export/ExportProcessor.java:200-214 | no visitor of a multi-manifest run sees a block outside the window |
| ExportWalkProperties.FetchedFilesInRange | src/main/java/software/amazon/qldb/export/ExportProcessor.java:225-229 | with a bound set, a fetched data file matches the key pattern and its range meets the window |
| ExportWalkProperties.FileOutsideWindowNotFetched | src/main/java/software/amazon/qldb/export/ExportProcessor.java:225-227 | a data file starting after the end bound or ending before the start bound is never fetched |
| ExportWalkProperties.FirstBlockLessIsStrict | src/main/java/software/amazon/qldb/export/ExportProcessor.java:187-192 | the manifest comparator is a strict order |
| ExportWalkProperties.StitchedInBlockOrder | src/main/java/software/amazon/qldb/export/ExportProcessor.java:187-192 | the sorted manifests are the same manifests, in ascending first block |
| ExportWalkProperties.ContiguousDisjoint | src/main/java/software/amazon/qldb/export/ExportProcessor.java:194-198 | contiguous manifests with non-empty ranges do not overlap |
| ExportWalkProperties.ContiguousGapless | src/main/java/software/amazon/qldb/export/ExportProcessor.java:194-198 | contiguous manifests leave no gap between the first block and the last |
| ExportProcessing.ExportProcessor.constructor | src/main/java/software/amazon/qldb/export/ExportProcessor.java:58-66 | the built processor holds the visitor lists and bounds, with `currentBlockNum` -1 |
| ExportProcessing.ExportProcessor.ProcessExport | src/main/java/software/amazon/qldb/export/ExportProcessor.java:114-136 | the calls made, the final `currentBlockNum` and the exception are those of the run of one manifest |
| ExportProcessing.ExportProcessor.ProcessExports | src/main/java/software/amazon/qldb/export/ExportProcessor.java:145-215 | the calls made, the final `currentBlockNum` and the exception are those of pre-flight, sort, contiguity check and run |
| ExportProcessing.ExportProcessor.PreflightManifests | src/main/java/software/amazon/qldb/export/ExportProcessor.java:157-184 | the loop reads the manifests and checks names and strand exactly as the pre-flight function says |
| ExportProcessing.ExportProcessor.GetManifestBlockRange | src/main/java/software/amazon/qldb/export/ExportProcessor.java:380-416 | one manifest read; a missing object throws; otherwise the range of its keys (none for an empty list) |
| ExportProcessing.ExportProcessor.CheckContiguous | src/main/java/software/amazon/qldb/export/ExportProcessor.java:195-198 | true exactly when each manifest starts one block after the previous one ends |
| ExportProcessing.ExportProcessor.RunGuarded | src/main/java/software/amazon/qldb/export/ExportProcessor.java:201-214 | setup, walk, wrapped rethrow and teardown in `finally`, as the run function says |
| ExportProcessing.ExportProcessor.ProcessManifests | src/main/java/software/amazon/qldb/export/ExportProcessor.java:203-205 | the manifests are processed in order until one throws |
| ExportProcessing.ExportProcessor.ProcessManifest | src/main/java/software/amazon/qldb/export/ExportProcessor.java:218-293 | one manifest: its keys are read, then its files walked; the end of the window ends only this manifest |
| ExportProcessing.ExportProcessor.ProcessFiles | src/main/java/software/amazon/qldb/export/ExportProcessor.java:222-229 | the key loop: out-of-range files skipped, the rest fetched and walked, until one stops |
| ExportProcessing.ExportProcessor.ProcessBlocks | src/main/java/software/amazon/qldb/export/ExportProcessor.java:230-241 | the block loop: `currentBlockNum` set before the window check, blocks before the start skipped, the first after the end stops |
| ExportProcessing.ExportProcessor.DispatchBlock | src/main/java/software/amazon/qldb/export/ExportProcessor.java:243-287 | an in-window block: block visitors, then its revisions under the dispatch condition |
| ExportProcessing.ExportProcessor.VisitBlock | src/main/java/software/amazon/qldb/export/ExportProcessor.java:243-246 | every block visitor in list order, until one throws |
| ExportProcessing.ExportProcessor.VisitRevisions | src/main/java/software/amazon/qldb/export/ExportProcessor.java:266-287 | the revisions in list order, until a visitor throws |
| ExportProcessing.ExportProcessor.VisitRevisionOf | src/main/java/software/amazon/qldb/export/ExportProcessor.java:269-286 | a revision without metadata is skipped; otherwise its table is resolved and it goes to every revision visitor |
| ExportProcessing.ExportProcessor.VisitRevision | src/main/java/software/amazon/qldb/export/ExportProcessor.java:284-286 | every revision visitor in list order with the same arguments, until one throws |
| ExportProcessing.ExportProcessor.Setup | src/main/java/software/amazon/qldb/export/ExportProcessor.java:419-425 | revision visitors then block visitors are set up, until one throws |
| ExportProcessing.ExportProcessor.SetupEach | src/main/java/software/amazon/qldb/export/ExportProcessor.java:420-424 | one visitor list is set up in order, until one throws |
| ExportProcessing.ExportProcessor.Teardown | src/main/java/software/amazon/qldb/export/ExportProcessor.java:428-444 | every visitor is torn down, a throwing one only logs a warning |
| ExportProcessing.ExportProcessor.TeardownEach | src/main/java/software/amazon/qldb/export/ExportProcessor.java:429-443 | one visitor list is torn down in order, each exception caught and logged |
| ExportProcessing.SetupStopsAt | src/main/java/software/amazon/qldb/export/ExportProcessor.java:420-421 | setup stops at the first visitor that throws |
| ExportProcessing.SetupRunsAll | src/main/java/software/amazon/qldb/export/ExportProcessor.java:420-421 | setup reaches every visitor when none throws |
| ExportProcessing.BlocksAdvance | src/main/java/software/amazon/qldb/export/ExportProcessor.java:230-241 | one turn of the block loop, case by case, against the walk function |
| ExportProcessing.FilesAdvance | src/main/java/software/amazon/qldb/export/ExportProcessor.java:222-229 | one turn of the key loop, case by case, against the walk function |
| ExportProcessing.ManifestsAdvance | src/main/java/software/amazon/qldb/export/ExportProcessor.java:203-205 | one turn of the manifest loop against the walk function |
| ExportProcessing.DispatchAdvance | src/main/java/software/amazon/qldb/export/ExportProcessor.java:266-287 | one turn of the revision loop against the dispatch function |
| ExportProcessing.PreflightAdvance | src/main/java/software/amazon/qldb/export/ExportProcessor.java:158-181 | one turn of the pre-flight loop, case by case, against the pre-flight function |
| StatsCalculation.LenientMillis | src/main/java/software/amazon/qldb/export/impl/StatsCalculatorBlockVisitor.java:64 | the lenient `SimpleDateFormat` in UTC: out-of-range fields roll over |
| StatsCalculation.ParseUtcTimestamp | src/main/java/software/amazon/qldb/export/impl/StatsCalculatorBlockVisitor.java:143 | a string parses exactly when it has the form `yyyy-MM-dd'T'HH:mm:ss.SSS'Z'` |
| StatsCalculation.BlockTime | src/main/java/software/amazon/qldb/export/impl/StatsCalculatorBlockVisitor.java:137-148 | a timestamp is taken as is; a string is parsed, an unparsable one throws; another type gives null; a missing one throws a null pointer |
| StatsCalculation.SliceOf | src/main/java/software/amazon/qldb/export/impl/StatsCalculatorBlockVisitor.java:154-155 | the time with milliseconds zeroed: a whole second at or before it, less than a second before |
| StatsCalculation.CountWithAddress | src/main/java/software/amazon/qldb/export/impl/StatsCalculatorBlockVisitor.java:177-184 | no more revisions are counted than there are entries |
| StatsCalculation.BucketKeepsTimes | src/main/java/software/amazon/qldb/export/impl/StatsCalculatorBlockVisitor.java:153-175 | the slice update touches only the slice fields and the lines |
| StatsCalculation.StatsCalculator.constructor | src/main/java/software/amazon/qldb/export/impl/StatsCalculatorBlockVisitor.java:67-74 | the built visitor holds its bounds and output file, with all counters zero and no writer |
| StatsCalculation.StatsCalculator.Setup | src/main/java/software/amazon/qldb/export/impl/StatsCalculatorBlockVisitor.java:88-100 | with an output file, a new empty file is opened; otherwise nothing changes |
| StatsCalculation.StatsCalculator.Visit | src/main/java/software/amazon/qldb/export/impl/StatsCalculatorBlockVisitor.java:125-188 | the fields after `visit` are those of the visit function; an exception leaves them unchanged |
| StatsCalculation.StatsCalculator.ReadBlockTime | src/main/java/software/amazon/qldb/export/impl/StatsCalculatorBlockVisitor.java:137-148 | the block time read is that of the block-time function |
| StatsCalculation.StatsCalculator.Record | src/main/java/software/amazon/qldb/export/impl/StatsCalculatorBlockVisitor.java:150-187 | the field updates of an in-window block |
| StatsCalculation.StatsCalculator.CountInSlice | src/main/java/software/amazon/qldb/export/impl/StatsCalculatorBlockVisitor.java:153-175 | the slice update: same slice counts one more, another writes the open line and opens the new slice |
| StatsCalculation.StatsCalculator.CountRevisions | src/main/java/software/amazon/qldb/export/impl/StatsCalculatorBlockVisitor.java:177-184 | the loop counts the revision entries that have `blockAddress` |
| StatsCalculation.StatsCalculator.PrintResults | src/main/java/software/amazon/qldb/export/impl/StatsCalculatorBlockVisitor.java:190-197 | the duration is `(end - start) / 1000` truncated toward zero; a null time throws |
| StatsCalculation.StatsCalculator.Teardown | src/main/java/software/amazon/qldb/export/impl/StatsCalculatorBlockVisitor.java:102-122 | after the report, the open slice is written exactly once if there is one, and the file closed |
| StatsCalculation.WholeSecondsBounds | src/main/java/software/amazon/qldb/export/impl/StatsCalculatorBlockVisitor.java:197 | the Java `long` division truncates toward zero |
| StatsCalculation.WindowBlocks | src/main/java/software/amazon/qldb/export/impl/StatsCalculatorBlockVisitor.java:126-135 | the blocks inside the window, in order |
| StatsCalculation.VisitAllOutsideWindow | src/main/java/software/amazon/qldb/export/impl/StatsCalculatorBlockVisitor.java:126-135 | blocks outside a set bound change no counter, time, slice or line |
| StatsCalculation.VisitAllTotals | src/main/java/software/amazon/qldb/export/impl/StatsCalculatorBlockVisitor.java:177-186 | `totalBlocks` grows by the blocks in the window, `totalRevisions` by their entries with `blockAddress` |
| StatsCalculation.VisitAllStartTime | src/main/java/software/amazon/qldb/export/impl/StatsCalculatorBlockVisitor.java:150-151 | `startBlockTime` is set by the first in-window block with a time and never changed afterwards |
| StatsCalculation.VisitAllEndTime | src/main/java/software/amazon/qldb/export/impl/StatsCalculatorBlockVisitor.java:187 | `endBlockTime` is the time of the last in-window block |
| StatsCalculation.Repeat | src/main/java/software/amazon/qldb/export/impl/StatsCalculatorBlockVisitor.java:157-173 | n copies of a slice |
| StatsCalculation.BlockSlice | src/main/java/software/amazon/qldb/export/impl/StatsCalculatorBlockVisitor.java:153-155 | the slice of an in-window block, when writing |
| StatsCalculation.BucketRunLengths | src/main/java/software/amazon/qldb/export/impl/StatsCalculatorBlockVisitor.java:157-173 | the written lines plus the open slice stay the run-length encoding of the slices seen |
| StatsCalculation.BucketOpens | src/main/java/software/amazon/qldb/export/impl/StatsCalculatorBlockVisitor.java:157-159 | the first slice opens with count 1 |
| StatsCalculation.BucketGrows | src/main/java/software/amazon/qldb/export/impl/StatsCalculatorBlockVisitor.java:161-162 | the same slice counts one more block |
| StatsCalculation.BucketMoves | src/main/java/software/amazon/qldb/export/impl/StatsCalculatorBlockVisitor.java:163-173 | another slice writes the open line and opens the new slice with count 1 |
| StatsCalculation.VisitedRunLengths | src/main/java/software/amazon/qldb/export/impl/StatsCalculatorBlockVisitor.java:153-175 | one visit keeps the run-length invariant |
| StatsCalculation.VisitAllRunLengths | src/main/java/software/amazon/qldb/export/impl/StatsCalculatorBlockVisitor.java:153-175 | after any run of visits, the lines and the open slice are the run-length encoding of the blocks' slices: counts at least 1, adjacent slices distinct |
| StatsCalculation.BucketExample | src/main/java/software/amazon/qldb/export/impl/StatsCalculatorBlockVisitor.java:153-175 | blocks at T, T, T+1 s and T+3 s write (T,2), (T+1,1) and leave (T+3,1) open, which teardown writes |
| StatsCalculation.LenientRemainder | src/main/java/software/amazon/qldb/export/impl/StatsCalculatorBlockVisitor.java:143 | a time whose milliseconds field is below 1000 keeps it as its remainder |
| StatsCalculation.ParsedMilliseconds | src/main/java/software/amazon/qldb/export/impl/StatsCalculatorBlockVisitor.java:143-155 | the parsed time's slice is the time minus its milliseconds field |
| StatsCalculation.ThreeDigitsBound | src/main/java/software/amazon/qldb/export/impl/StatsCalculatorBlockVisitor.java:64 | a three-digit field is below 1000 |
| StatsCalculation.CivilDays | src/main/java/software/amazon/qldb/export/impl/StatsCalculatorBlockVisitor.java:64 | the day count of the epoch month and of July 2019 |
| StatsCalculation.EpochIsZero | src/main/java/software/amazon/qldb/export/impl/StatsCalculatorBlockVisitor.java:64 | 1970-01-01T00:00:00.000Z is 0 |
| StatsCalculation.CalendarExample | src/main/java/software/amazon/qldb/export/impl/StatsCalculatorBlockVisitor.java:64 | 2019-07-16T21:04:15.123Z is 1563311055123 |
| StatsCalculation.LenientMonthRollOver | src/main/java/software/amazon/qldb/export/impl/StatsCalculatorBlockVisitor.java:64 | month 13 is January of the next year |
| StatsCalculation.LenientDayRollOver | src/main/java/software/amazon/qldb/export/impl/StatsCalculatorBlockVisitor.java:64 | January 32 is February 1 |
| StatsCalculation.ParseRejectsSpace | src/main/java/software/amazon/qldb/export/impl/StatsCalculatorBlockVisitor.java:143-147 | a space instead of `T` does not parse |
| TableDocumentCounting.EffectOf | src/main/java/software/amazon/qldb/export/impl/TableDocumentCountRevisionVisitor.java:40-56 | version 0 inserts; version > 0 without `data` and `dataHash` deletes; otherwise nothing; no metadata throws |
| TableDocumentCounting.CountOf | src/main/java/software/amazon/qldb/export/impl/TableDocumentCountRevisionVisitor.java:47-56 | a table's count, 0 when it has no counter |
| TableDocumentCounting.Counted | src/main/java/software/amazon/qldb/export/impl/TableDocumentCountRevisionVisitor.java:38-57 | a visit adds a counter only for an insert or delete, changes only its table's count by +1 or -1, and keeps a counter's name |
| TableDocumentCounting.TableDocCount.constructor | src/main/java/software/amazon/qldb/export/impl/TableDocumentCountRevisionVisitor.java:112-115 | a new counter holds its id and name with count 0 |
| TableDocumentCounting.TableDocCount.Add | src/main/java/software/amazon/qldb/export/impl/TableDocumentCountRevisionVisitor.java:117-119 | the count goes up by one |
| TableDocumentCounting.TableDocCount.Remove | src/main/java/software/amazon/qldb/export/impl/TableDocumentCountRevisionVisitor.java:121-123 | the count goes down by one, possibly below zero |
| TableDocumentCounting.RowsOf | src/main/java/software/amazon/qldb/export/impl/TableDocumentCountRevisionVisitor.java:62 | the rows of the counters, one each, in order |
| TableDocumentCounting.IdsOf | src/main/java/software/amazon/qldb/export/impl/TableDocumentCountRevisionVisitor.java:28-29 | the table ids of the counters, in order |
| TableDocumentCounting.TableDocumentCountRevisionVisitor.constructor | src/main/java/software/amazon/qldb/export/impl/TableDocumentCountRevisionVisitor.java:22 | a new visitor has no counters |
| TableDocumentCounting.TableDocumentCountRevisionVisitor.Visit | src/main/java/software/amazon/qldb/export/impl/TableDocumentCountRevisionVisitor.java:38-57 | the counters after `visit` are those of the counting function; an exception leaves them unchanged |
| TableDocumentCounting.TableDocumentCountRevisionVisitor.CountChange | src/main/java/software/amazon/qldb/export/impl/TableDocumentCountRevisionVisitor.java:47-56 | the table's counter, created with its name if missing, goes up for an insert and down for a delete |
| TableDocumentCounting.TableDocumentCountRevisionVisitor.CounterFor | src/main/java/software/amazon/qldb/export/impl/TableDocumentCountRevisionVisitor.java:47-51 | the existing counter of the table, or a fresh one with the given name |
| TableDocumentCounting.TableDocumentCountRevisionVisitor.Count | src/main/java/software/amazon/qldb/export/impl/TableDocumentCountRevisionVisitor.java:53-56 | one counter is incremented or decremented |
| TableDocumentCounting.TableDocumentCountRevisionVisitor.GetCounts | src/main/java/software/amazon/qldb/export/impl/TableDocumentCountRevisionVisitor.java:28-30 | one counter per table id in the map, each the map's own, no id twice |
| TableDocumentCounting.TableDocumentCountRevisionVisitor.CountRows | src/main/java/software/amazon/qldb/export/impl/TableDocumentCountRevisionVisitor.java:62 | the report rows are exactly the counters, one row per table |
| TableDocumentCounting.TableDocumentCountRevisionVisitor.Teardown | src/main/java/software/amazon/qldb/export/impl/TableDocumentCountRevisionVisitor.java:61-68 | the report has one row per counter, ordered by table name, then table id |
| TableDocumentCounting.CountersReport | src/main/java/software/amazon/qldb/export/impl/TableDocumentCountRevisionVisitor.java:28-30 | the counters' rows form the report of the counts |
| TableDocumentCounting.ReportSize | src/main/java/software/amazon/qldb/export/impl/TableDocumentCountRevisionVisitor.java:62 | as many rows as counters |
| TableDocumentCounting.ReportEntries | src/main/java/software/amazon/qldb/export/impl/TableDocumentCountRevisionVisitor.java:62 | each row holds its counter's name and count |
| TableDocumentCounting.ReportCovers | src/main/java/software/amazon/qldb/export/impl/TableDocumentCountRevisionVisitor.java:62 | every counter has a row |
| TableDocumentCounting.CountAllFails | src/main/java/software/amazon/qldb/export/impl/TableDocumentCountRevisionVisitor.java:40-41 | a run of visits throws exactly when one revision has no metadata |
| TableDocumentCounting.CountAllKeys | src/main/java/software/amazon/qldb/export/impl/TableDocumentCountRevisionVisitor.java:28-30 | the counters are exactly those of the tables that had an insert or a delete |
| TableDocumentCounting.CountAllNet | src/main/java/software/amazon/qldb/export/impl/TableDocumentCountRevisionVisitor.java:53-56 | each count is its inserts minus its deletes |
| TableDocumentCounting.CountAllNames | src/main/java/software/amazon/qldb/export/impl/TableDocumentCountRevisionVisitor.java:47-51 | a counter keeps the name of the visit that created it |
| TableDocumentCounting.TestScenarios | src/test/java/software/amazon/qldb/export/impl/TableDocumentCountRevisionVisitorTest.java:17-151 | insert counts 1; delete counts -1; an update or a redaction creates no counter; insert then update counts 1 |
| TableDocumentCounting.RowLessIsStrict | src/main/java/software/amazon/qldb/export/impl/TableDocumentCountRevisionVisitor.java:63-68 | the report order is a strict order |
| TableDocumentCounting.RowLessTransitive | src/main/java/software/amazon/qldb/export/impl/TableDocumentCountRevisionVisitor.java:66 | the report order is transitive |
| TableDocumentCounting.RowLessTotal | src/main/java/software/amazon/qldb/export/impl/TableDocumentCountRevisionVisitor.java:66 | rows of different tables are ordered one way or the other |
| TableDocumentCounting.SortedReport | src/main/java/software/amazon/qldb/export/impl/TableDocumentCountRevisionVisitor.java:62-68 | sorting keeps the report and orders it strictly by name, then id |
| TableDocumentCounting.SortedEntries | src/main/java/software/amazon/qldb/export/impl/TableDocumentCountRevisionVisitor.java:62-68 | sorting keeps each row's name and count |
| TableDocumentCounting.SortedCovers | src/main/java/software/amazon/qldb/export/impl/TableDocumentCountRevisionVisitor.java:62-68 | sorting keeps a row for every counter |
| TableDocumentCounting.ReportOrdered | src/main/java/software/amazon/qldb/export/impl/TableDocumentCountRevisionVisitor.java:62-68 | rows of distinct tables, sorted, are strictly ordered |
| SequentialLedgerLoading.RevisionWriter.constructor | src/main/java/software/amazon/qldb/export/impl/SequentialLedgerLoadBlockVisitor.java:42 | a new writer has recorded no call |
| SequentialLedgerLoading.RevisionWriter.WriteEvents | src/main/java/software/amazon/qldb/export/impl/SequentialLedgerLoadBlockVisitor.java:92 | one call with the whole event list is recorded |
| SequentialLedgerLoading.EventsOf | src/main/java/software/amazon/qldb/export/impl/SequentialLedgerLoadBlockVisitor.java:78-90 | defines the events of a block (see `EventsAreKept`) |
| SequentialLedgerLoading.WriteOf | src/main/java/software/amazon/qldb/export/impl/SequentialLedgerLoadBlockVisitor.java:59-67 | a block is written exactly when it has `transactionInfo`, `revisions` and `documents` |
| SequentialLedgerLoading.WritesForAll | src/main/java/software/amazon/qldb/export/impl/SequentialLedgerLoadBlockVisitor.java:58-93 | the write calls of a run of blocks, in block order |
| SequentialLedgerLoading.Kept | src/main/java/software/amazon/qldb/export/impl/SequentialLedgerLoadBlockVisitor.java:81-82 | the revisions with metadata, no more than there are |
| SequentialLedgerLoading.SequentialLedgerLoadBlockVisitor.constructor | src/main/java/software/amazon/qldb/export/impl/SequentialLedgerLoadBlockVisitor.java:45-50 | the visitor holds its writer |
| SequentialLedgerLoading.SequentialLedgerLoadBlockVisitor.Build | src/main/java/software/amazon/qldb/export/impl/SequentialLedgerLoadBlockVisitor.java:45-47 | a null writer throws `IllegalArgumentException("Revision writer is required")`; otherwise the visitor holds the writer |
| SequentialLedgerLoading.SequentialLedgerLoadBlockVisitor.Visit | src/main/java/software/amazon/qldb/export/impl/SequentialLedgerLoadBlockVisitor.java:58-93 | the writer records exactly the block's write calls: none, or one |
| SequentialLedgerLoading.SequentialLedgerLoadBlockVisitor.BuildTableMap | src/main/java/software/amazon/qldb/export/impl/SequentialLedgerLoadBlockVisitor.java:69-74 | each document id is mapped to its table name, and nothing else is mapped |
| SequentialLedgerLoading.SequentialLedgerLoadBlockVisitor.BuildEvents | src/main/java/software/amazon/qldb/export/impl/SequentialLedgerLoadBlockVisitor.java:77-90 | the loop builds the events of the revisions with metadata, in order |
| SequentialLedgerLoading.WritesOnce | src/main/java/software/amazon/qldb/export/impl/SequentialLedgerLoadBlockVisitor.java:60-67 | no write without `transactionInfo`, `revisions` or `documents`; otherwise one, even with no events |
| SequentialLedgerLoading.OneWritePerBlock | src/main/java/software/amazon/qldb/export/impl/SequentialLedgerLoadBlockVisitor.java:76-92 | a run of blocks makes one `writeEvents` call per qualifying block |
| SequentialLedgerLoading.EventTable | src/main/java/software/amazon/qldb/export/impl/SequentialLedgerLoadBlockVisitor.java:69-74 | an event names its document's table, or null (not a sentinel) when the id is not listed |
| SequentialLedgerLoading.KeptAppend | src/main/java/software/amazon/qldb/export/impl/SequentialLedgerLoadBlockVisitor.java:78-82 | keeping revisions distributes over concatenation |
| SequentialLedgerLoading.EventsAreKept | src/main/java/software/amazon/qldb/export/impl/SequentialLedgerLoadBlockVisitor.java:78-90 | one event per revision with metadata, in list order |
| SequentialLedgerLoading.KeptMembers | src/main/java/software/amazon/qldb/export/impl/SequentialLedgerLoadBlockVisitor.java:81-82 | the kept revisions are exactly the revisions with metadata |
| ExportNames.IsCompletedManifestName | src/main/java/software/amazon/qldb/export/ExportProcessor.java:161-164 | defines the name check: `getName()` of the path is `<word>.<word>.completed.manifest` (see `ManifestNameMatchesPattern`) |
| ExportNames.IsRangedKey | src/main/java/software/amazon/qldb/export/ExportProcessor.java:367 | defines the data-key pattern test (see `RangedKeyMatchesPattern`) |
| ExportNames.RangeNumber | src/main/java/software/amazon/qldb/export/ExportProcessor.java:370-376 | defines reading the first or last block number of a key, with its out-of-bounds and `NumberFormatException` failures (see `DataFileKeyRange`) |
| JavaStrings.Compare | src/main/java/software/amazon/qldb/export/impl/TableDocumentCountRevisionVisitor.java:66 | defines `String.compareTo` on characters (see `CompareZero`, `CompareSwap`, `CompareTransitive`) |
| ExportWalk.WalkBlocks | src/main/java/software/amazon/qldb/export/ExportProcessor.java:230-241 | defines the block loop of a data file (see `WalkBlocksShape`, `WalkBlocksStops`, `WalkBlocksReachesEnd`) |
| ExportWalk.FileInRange | src/main/java/software/amazon/qldb/export/ExportProcessor.java:225-227 | defines the skip test of a data file key (see `FileOutsideWindowNotFetched`) |
| ExportWalk.BlockEvents | src/main/java/software/amazon/qldb/export/ExportProcessor.java:243-287 | defines the calls for one in-window block (see `BlockEventsShape`) |
| ExportWalk.RevisionEvents | src/main/java/software/amazon/qldb/export/ExportProcessor.java:269-286 | defines the calls for one revision (see `DispatchRevisionsShape`) |
| ExportWalk.DispatchRevisions | src/main/java/software/amazon/qldb/export/ExportProcessor.java:266-287 | defines the revision loop of a block (see `DispatchRevisionsComplete`, `DispatchRevisionsEveryPair`) |
| ExportWalk.SetupCalls | src/main/java/software/amazon/qldb/export/ExportProcessor.java:419-425 | defines `setup()` (see `SetupCallsOrder`, `SetupCallsShape`) |
| ExportWalk.TeardownEvents | src/main/java/software/amazon/qldb/export/ExportProcessor.java:429-443 | defines the teardown of one visitor list (see `TeardownEventsCount`, `TeardownEventsShape`) |
| ExportWalk.RunWalk | src/main/java/software/amazon/qldb/export/ExportProcessor.java:124-126 | defines the body of the `try` block: setup, then the walk (see `RunWalkShape`, `SetupFailureSkipsWalk`) |
| ExportWalk.RunManifests | src/main/java/software/amazon/qldb/export/ExportProcessor.java:124-135 | defines `try` / `catch` / `finally` around a walk (see `RunManifestsShape`, `TeardownExactlyOnce`) |
| ExportWalk.ProcessExportRun | src/main/java/software/amazon/qldb/export/ExportProcessor.java:114-136 | defines `processExport` (see `ProcessExportRejects`, `ProcessExportInWindow`) |
| ExportWalk.ProcessExportsRun | src/main/java/software/amazon/qldb/export/ExportProcessor.java:145-215 | defines `processExports` (see `ProcessExportsRejectsBeforeSetup`, `ProcessExportsInWindow`) |
| ExportWalk.PreflightFrom | src/main/java/software/amazon/qldb/export/ExportProcessor.java:157-184 | defines the manifest pre-flight loop (see `PreflightEvents`, `PreflightNames`, `PreflightPaths`) |
| ExportWalk.FirstBlockLess | src/main/java/software/amazon/qldb/export/ExportProcessor.java:187-192 | defines the manifest comparator (see `FirstBlockLessIsStrict`, `StitchedInBlockOrder`) |
| ExportWalk.Contiguous | src/main/java/software/amazon/qldb/export/ExportProcessor.java:194-198 | defines the contiguity check (see `ContiguousDisjoint`, `ContiguousGapless`) |
| StatsCalculation.Visited | src/main/java/software/amazon/qldb/export/impl/StatsCalculatorBlockVisitor.java:125-188 | defines one `visit` on the visitor's fields (see `VisitAllTotals`, `VisitedRunLengths`) |
| StatsCalculation.VisitAll | src/main/java/software/amazon/qldb/export/impl/StatsCalculatorBlockVisitor.java:125-188 | defines a run of visits (see `VisitAllTotals`, `VisitAllStartTime`, `VisitAllEndTime`, `VisitAllRunLengths`) |
| StatsCalculation.Bucket | src/main/java/software/amazon/qldb/export/impl/StatsCalculatorBlockVisitor.java:153-175 | defines the per-second slice update (see `BucketRunLengths`, `BucketOpens`, `BucketGrows`, `BucketMoves`) |
| StatsCalculation.WholeSeconds | src/main/java/software/amazon/qldb/export/impl/StatsCalculatorBlockVisitor.java:193 | defines Java `long` division by 1000 (see `WholeSecondsBounds`) |
| StatsCalculation.DurationSeconds | src/main/java/software/amazon/qldb/export/impl/StatsCalculatorBlockVisitor.java:191-197 | defines the printed duration (see `StatsCalculator.PrintResults`) |
| StatsCalculation.Flushed | src/main/java/software/amazon/qldb/export/impl/StatsCalculatorBlockVisitor.java:110-113 | defines the lines after the teardown flush (see `StatsCalculator.Teardown`, `BucketExample`) |
| TableDocumentCounting.CountAll | src/main/java/software/amazon/qldb/export/impl/TableDocumentCountRevisionVisitor.java:38-57 | defines a run of visits (see `CountAllFails`, `CountAllKeys`, `CountAllNet`, `CountAllNames`) |
| TableDocumentCounting.RowLess | src/main/java/software/amazon/qldb/export/impl/TableDocumentCountRevisionVisitor.java:63-68 | defines the report comparator (see `RowLessIsStrict`, `RowLessTotal`, `SortedReport`) |
| SequentialLedgerLoading.TableNames | src/main/java/software/amazon/qldb/export/impl/SequentialLedgerLoadBlockVisitor.java:69-74 | defines `tableMap` (see `BuildTableMap`, `EventTable`) |
| SequentialLedgerLoading.EventOf | src/main/java/software/amazon/qldb/export/impl/SequentialLedgerLoadBlockVisitor.java:84-88 | defines the event of one revision (see `EventTable`) |
| SequentialLedgerLoading.WritesFor | src/main/java/software/amazon/qldb/export/impl/SequentialLedgerLoadBlockVisitor.java:58-93 | defines the `writeEvents` calls of one block (see `WritesOnce`, `OneWritePerBlock`) |

## Left out

- S3 and the AWS SDK. `process()` (which builds the S3 client), `getExportFileKeys` and
  `getJournalBlocks` are not part of this model. Their results are lookups in the `Store` value, and
  a missing object is a `NoSuchKey` error. Network failures and other SDK exceptions are not modelled.
- Ion decoding. A manifest is its list of keys, and a data file is its list of decoded blocks
  (`Journal.Block`). Wrongly typed Ion fields (a `ClassCastException` in the code) cannot occur.
- ExportWalkProperties.PreflightEvents: the `IOException` that `processExports` wraps as "Unable to
  fetch manifest files" is not modelled. The only read failure in the model is a missing object,
  which S3 reports as an SDK exception, not an `IOException`.
- ExportWalk.Visitor: whether a visitor's `visit` throws depends only on the block's sequence
  number. A revision visitor therefore throws on every revision of a block or on none. A visitor
  that throws only on a later revision of a block, after that block's earlier revisions reached every
  visitor, is not modelled; the engine lemmas cover only visitors of the first kind.
- Visitors in the engine are values that say on which call they throw
  (`ExportWalk.Visitor`). The engine model does not run the three concrete visitors' own code. Those
  visitors are modelled separately, each on its own inputs.
- Logging is left out, except that a visitor's failed teardown leaves a `TeardownWarning` event in
  the trace where the code logs a warning.
- The builders' setters (`ExportProcessor.builder()`, `addBlockVisitor`, …) are left out. The
  constructor takes the final visitor lists and bounds; a bound of -1 means "not set", as in the
  builder.
- ExportProcessing.ExportProcessor.CheckContiguous: `lastBlock + 1` is unbounded here. Java `int`
  overflow at `Integer.MAX_VALUE` is not modelled.
- StatsCalculation.VisitAllTotals: `totalBlocks` and `totalRevisions` are unbounded; Java `int`
  overflow is not modelled.
- Integer widths: `sequenceNo` and `version` are read with `intValue()`, which truncates a larger Ion
  integer. The model takes them as unbounded `int`s.
- JavaStrings.Compare: `String.compareTo` compares UTF-16 code units, and the model compares
  characters (Unicode code points). The two orders differ for characters beyond U+FFFF, for example
  U+FFFF against U+1F600.
- JavaStrings.ParseInt: `Integer.parseInt` accepts any Unicode decimal digit (through
  `Character.digit`, so `"٣"` is 3); the model accepts only the ASCII digits `0`-`9`. Keys read from a
  manifest with other digits are therefore unparsable in the model.
- ExportNames.DataFileKeyRange: `Integer.parseInt` throws on a numeral beyond the `int` range; the
  model reads any length of digits.
- StatsCalculation.ParseUtcTimestamp: only the exact 24-character form
  `yyyy-MM-dd'T'HH:mm:ss.SSS'Z'` is modelled (out-of-range fields do roll over, as in a lenient
  calendar). `SimpleDateFormat` also accepts more or fewer digits per field and trailing text; those
  strings are modelled as unparsable.
- StatsCalculation.LenientMillis: dates before the 1582 Julian/Gregorian cutover. `LenientMillis`
  counts days with `DaysFromCivil`, the proleptic Gregorian calendar, and so does `ParseUtcTimestamp`
  through it, while `GregorianCalendar` switches to Julian dates before the cutover; for those dates
  the model's milliseconds differ from the source's.
- The transactions-per-second figure of `printResults` is a `double` and is left out. So are all
  printing and formatting: the output file's column layout, `SimpleDateFormat.format` of a slice, and
  the teardown report's column widths. A written histogram line is the pair (slice in milliseconds,
  count), and the report is a list of rows.
- StatsCalculation.StatsCalculator.Setup: deleting an existing output file and I/O errors on writing
  are not modelled. An open writer is a flag, and the lines written are a sequence.
- TableDocumentCounting.TableDocumentCountRevisionVisitor.GetCounts: the order in which `HashMap`
  returns its values is left unspecified. Any order with one counter per table satisfies the
  contract.
- Sorting.SortBy: `List.sort` sorts in place. It is modelled as a function on the list's value, and
  the insertion sort that stands for it is stable, but no lemma states stability.
- The empty `setup` and `teardown` of `SequentialLedgerLoadBlockVisitor`, and the empty `setup` of
  `TableDocumentCountRevisionVisitor`, change nothing and are not modelled.
- `LoadEvent` and `RevisionWriter` are not part of this model. An event is the revision plus its table
  name, and the writer records its calls. Flushing and closing the writer are left out.
- Duplicate field names in an Ion struct: `transactionInfo.documents` is a map, so a document id
  appears once.
- The command-line applications and the other visitors of the repository are not part of this model.
