/**
 * What one run of the export processor does, as functions from its inputs to the trace of calls it
 * makes: object-store fetches and visitor calls. The object store is a value (manifest path to data
 * file keys, data file key to decoded blocks), and a visitor is described by the calls on which it
 * throws. The imperative processor in ExportProcessing is proved to append exactly these traces.
 */
module ExportWalk {
  import opened Wrappers
  import opened JavaStrings
  import opened Journal
  import opened ExportNames
  import Sorting

  /** The table id and name given to a revision whose document is not in `transactionInfo.documents`. */
  const Unknown: string := "***UNKNOWN***"

  datatype VisitorKind = RevisionVisitorKind | BlockVisitorKind

  /** A plug-in as the processor sees it: whether `setup`/`teardown` throw, and the sequence numbers
      of the blocks on which `visit` throws. */
  datatype Visitor = Visitor(setupThrows: bool, visitThrowsOn: set<int>, teardownThrows: bool)

  datatype Call = SetupCall | VisitCall(sequenceNo: int) | TeardownCall

  predicate Throws(v: Visitor, call: Call) {
    match call
    case SetupCall => v.setupThrows
    case VisitCall(n) => n in v.visitThrowsOn
    case TeardownCall => v.teardownThrows
  }

  /** What the processor does that can be observed: fetches and visitor calls, in order. */
  datatype Event =
    | FetchManifest(path: string)
    | FetchDataFile(key: string)
    | Setup(kind: VisitorKind, index: nat)
    | VisitBlock(index: nat, block: Block)
    | VisitRevision(index: nat, sequenceNo: int, revision: Revision, tableId: string, tableName: string)
    | Teardown(kind: VisitorKind, index: nat)
    | TeardownWarning(kind: VisitorKind, index: nat)   // the logged warning for a throwing teardown

  datatype Error =
    | MissingBucket
    | MissingManifestPath
    | NotACompletedManifestPath(path: string)
    | MissingManifestPaths
    | InvalidManifestPath(path: string)
    | StrandMismatch
    | NotContiguous
    | NoSuchKey(key: string)
    | BadKey(keyError: KeyError)
    | VisitorThrew(kind: VisitorKind, index: nat)
    | ProcessingFailed(atBlock: Option<int>, cause: Error)   // atBlock None: "prior to first block"

  /** The contents of the export bucket. */
  datatype Store = Store(manifests: map<string, seq<string>>, dataFiles: map<string, seq<Block>>)

  /** The processor's configuration; a bound of -1 or less is no bound. */
  datatype Config = Config(blockVisitors: seq<Visitor>, revisionVisitors: seq<Visitor>, startBlock: int, endBlock: int) {
    predicate Bounded() {
      startBlock > -1 || endBlock > -1
    }

    predicate BeforeWindow(n: int) {
      startBlock > -1 && n < startBlock
    }

    predicate AfterWindow(n: int) {
      endBlock > -1 && n > endBlock
    }

    predicate InWindow(n: int) {
      !BeforeWindow(n) && !AfterWindow(n)
    }
  }

  // ---------------------------------------------------------------------------------------------
  // Calling every visitor of a list in order, stopping at the first that throws

  /** The index of the first visitor that throws on `call`, or the number of visitors. */
  function FirstThrowing(vs: seq<Visitor>, call: Call): (k: nat)
    ensures k <= |vs|
    ensures forall j | 0 <= j < k :: !Throws(vs[j], call)
    ensures k < |vs| ==> Throws(vs[k], call)
  {
    if vs == [] then 0
    else if Throws(vs[0], call) then 0
    else 1 + FirstThrowing(vs[1..], call)
  }

  /** How many visitors are called: all of them, or up to and including the first that throws. */
  function CallsMade(vs: seq<Visitor>, call: Call): (n: nat)
    ensures n <= |vs|
    ensures forall j | 0 <= j < n - 1 :: !Throws(vs[j], call)
    ensures n < |vs| ==> 0 < n && Throws(vs[n - 1], call)
  {
    var k := FirstThrowing(vs, call);
    if k < |vs| then k + 1 else k
  }

  /** Events, and the exception that cut them short if there was one. */
  datatype Calls = Calls(events: seq<Event>, thrown: Option<Error>)

  function Prepend(prefix: seq<Event>, c: Calls): Calls {
    Calls(prefix + c.events, c.thrown)
  }

  /** The exception of the first visitor that throws on `call`, if one does. */
  function ThrownBy(vs: seq<Visitor>, call: Call, kind: VisitorKind): (t: Option<Error>)
    ensures t.None? <==> forall j | 0 <= j < |vs| :: !Throws(vs[j], call)
    ensures t.None? ==> CallsMade(vs, call) == |vs|
    ensures t.Some? ==> 0 < CallsMade(vs, call) && Throws(vs[CallsMade(vs, call) - 1], call)
    ensures t.Some? ==> t.value == VisitorThrew(kind, CallsMade(vs, call) - 1)
  {
    var k := FirstThrowing(vs, call);
    if k < |vs| then Some(VisitorThrew(kind, k)) else None
  }

  /** `visit(block)` on block visitors 0 .. n-1. */
  function BlockVisitEvents(n: nat, b: Block): (s: seq<Event>)
    ensures |s| == n
    ensures forall j | 0 <= j < n :: s[j] == VisitBlock(j, b)
  {
    if n == 0 then [] else BlockVisitEvents(n - 1, b) + [VisitBlock(n - 1, b)]
  }

  /** `visit(revision, tableId, tableName)` on revision visitors 0 .. n-1. */
  function RevisionVisitEvents(n: nat, sequenceNo: int, r: Revision, table: TableInfo): (s: seq<Event>)
    ensures |s| == n
    ensures forall j | 0 <= j < n :: s[j] == VisitRevision(j, sequenceNo, r, table.tableId, table.tableName)
  {
    if n == 0 then []
    else RevisionVisitEvents(n - 1, sequenceNo, r, table) + [VisitRevision(n - 1, sequenceNo, r, table.tableId, table.tableName)]
  }

  /** `setup()` on visitors 0 .. n-1 of one list. */
  function SetupCallEvents(n: nat, kind: VisitorKind): (s: seq<Event>)
    ensures |s| == n
    ensures forall j | 0 <= j < n :: s[j] == Setup(kind, j)
  {
    if n == 0 then [] else SetupCallEvents(n - 1, kind) + [Setup(kind, n - 1)]
  }

  /** `bv.visit(block)` for every block visitor, in list order, until one throws. */
  function BlockVisits(vs: seq<Visitor>, b: Block): (c: Calls)
    ensures |c.events| <= |vs|
    ensures forall j | 0 <= j < |c.events| :: c.events[j] == VisitBlock(j, b)
    ensures c.thrown.None? <==> forall j | 0 <= j < |vs| :: !Throws(vs[j], VisitCall(b.sequenceNo))
    ensures c.thrown.None? ==> |c.events| == |vs|
    ensures c.thrown.Some? ==> 0 < |c.events| && c.thrown.value == VisitorThrew(BlockVisitorKind, |c.events| - 1)
    ensures c.thrown.Some? ==> Throws(vs[|c.events| - 1], VisitCall(b.sequenceNo))
    ensures forall j | 0 <= j < |c.events| - 1 :: !Throws(vs[j], VisitCall(b.sequenceNo))
  {
    var n := CallsMade(vs, VisitCall(b.sequenceNo));
    Calls(BlockVisitEvents(n, b), ThrownBy(vs, VisitCall(b.sequenceNo), BlockVisitorKind))
  }

  /** `rv.visit(revision, tableId, tableName)` for every revision visitor, in list order, until one throws. */
  function RevisionVisits(vs: seq<Visitor>, sequenceNo: int, r: Revision, table: TableInfo): (c: Calls)
    ensures |c.events| <= |vs|
    ensures forall j | 0 <= j < |c.events| ::
      c.events[j] == VisitRevision(j, sequenceNo, r, table.tableId, table.tableName)
    ensures c.thrown.None? <==> forall j | 0 <= j < |vs| :: !Throws(vs[j], VisitCall(sequenceNo))
    ensures c.thrown.None? ==> |c.events| == |vs|
    ensures c.thrown.Some? ==> 0 < |c.events| && c.thrown.value == VisitorThrew(RevisionVisitorKind, |c.events| - 1)
    ensures c.thrown.Some? ==> Throws(vs[|c.events| - 1], VisitCall(sequenceNo))
    ensures forall j | 0 <= j < |c.events| - 1 :: !Throws(vs[j], VisitCall(sequenceNo))
  {
    var n := CallsMade(vs, VisitCall(sequenceNo));
    Calls(RevisionVisitEvents(n, sequenceNo, r, table), ThrownBy(vs, VisitCall(sequenceNo), RevisionVisitorKind))
  }

  // ---------------------------------------------------------------------------------------------
  // One block

  /** The table of a document: its `documents` entry, or the unknown pair. */
  function ResolveTable(documents: map<string, TableInfo>, id: string): (t: TableInfo)
    ensures id in documents ==> t == documents[id]
    ensures id !in documents ==> t.tableId == Unknown && t.tableName == Unknown
  {
    if id in documents then documents[id] else TableInfo(Unknown, Unknown)
  }

  /** One revision of a block: skipped without metadata, else to every revision visitor with the
      table its document id resolves to. */
  function RevisionEvents(cfg: Config, sequenceNo: int, documents: map<string, TableInfo>, r: Revision): Calls {
    match r.metadata
    case None => Calls([], None)
    case Some(m) => RevisionVisits(cfg.revisionVisitors, sequenceNo, r, ResolveTable(documents, m.id))
  }

  /** The revisions of one block in list order, until a visitor throws. */
  function DispatchRevisions(cfg: Config, sequenceNo: int, documents: map<string, TableInfo>,
                             revisions: seq<Revision>): Calls
  {
    if revisions == [] then Calls([], None)
    else
      var one := RevisionEvents(cfg, sequenceNo, documents, revisions[0]);
      if one.thrown.Some? then one
      else Prepend(one.events, DispatchRevisions(cfg, sequenceNo, documents, revisions[1..]))
  }

  /** Whether the processor dispatches the revisions of `b`. */
  predicate DispatchesRevisions(cfg: Config, b: Block) {
    && |cfg.revisionVisitors| > 0
    && b.revisions.Some?
    && b.transactionInfo.Some?
    && b.transactionInfo.value.documents.Some?
  }

  /** An in-window block: the block visitors, then its revisions. */
  function BlockEvents(cfg: Config, b: Block): Calls {
    var visits := BlockVisits(cfg.blockVisitors, b);
    if visits.thrown.Some? || !DispatchesRevisions(cfg, b) then visits
    else Prepend(visits.events, DispatchRevisions(cfg, b.sequenceNo, b.transactionInfo.value.documents.value, b.revisions.value))
  }

  // ---------------------------------------------------------------------------------------------
  // Walking blocks, files and manifests

  datatype Status = Running | EndReached | Failed(error: Error)

  /** The events of a walk, the last block number read, and how the walk ended. */
  datatype Walk = Walk(events: seq<Event>, currentBlockNum: int, status: Status)

  function Then(prefix: seq<Event>, w: Walk): Walk {
    Walk(prefix + w.events, w.currentBlockNum, w.status)
  }

  /** The blocks of one data file: skip those before the window, stop at the first after it. */
  function WalkBlocks(cfg: Config, blocks: seq<Block>, current: int): Walk {
    if blocks == [] then Walk([], current, Running)
    else
      var b := blocks[0];
      if cfg.BeforeWindow(b.sequenceNo) then WalkBlocks(cfg, blocks[1..], b.sequenceNo)
      else if cfg.AfterWindow(b.sequenceNo) then Walk([], b.sequenceNo, EndReached)
      else
        var c := BlockEvents(cfg, b);
        if c.thrown.Some? then Walk(c.events, b.sequenceNo, Failed(c.thrown.value))
        else Then(c.events, WalkBlocks(cfg, blocks[1..], b.sequenceNo))
  }

  /** Whether a data file is fetched at all: always without bounds, else as `blocksInRange` says. */
  function FileInRange(cfg: Config, key: string): Result<bool, KeyError> {
    if cfg.Bounded() then BlocksInRange(cfg.startBlock, cfg.endBlock, key) else Success(true)
  }

  /** The data files of one manifest, in manifest order, until the window's end is passed. */
  function WalkFiles(cfg: Config, store: Store, keys: seq<string>, current: int): Walk {
    if keys == [] then Walk([], current, Running)
    else
      var key := keys[0];
      match FileInRange(cfg, key)
      case Failure(e) => Walk([], current, Failed(BadKey(e)))
      case Success(false) => WalkFiles(cfg, store, keys[1..], current)
      case Success(true) =>
        if key !in store.dataFiles then Walk([FetchDataFile(key)], current, Failed(NoSuchKey(key)))
        else
          var w := WalkBlocks(cfg, store.dataFiles[key], current);
          if w.status.Running? then Then([FetchDataFile(key)] + w.events, WalkFiles(cfg, store, keys[1..], w.currentBlockNum))
          else Then([FetchDataFile(key)], w)
  }

  /** `processManifest`: read the key list (a leading slash is dropped), then walk its files;
      passing the window's end ends this manifest normally. */
  function WalkManifest(cfg: Config, store: Store, path: string, current: int): (w: Walk)
    ensures !w.status.EndReached?
  {
    var p := StripLeadingSlash(path);
    if p !in store.manifests then Walk([FetchManifest(p)], current, Failed(NoSuchKey(p)))
    else
      var w := WalkFiles(cfg, store, store.manifests[p], current);
      Walk([FetchManifest(p)] + w.events, w.currentBlockNum, if w.status.EndReached? then Running else w.status)
  }

  /** The manifests in the given order, stopping at the first failure. */
  function WalkManifests(cfg: Config, store: Store, paths: seq<string>, current: int): (w: Walk)
    ensures !w.status.EndReached?
  {
    if paths == [] then Walk([], current, Running)
    else
      var w := WalkManifest(cfg, store, paths[0], current);
      if w.status.Failed? then w
      else Then(w.events, WalkManifests(cfg, store, paths[1..], w.currentBlockNum))
  }

  // ---------------------------------------------------------------------------------------------
  // Lifecycle

  /** `setup()` of every visitor of one list, in order, until one throws. */
  function SetupEvents(vs: seq<Visitor>, kind: VisitorKind): (c: Calls)
    ensures |c.events| <= |vs|
    ensures forall j | 0 <= j < |c.events| :: c.events[j] == Setup(kind, j)
    ensures c.thrown.None? <==> forall j | 0 <= j < |vs| :: !vs[j].setupThrows
    ensures c.thrown.None? ==> |c.events| == |vs|
    ensures c.thrown.Some? ==> 0 < |c.events| && c.thrown.value == VisitorThrew(kind, |c.events| - 1)
    ensures c.thrown.Some? ==> Throws(vs[|c.events| - 1], SetupCall)
    ensures forall j | 0 <= j < |c.events| - 1 :: !Throws(vs[j], SetupCall)
  {
    var n := CallsMade(vs, SetupCall);
    Calls(SetupCallEvents(n, kind), ThrownBy(vs, SetupCall, kind))
  }

  /** `setup()`: every revision visitor, then every block visitor; the first exception ends it. */
  function SetupCalls(cfg: Config): Calls {
    var r := SetupEvents(cfg.revisionVisitors, RevisionVisitorKind);
    if r.thrown.Some? then r else Prepend(r.events, SetupEvents(cfg.blockVisitors, BlockVisitorKind))
  }

  /** One visitor's `teardown()`, and the warning logged when it throws. */
  function TeardownOne(v: Visitor, kind: VisitorKind, index: nat): seq<Event> {
    [Teardown(kind, index)] + (if v.teardownThrows then [TeardownWarning(kind, index)] else [])
  }

  /** Every visitor of the list torn down, in order, whatever each one does. */
  function TeardownEvents(vs: seq<Visitor>, kind: VisitorKind): seq<Event> {
    if vs == [] then []
    else TeardownEvents(vs[..|vs| - 1], kind) + TeardownOne(vs[|vs| - 1], kind, |vs| - 1)
  }

  /** `teardown()`: every revision visitor, then every block visitor. */
  function TeardownCalls(cfg: Config): seq<Event> {
    TeardownEvents(cfg.revisionVisitors, RevisionVisitorKind) + TeardownEvents(cfg.blockVisitors, BlockVisitorKind)
  }

  /** The exception a failed run rethrows, with the last block number read if there is one. */
  function Wrap(current: int, cause: Error): (e: Error)
    ensures e.ProcessingFailed? && e.cause == cause
    ensures e.atBlock.None? <==> current < 0
    ensures e.atBlock.Some? ==> e.atBlock.value == current
  {
    ProcessingFailed(if current < 0 then None else Some(current), cause)
  }

  /** The events of a run, the processor's block counter afterwards, and the exception it throws. */
  datatype Run = Run(events: seq<Event>, currentBlockNum: int, thrown: Option<Error>)

  /** The walk inside the `try`: none when a setup throws. */
  function RunWalk(cfg: Config, store: Store, paths: seq<string>, current: int): Walk {
    var s := SetupCalls(cfg);
    if s.thrown.Some? then Walk([], current, Failed(s.thrown.value)) else WalkManifests(cfg, store, paths, current)
  }

  /** `try { setup(); walk } catch { rethrow wrapped } finally { teardown(); }` */
  function RunManifests(cfg: Config, store: Store, paths: seq<string>, current: int): Run {
    var w := RunWalk(cfg, store, paths, current);
    Run(SetupCalls(cfg).events + w.events + TeardownCalls(cfg), w.currentBlockNum,
        if w.status.Failed? then Some(Wrap(w.currentBlockNum, w.status.error)) else None)
  }

  /** `processExport(bucket, manifestPath)`. */
  function ProcessExportRun(cfg: Config, store: Store, bucket: Option<string>, manifestPath: Option<string>,
                            current: int): Run
  {
    if bucket.None? then Run([], current, Some(MissingBucket))
    else if manifestPath.None? then Run([], current, Some(MissingManifestPath))
    else if !EndsWith(manifestPath.value, ".completed.manifest") then
      Run([], current, Some(NotACompletedManifestPath(manifestPath.value)))
    else RunManifests(cfg, store, [manifestPath.value], current)
  }

  // ---------------------------------------------------------------------------------------------
  // Multi-manifest pre-flight

  /** The checks and range reads of `processExports` before anything is processed. */
  datatype Preflight = Preflight(events: seq<Event>, result: Result<seq<ManifestStruct>, Error>)

  /** The pre-flight state after some paths: events and manifests so far, then the rest. */
  function Joined(done: seq<Event>, structs: seq<ManifestStruct>, rest: Preflight): Preflight {
    Preflight(done + rest.events, if rest.result.Failure? then rest.result else Success(structs + rest.result.value))
  }

  /** The pre-flight of the remaining paths; `strand` is the strand of the first path, once read. */
  function PreflightFrom(store: Store, paths: seq<string>, strand: Option<string>): Preflight {
    if paths == [] then Preflight([], Success([]))
    else
      var path := paths[0];
      var name := BaseName(path);
      if !IsCompletedManifestName(name) then Preflight([], Failure(InvalidManifestPath(path)))
      else if strand.Some? && strand.value != Strand(name) then Preflight([], Failure(StrandMismatch))
      else if path !in store.manifests then Preflight([FetchManifest(path)], Failure(NoSuchKey(path)))
      else
        match ManifestBlockRange(path, store.manifests[path])
        case Failure(e) => Preflight([FetchManifest(path)], Failure(BadKey(e)))
        case Success(found) =>
          Joined([FetchManifest(path)], if found.Some? then [found.value] else [],
                 PreflightFrom(store, paths[1..], Some(Strand(name))))
  }

  /** The first path of the pre-flight, case by case. */
  lemma PreflightStep(store: Store, paths: seq<string>, strand: Option<string>)
    requires paths != []
    ensures var path := paths[0];
      var name := BaseName(path);
      PreflightFrom(store, paths, strand) ==
        if !IsCompletedManifestName(name) then Preflight([], Failure(InvalidManifestPath(path)))
        else if strand.Some? && strand.value != Strand(name) then Preflight([], Failure(StrandMismatch))
        else if path !in store.manifests then Preflight([FetchManifest(path)], Failure(NoSuchKey(path)))
        else
          match ManifestBlockRange(path, store.manifests[path])
          case Failure(e) => Preflight([FetchManifest(path)], Failure(BadKey(e)))
          case Success(found) =>
            Joined([FetchManifest(path)], if found.Some? then [found.value] else [],
                   PreflightFrom(store, paths[1..], Some(Strand(name))))
  {
  }

  predicate FirstBlockLess(a: ManifestStruct, b: ManifestStruct) {
    a.firstBlock < b.firstBlock
  }

  /** Each manifest starts right after the previous one ends. */
  predicate Contiguous(ms: seq<ManifestStruct>) {
    forall i | 1 <= i < |ms| :: ms[i].firstBlock == ms[i - 1].lastBlock + 1
  }

  function Paths(ms: seq<ManifestStruct>): (paths: seq<string>)
    ensures |paths| == |ms|
    ensures forall i | 0 <= i < |ms| :: paths[i] == ms[i].path
  {
    if ms == [] then [] else [ms[0].path] + Paths(ms[1..])
  }

  /** `processExports(bucket, manifestPaths)`. */
  function ProcessExportsRun(cfg: Config, store: Store, bucket: Option<string>, manifestPaths: Option<seq<string>>,
                             current: int): Run
  {
    if bucket.None? then Run([], current, Some(MissingBucket))
    else if manifestPaths.None? || |manifestPaths.value| == 0 then Run([], current, Some(MissingManifestPaths))
    else
      var pre := PreflightFrom(store, manifestPaths.value, None);
      match pre.result
      case Failure(e) => Run(pre.events, current, Some(e))
      case Success(found) =>
        var sorted := Sorting.SortBy(found, FirstBlockLess);
        if !Contiguous(sorted) then Run(pre.events, current, Some(NotContiguous))
        else
          var r := RunManifests(cfg, store, Paths(sorted), current);
          Run(pre.events + r.events, r.currentBlockNum, r.thrown)
  }
}
