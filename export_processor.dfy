/**
 * The export processor itself: it holds the visitor lists, the block window and the block counter
 * `currentBlockNum`, and walks an export with nested loops. Every call it makes is appended to
 * `trace`; each method is proved to append exactly what the functions of ExportWalk describe.
 */
module ExportProcessing {
  import opened Wrappers
  import opened JavaStrings
  import opened Journal
  import opened ExportNames
  import opened ExportWalk
  import Sorting

  class ExportProcessor {
    const blockVisitors: seq<Visitor>
    const revisionVisitors: seq<Visitor>
    const startBlock: int
    const endBlock: int
    /** The sequence number of the last block read; -1 until one is read, and never reset. */
    var currentBlockNum: int
    /** The fetches and visitor calls made so far. */
    var trace: seq<Event>

    function Cfg(): Config {
      Config(blockVisitors, revisionVisitors, startBlock, endBlock)
    }

    /** What `build()` produces: the builder's lists and bounds, and no block read yet. */
    constructor(blockVisitors: seq<Visitor>, revisionVisitors: seq<Visitor>, startBlock: int, endBlock: int)
      ensures Cfg() == Config(blockVisitors, revisionVisitors, startBlock, endBlock)
      ensures currentBlockNum == -1 && trace == []
    {
      this.blockVisitors := blockVisitors;
      this.revisionVisitors := revisionVisitors;
      this.startBlock := startBlock;
      this.endBlock := endBlock;
      currentBlockNum := -1;
      trace := [];
    }

    /** `processExport(bucket, manifestPath)`; `store` is the contents of the bucket. */
    method ProcessExport(bucket: Option<string>, manifestPath: Option<string>, store: Store) returns (thrown: Option<Error>)
      modifies this
      ensures var r := ProcessExportRun(Cfg(), store, bucket, manifestPath, old(currentBlockNum));
        trace == old(trace) + r.events && currentBlockNum == r.currentBlockNum && thrown == r.thrown
    {
      if bucket.None? {
        return Some(MissingBucket);
      }
      if manifestPath.None? {
        return Some(MissingManifestPath);
      }
      if !EndsWith(manifestPath.value, ".completed.manifest") {
        return Some(NotACompletedManifestPath(manifestPath.value));
      }
      thrown := RunGuarded([manifestPath.value], store);
    }

    /** `processExports(bucket, manifestPaths)`: pre-flight every manifest, sort them by first
        block, check that they are contiguous, then process them in order. */
    method ProcessExports(bucket: Option<string>, manifestPaths: Option<seq<string>>, store: Store)
      returns (thrown: Option<Error>)
      modifies this
      ensures var r := ProcessExportsRun(Cfg(), store, bucket, manifestPaths, old(currentBlockNum));
        trace == old(trace) + r.events && currentBlockNum == r.currentBlockNum && thrown == r.thrown
    {
      if bucket.None? {
        return Some(MissingBucket);
      }
      if manifestPaths.None? || |manifestPaths.value| == 0 {
        return Some(MissingManifestPaths);
      }
      ghost var pre := PreflightFrom(store, manifestPaths.value, None);
      var found := PreflightManifests(manifestPaths.value, store);
      if found.Failure? {
        return Some(found.error);
      }
      var structs := Sorting.SortBy(found.value, FirstBlockLess);
      var contiguous := CheckContiguous(structs);
      if !contiguous {
        return Some(NotContiguous);
      }
      ghost var r := RunManifests(Cfg(), store, Paths(structs), currentBlockNum);
      thrown := RunGuarded(Paths(structs), store);
      AppendAssoc(old(trace), pre.events, r.events);
    }

    /** The loop of `processExports` that checks each path's name and strand and reads its range. */
    method PreflightManifests(paths: seq<string>, store: Store) returns (found: Result<seq<ManifestStruct>, Error>)
      modifies this
      ensures trace == old(trace) + PreflightFrom(store, paths, None).events
      ensures found == PreflightFrom(store, paths, None).result
      ensures currentBlockNum == old(currentBlockNum)
    {
      var checkStrand: Option<string> := None;
      var structs: seq<ManifestStruct> := [];
      ghost var done: seq<Event> := [];
      assert paths[0..] == paths;
      JoinedNothing(PreflightFrom(store, paths, None));
      for i := 0 to |paths|
        invariant trace == old(trace) + done
        invariant currentBlockNum == old(currentBlockNum)
        invariant PreflightFrom(store, paths, None) == Joined(done, structs, PreflightFrom(store, paths[i..], checkStrand))
      {
        var path := paths[i];
        PreflightAdvance(store, paths, i, checkStrand, done, structs);
        var name := BaseName(path);
        if !IsCompletedManifestName(name) {
          return Failure(InvalidManifestPath(path));
        }
        var strand := Strand(name);
        if checkStrand.Some? && checkStrand.value != strand {
          return Failure(StrandMismatch);
        }
        checkStrand := Some(strand);
        var range := GetManifestBlockRange(path, store);
        AppendAssoc(old(trace), done, [FetchManifest(path)]);
        done := done + [FetchManifest(path)];
        if range.Failure? {
          return Failure(range.error);
        }
        if range.value.Some? {
          structs := structs + [range.value.value];
        } else {
          assert structs + [] == structs;
        }
      }
      assert paths[|paths|..] == [];
      assert done + [] == done && structs + [] == structs;
      return Success(structs);
    }

    /** `getManifestBlockRange(bucket, path)`: read the manifest (the path as given) and take the
        range from its first and last keys. */
    method GetManifestBlockRange(path: string, store: Store) returns (r: Result<Option<ManifestStruct>, Error>)
      modifies this
      ensures trace == old(trace) + [FetchManifest(path)] && currentBlockNum == old(currentBlockNum)
      ensures path !in store.manifests ==> r == Failure(NoSuchKey(path))
      ensures path in store.manifests ==>
        match ManifestBlockRange(path, store.manifests[path])
        case Success(found) => r == Success(found)
        case Failure(e) => r == Failure(BadKey(e))
    {
      trace := trace + [FetchManifest(path)];
      if path !in store.manifests {
        return Failure(NoSuchKey(path));
      }
      var range := ManifestBlockRange(path, store.manifests[path]);
      if range.Failure? {
        return Failure(BadKey(range.error));
      }
      return Success(range.value);
    }

    /** The check that each manifest starts right after the previous one ends. */
    static method CheckContiguous(structs: seq<ManifestStruct>) returns (ok: bool)
      ensures ok <==> Contiguous(structs)
    {
      var i := 1;
      while i < |structs|
        invariant 1 <= i
        invariant forall k | 1 <= k < i && k < |structs| :: structs[k].firstBlock == structs[k - 1].lastBlock + 1
      {
        if structs[i].firstBlock != structs[i - 1].lastBlock + 1 {
          return false;
        }
        i := i + 1;
      }
      return true;
    }

    /** `try { setup(); process the manifests } catch { rethrow wrapped } finally { teardown(); }` */
    method RunGuarded(paths: seq<string>, store: Store) returns (thrown: Option<Error>)
      modifies this
      ensures var r := RunManifests(Cfg(), store, paths, old(currentBlockNum));
        trace == old(trace) + r.events && currentBlockNum == r.currentBlockNum && thrown == r.thrown
    {
      ghost var w := RunWalk(Cfg(), store, paths, currentBlockNum);
      var setupThrown := Setup();
      var status: Status;
      if setupThrown.Some? {
        status := Failed(setupThrown.value);
        assert w.events == [];
      } else {
        status := ProcessManifests(paths, store);
      }
      AppendAssoc(old(trace), SetupCalls(Cfg()).events, w.events);
      thrown := if status.Failed? then Some(Wrap(currentBlockNum, status.error)) else None;
      Teardown();
      AppendAssoc(old(trace), SetupCalls(Cfg()).events + w.events, TeardownCalls(Cfg()));
    }

    /** `processManifest` for each path in order, until one fails. */
    method ProcessManifests(paths: seq<string>, store: Store) returns (status: Status)
      modifies this
      ensures var w := WalkManifests(Cfg(), store, paths, old(currentBlockNum));
        trace == old(trace) + w.events && currentBlockNum == w.currentBlockNum && status == w.status
    {
      ghost var done: seq<Event> := [];
      for i := 0 to |paths|
        invariant trace == old(trace) + done
        invariant WalkManifests(Cfg(), store, paths, old(currentBlockNum))
               == Then(done, WalkManifests(Cfg(), store, paths[i..], currentBlockNum))
      {
        ghost var w := WalkManifest(Cfg(), store, paths[i], currentBlockNum);
        ManifestsAdvance(Cfg(), store, paths, i, old(currentBlockNum), currentBlockNum, done);
        status := ProcessManifest(paths[i], store);
        AppendAssoc(old(trace), done, w.events);
        if status.Failed? {
          return;
        }
        done := done + w.events;
      }
      assert paths[|paths|..] == [] && done + [] == done;
      return Running;
    }

    /** `processManifest(bucket, manifestPath)`: read the manifest's keys, then each in-range data
        file's blocks; reaching a block after the window ends this manifest, not the export. */
    method ProcessManifest(manifestPath: string, store: Store) returns (status: Status)
      modifies this
      ensures var w := WalkManifest(Cfg(), store, manifestPath, old(currentBlockNum));
        trace == old(trace) + w.events && currentBlockNum == w.currentBlockNum && status == w.status
    {
      var path := StripLeadingSlash(manifestPath);
      trace := trace + [FetchManifest(path)];
      if path !in store.manifests {
        return Failed(NoSuchKey(path));
      }
      ghost var w := WalkFiles(Cfg(), store, store.manifests[path], currentBlockNum);
      status := ProcessFiles(store.manifests[path], store);
      AppendAssoc(old(trace), [FetchManifest(path)], w.events);
      if status.EndReached? {
        status := Running;
      }
    }

    /** The key loop of `processManifest`: fetch each in-range data file and walk its blocks. */
    method ProcessFiles(keys: seq<string>, store: Store) returns (status: Status)
      modifies this
      ensures var w := WalkFiles(Cfg(), store, keys, old(currentBlockNum));
        trace == old(trace) + w.events && currentBlockNum == w.currentBlockNum && status == w.status
    {
      ghost var done: seq<Event> := [];
      for i := 0 to |keys|
        invariant trace == old(trace) + done
        invariant WalkFiles(Cfg(), store, keys, old(currentBlockNum))
               == Then(done, WalkFiles(Cfg(), store, keys[i..], currentBlockNum))
      {
        var key := keys[i];
        FilesAdvance(Cfg(), store, keys, i, old(currentBlockNum), currentBlockNum, done);
        var inRange := FileInRange(Cfg(), key);
        if inRange.Failure? {
          assert done + [] == done;
          return Failed(BadKey(inRange.error));
        }
        if inRange.value {
          trace := trace + [FetchDataFile(key)];
          AppendAssoc(old(trace), done, [FetchDataFile(key)]);
          done := done + [FetchDataFile(key)];
          if key !in store.dataFiles {
            assert done + [] == done;
            return Failed(NoSuchKey(key));
          }
          ghost var w := WalkBlocks(Cfg(), store.dataFiles[key], currentBlockNum);
          var fileStatus := ProcessBlocks(store.dataFiles[key]);
          AppendAssoc(old(trace), done, w.events);
          if !fileStatus.Running? {
            return fileStatus;
          }
          done := done + w.events;
        }
      }
      assert keys[|keys|..] == [] && done + [] == done;
      return Running;
    }

    /** The block loop of `processManifest` over one data file. */
    method ProcessBlocks(blocks: seq<Block>) returns (status: Status)
      modifies this
      ensures var w := WalkBlocks(Cfg(), blocks, old(currentBlockNum));
        trace == old(trace) + w.events && currentBlockNum == w.currentBlockNum && status == w.status
    {
      ghost var done: seq<Event> := [];
      for i := 0 to |blocks|
        invariant trace == old(trace) + done
        invariant WalkBlocks(Cfg(), blocks, old(currentBlockNum))
               == Then(done, WalkBlocks(Cfg(), blocks[i..], currentBlockNum))
      {
        var block := blocks[i];
        BlocksAdvance(Cfg(), blocks, i, old(currentBlockNum), currentBlockNum, done);
        currentBlockNum := block.sequenceNo;
        if startBlock > -1 && currentBlockNum < startBlock {
          continue;
        }
        if endBlock > -1 && currentBlockNum > endBlock {
          assert done + [] == done;
          return EndReached;
        }
        ghost var c := BlockEvents(Cfg(), block);
        var thrown := DispatchBlock(block);
        AppendAssoc(old(trace), done, c.events);
        if thrown.Some? {
          return Failed(thrown.value);
        }
        done := done + c.events;
      }
      assert blocks[|blocks|..] == [] && done + [] == done;
      return Running;
    }

    /** The body of the block loop for an in-window block: the block visitors, then (when there
        are revision visitors and the block has revisions, transactionInfo and documents) the
        revisions. */
    method DispatchBlock(block: Block) returns (thrown: Option<Error>)
      modifies this
      ensures trace == old(trace) + BlockEvents(Cfg(), block).events
      ensures thrown == BlockEvents(Cfg(), block).thrown
      ensures currentBlockNum == old(currentBlockNum)
    {
      thrown := VisitBlock(block);
      if thrown.Some? {
        return;
      }
      if |revisionVisitors| == 0 {
        return;
      }
      if block.revisions.None? || block.transactionInfo.None? || block.transactionInfo.value.documents.None? {
        return;
      }
      thrown := VisitRevisions(block.sequenceNo, block.transactionInfo.value.documents.value, block.revisions.value);
    }

    /** Every block visitor's `visit(block)`, in list order. */
    method VisitBlock(block: Block) returns (thrown: Option<Error>)
      modifies this
      ensures trace == old(trace) + BlockVisits(blockVisitors, block).events
      ensures thrown == BlockVisits(blockVisitors, block).thrown
      ensures currentBlockNum == old(currentBlockNum)
    {
      for j := 0 to |blockVisitors|
        invariant trace == old(trace) + BlockVisitEvents(j, block)
        invariant forall k | 0 <= k < j :: !Throws(blockVisitors[k], VisitCall(block.sequenceNo))
        invariant currentBlockNum == old(currentBlockNum)
      {
        trace := trace + [Event.VisitBlock(j, block)];
        AppendAssoc(old(trace), BlockVisitEvents(j, block), [Event.VisitBlock(j, block)]);
        if block.sequenceNo in blockVisitors[j].visitThrowsOn {
          return Some(VisitorThrew(BlockVisitorKind, j));
        }
      }
      return None;
    }

    /** The revision loop of `processManifest` for one block. */
    method VisitRevisions(sequenceNo: int, documents: map<string, TableInfo>, revisions: seq<Revision>)
      returns (thrown: Option<Error>)
      modifies this
      ensures var c := DispatchRevisions(Cfg(), sequenceNo, documents, revisions);
        trace == old(trace) + c.events && thrown == c.thrown
      ensures currentBlockNum == old(currentBlockNum)
    {
      ghost var done: seq<Event> := [];
      for i := 0 to |revisions|
        invariant trace == old(trace) + done
        invariant currentBlockNum == old(currentBlockNum)
        invariant DispatchRevisions(Cfg(), sequenceNo, documents, revisions)
               == Prepend(done, DispatchRevisions(Cfg(), sequenceNo, documents, revisions[i..]))
      {
        ghost var one := RevisionEvents(Cfg(), sequenceNo, documents, revisions[i]);
        DispatchAdvance(Cfg(), sequenceNo, documents, revisions, i, done);
        var revisionThrown := VisitRevisionOf(sequenceNo, documents, revisions[i]);
        AppendAssoc(old(trace), done, one.events);
        if revisionThrown.Some? {
          return revisionThrown;
        }
        done := done + one.events;
      }
      assert revisions[|revisions|..] == [] && done + [] == done;
      return None;
    }

    /** The body of the revision loop: skip a revision without metadata, resolve its table, and
        hand it to every revision visitor. */
    method VisitRevisionOf(sequenceNo: int, documents: map<string, TableInfo>, revision: Revision)
      returns (thrown: Option<Error>)
      modifies this
      ensures var c := RevisionEvents(Cfg(), sequenceNo, documents, revision);
        trace == old(trace) + c.events && thrown == c.thrown
      ensures currentBlockNum == old(currentBlockNum)
    {
      if revision.metadata.None? {
        return None;
      }
      var documentId := revision.metadata.value.id;
      var tableName := Unknown;
      var tableId := Unknown;
      if documentId in documents {
        tableName := documents[documentId].tableName;
        tableId := documents[documentId].tableId;
      }
      assert TableInfo(tableId, tableName) == ResolveTable(documents, documentId);
      thrown := VisitRevision(sequenceNo, revision, TableInfo(tableId, tableName));
    }

    /** Every revision visitor's `visit(revision, tableId, tableName)`, in list order. */
    method VisitRevision(sequenceNo: int, revision: Revision, table: TableInfo) returns (thrown: Option<Error>)
      modifies this
      ensures trace == old(trace) + RevisionVisits(revisionVisitors, sequenceNo, revision, table).events
      ensures thrown == RevisionVisits(revisionVisitors, sequenceNo, revision, table).thrown
      ensures currentBlockNum == old(currentBlockNum)
    {
      for j := 0 to |revisionVisitors|
        invariant trace == old(trace) +
          RevisionVisitEvents(j, sequenceNo, revision, table)
        invariant forall k | 0 <= k < j :: !Throws(revisionVisitors[k], VisitCall(sequenceNo))
        invariant currentBlockNum == old(currentBlockNum)
      {
        trace := trace + [Event.VisitRevision(j, sequenceNo, revision, table.tableId, table.tableName)];
        AppendAssoc(old(trace), RevisionVisitEvents(j, sequenceNo, revision, table),
                    [Event.VisitRevision(j, sequenceNo, revision, table.tableId, table.tableName)]);
        if sequenceNo in revisionVisitors[j].visitThrowsOn {
          return Some(VisitorThrew(RevisionVisitorKind, j));
        }
      }
      return None;
    }

    /** `setup()`: revision visitors, then block visitors; an exception propagates at once. */
    method Setup() returns (thrown: Option<Error>)
      modifies this
      ensures trace == old(trace) + SetupCalls(Cfg()).events && thrown == SetupCalls(Cfg()).thrown
      ensures currentBlockNum == old(currentBlockNum)
    {
      thrown := SetupEach(revisionVisitors, RevisionVisitorKind);
      if thrown.Some? {
        return;
      }
      ghost var first := SetupEvents(revisionVisitors, RevisionVisitorKind).events;
      thrown := SetupEach(blockVisitors, BlockVisitorKind);
      AppendAssoc(old(trace), first, SetupEvents(blockVisitors, BlockVisitorKind).events);
    }

    /** The `setup()` loop over one visitor list. */
    method SetupEach(vs: seq<Visitor>, kind: VisitorKind) returns (thrown: Option<Error>)
      modifies this
      ensures trace == old(trace) + SetupEvents(vs, kind).events && thrown == SetupEvents(vs, kind).thrown
      ensures currentBlockNum == old(currentBlockNum)
    {
      for j := 0 to |vs|
        invariant trace == old(trace) + SetupCallEvents(j, kind)
        invariant forall k | 0 <= k < j :: !vs[k].setupThrows
        invariant currentBlockNum == old(currentBlockNum)
      {
        trace := trace + [Event.Setup(kind, j)];
        AppendAssoc(old(trace), SetupCallEvents(j, kind), [Event.Setup(kind, j)]);
        if vs[j].setupThrows {
          SetupStopsAt(vs, kind, j);
          return Some(VisitorThrew(kind, j));
        }
      }
      SetupRunsAll(vs, kind);
      return None;
    }

    /** `teardown()`: every visitor, each exception caught and logged on its own. */
    method Teardown()
      modifies this
      ensures trace == old(trace) + TeardownCalls(Cfg())
      ensures currentBlockNum == old(currentBlockNum)
    {
      TeardownEach(revisionVisitors, RevisionVisitorKind);
      ghost var first := TeardownEvents(revisionVisitors, RevisionVisitorKind);
      TeardownEach(blockVisitors, BlockVisitorKind);
      AppendAssoc(old(trace), first, TeardownEvents(blockVisitors, BlockVisitorKind));
    }

    /** The `teardown()` loop over one visitor list. */
    method TeardownEach(vs: seq<Visitor>, kind: VisitorKind)
      modifies this
      ensures trace == old(trace) + TeardownEvents(vs, kind)
      ensures currentBlockNum == old(currentBlockNum)
    {
      for j := 0 to |vs|
        invariant trace == old(trace) + TeardownEvents(vs[..j], kind)
        invariant currentBlockNum == old(currentBlockNum)
      {
        ghost var before := trace;
        trace := trace + [Event.Teardown(kind, j)];
        if vs[j].teardownThrows {
          trace := trace + [TeardownWarning(kind, j)];
        }
        assert trace == before + TeardownOne(vs[j], kind, j);
        TeardownAt(vs, kind, j);
        AppendAssoc(old(trace), TeardownEvents(vs[..j], kind), TeardownOne(vs[j], kind, j));
      }
      assert vs[..|vs|] == vs;
    }
  }

  // One step of each loop of ExportProcessor: given the loop invariant before the step, what the
  // whole walk is when the step ends the loop and what the invariant is after it otherwise.

  lemma AppendAssoc(a: seq<Event>, b: seq<Event>, c: seq<Event>)
    ensures (a + b) + c == a + (b + c)
  {
  }

  /** `setup()` stops at the first visitor that throws. */
  lemma SetupStopsAt(vs: seq<Visitor>, kind: VisitorKind, j: nat)
    requires j < |vs| && vs[j].setupThrows
    requires forall k | 0 <= k < j :: !vs[k].setupThrows
    ensures SetupEvents(vs, kind) == Calls(SetupCallEvents(j + 1, kind), Some(VisitorThrew(kind, j)))
  {
    var c := SetupEvents(vs, kind);
    assert c.thrown.Some?;
    var n := |c.events| - 1;
    assert Throws(vs[n], SetupCall);
    assert n == j;
  }

  /** `setup()` reaches every visitor when none throws. */
  lemma SetupRunsAll(vs: seq<Visitor>, kind: VisitorKind)
    requires forall k | 0 <= k < |vs| :: !vs[k].setupThrows
    ensures SetupEvents(vs, kind) == Calls(SetupCallEvents(|vs|, kind), None)
  {
  }

  lemma TeardownAt(vs: seq<Visitor>, kind: VisitorKind, j: nat)
    requires j < |vs|
    ensures TeardownEvents(vs[..j + 1], kind) == TeardownEvents(vs[..j], kind) + TeardownOne(vs[j], kind, j)
  {
    assert vs[..j + 1][..j] == vs[..j];
  }

  lemma BlocksAdvance(cfg: Config, blocks: seq<Block>, i: nat, start: int, current: int, done: seq<Event>)
    requires i < |blocks|
    requires WalkBlocks(cfg, blocks, start) == Then(done, WalkBlocks(cfg, blocks[i..], current))
    ensures var b := blocks[i];
      var c := BlockEvents(cfg, b);
      && (cfg.BeforeWindow(b.sequenceNo) ==>
            WalkBlocks(cfg, blocks, start) == Then(done, WalkBlocks(cfg, blocks[i + 1..], b.sequenceNo)))
      && (!cfg.BeforeWindow(b.sequenceNo) && cfg.AfterWindow(b.sequenceNo) ==>
            WalkBlocks(cfg, blocks, start) == Walk(done, b.sequenceNo, EndReached))
      && (cfg.InWindow(b.sequenceNo) && c.thrown.Some? ==>
            WalkBlocks(cfg, blocks, start) == Walk(done + c.events, b.sequenceNo, Failed(c.thrown.value)))
      && (cfg.InWindow(b.sequenceNo) && c.thrown.None? ==>
            WalkBlocks(cfg, blocks, start) == Then(done + c.events, WalkBlocks(cfg, blocks[i + 1..], b.sequenceNo)))
  {
    assert blocks[i..][0] == blocks[i] && blocks[i..][1..] == blocks[i + 1..];
    assert done + [] == done;
    ThenTwice(done, BlockEvents(cfg, blocks[i]).events, WalkBlocks(cfg, blocks[i + 1..], blocks[i].sequenceNo));
  }

  lemma FilesAdvance(cfg: Config, store: Store, keys: seq<string>, i: nat, start: int, current: int, done: seq<Event>)
    requires i < |keys|
    requires WalkFiles(cfg, store, keys, start) == Then(done, WalkFiles(cfg, store, keys[i..], current))
    ensures var key := keys[i];
      var all := WalkFiles(cfg, store, keys, start);
      match FileInRange(cfg, key)
      case Failure(e) => all == Walk(done, current, Failed(BadKey(e)))
      case Success(false) => all == Then(done, WalkFiles(cfg, store, keys[i + 1..], current))
      case Success(true) =>
        if key !in store.dataFiles then all == Walk(done + [FetchDataFile(key)], current, Failed(NoSuchKey(key)))
        else
          var w := WalkBlocks(cfg, store.dataFiles[key], current);
          if w.status.Running? then
            all == Then(done + [FetchDataFile(key)] + w.events, WalkFiles(cfg, store, keys[i + 1..], w.currentBlockNum))
          else all == Then(done + [FetchDataFile(key)], w)
  {
    assert keys[i..][0] == keys[i] && keys[i..][1..] == keys[i + 1..];
    assert done + [] == done;
    var key := keys[i];
    if FileInRange(cfg, key) == Success(true) && key in store.dataFiles {
      var w := WalkBlocks(cfg, store.dataFiles[key], current);
      ThenTwice(done, [FetchDataFile(key)], w);
      ThenTwice(done, [FetchDataFile(key)] + w.events, WalkFiles(cfg, store, keys[i + 1..], w.currentBlockNum));
      AppendAssoc(done, [FetchDataFile(key)], w.events);
    } else if FileInRange(cfg, key) == Success(true) {
      ThenTwice(done, [FetchDataFile(key)], Walk([], current, Failed(NoSuchKey(key))));
    }
  }

  lemma ManifestsAdvance(cfg: Config, store: Store, paths: seq<string>, i: nat, start: int, current: int,
                         done: seq<Event>)
    requires i < |paths|
    requires WalkManifests(cfg, store, paths, start) == Then(done, WalkManifests(cfg, store, paths[i..], current))
    ensures var w := WalkManifest(cfg, store, paths[i], current);
      && (w.status.Failed? ==> WalkManifests(cfg, store, paths, start) == Then(done, w))
      && (!w.status.Failed? ==>
            WalkManifests(cfg, store, paths, start) == Then(done + w.events, WalkManifests(cfg, store, paths[i + 1..], w.currentBlockNum)))
  {
    assert paths[i..][0] == paths[i] && paths[i..][1..] == paths[i + 1..];
    var w := WalkManifest(cfg, store, paths[i], current);
    ThenTwice(done, w.events, WalkManifests(cfg, store, paths[i + 1..], w.currentBlockNum));
  }

  lemma DispatchAdvance(cfg: Config, sequenceNo: int, documents: map<string, TableInfo>, revisions: seq<Revision>,
                        i: nat, done: seq<Event>)
    requires i < |revisions|
    requires DispatchRevisions(cfg, sequenceNo, documents, revisions)
          == Prepend(done, DispatchRevisions(cfg, sequenceNo, documents, revisions[i..]))
    ensures var one := RevisionEvents(cfg, sequenceNo, documents, revisions[i]);
      && (one.thrown.Some? ==> DispatchRevisions(cfg, sequenceNo, documents, revisions) == Prepend(done, one))
      && (one.thrown.None? ==>
            DispatchRevisions(cfg, sequenceNo, documents, revisions)
            == Prepend(done + one.events, DispatchRevisions(cfg, sequenceNo, documents, revisions[i + 1..])))
  {
    assert revisions[i..][0] == revisions[i] && revisions[i..][1..] == revisions[i + 1..];
    var one := RevisionEvents(cfg, sequenceNo, documents, revisions[i]);
    PrependTwice(done, one.events, DispatchRevisions(cfg, sequenceNo, documents, revisions[i + 1..]));
  }

  lemma PrependTwice(a: seq<Event>, b: seq<Event>, c: Calls)
    ensures Prepend(a, Prepend(b, c)) == Prepend(a + b, c)
  {
    assert a + (b + c.events) == (a + b) + c.events;
  }

  lemma ThenTwice(a: seq<Event>, b: seq<Event>, w: Walk)
    ensures Then(a, Then(b, w)) == Then(a + b, w)
  {
    assert a + (b + w.events) == (a + b) + w.events;
  }

  lemma JoinedNothing(rest: Preflight)
    ensures Joined([], [], rest) == rest
  {
    assert [] + rest.events == rest.events;
    if rest.result.Success? {
      assert [] + rest.result.value == rest.result.value;
    }
  }

  lemma JoinedTwice(a: seq<Event>, s: seq<ManifestStruct>, b: seq<Event>, t: seq<ManifestStruct>, rest: Preflight)
    ensures Joined(a, s, Joined(b, t, rest)) == Joined(a + b, s + t, rest)
  {
    AppendAssoc(a, b, rest.events);
    if rest.result.Success? {
      assert s + (t + rest.result.value) == (s + t) + rest.result.value;
    }
  }

  lemma PreflightAdvance(store: Store, paths: seq<string>, i: nat, strand: Option<string>, done: seq<Event>,
                         structs: seq<ManifestStruct>)
    requires i < |paths|
    requires PreflightFrom(store, paths, None) == Joined(done, structs, PreflightFrom(store, paths[i..], strand))
    ensures var path := paths[i];
      var name := BaseName(path);
      var all := PreflightFrom(store, paths, None);
      if !IsCompletedManifestName(name) then all == Preflight(done, Failure(InvalidManifestPath(path)))
      else if strand.Some? && strand.value != Strand(name) then all == Preflight(done, Failure(StrandMismatch))
      else if path !in store.manifests then all == Preflight(done + [FetchManifest(path)], Failure(NoSuchKey(path)))
      else
        match ManifestBlockRange(path, store.manifests[path])
        case Failure(e) => all == Preflight(done + [FetchManifest(path)], Failure(BadKey(e)))
        case Success(found) =>
          all == Joined(done + [FetchManifest(path)], structs + (if found.Some? then [found.value] else []),
                        PreflightFrom(store, paths[i + 1..], Some(Strand(name))))
  {
    var path := paths[i];
    var name := BaseName(path);
    assert paths[i..][0] == path && paths[i..][1..] == paths[i + 1..];
    var one := PreflightFrom(store, paths[i..], strand);
    PreflightStep(store, paths[i..], strand);
    if !IsCompletedManifestName(name) || (strand.Some? && strand.value != Strand(name)) {
      assert one.events == [] && done + [] == done;
    } else if path !in store.manifests {
    } else {
      var range := ManifestBlockRange(path, store.manifests[path]);
      if range.Success? {
        var rest := PreflightFrom(store, paths[i + 1..], Some(Strand(name)));
        var mine := if range.value.Some? then [range.value.value] else [];
        JoinedTwice(done, structs, [FetchManifest(path)], mine, rest);
      }
    }
  }
}
