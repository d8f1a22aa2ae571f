/**
 * What the export processor guarantees about a run: visitors only see blocks inside the window,
 * data files outside it are never fetched, every visitor is set up before and torn down after
 * everything else (once, on every exit path), bad input is rejected before any visitor runs, and
 * stitched manifests are processed in block order without gaps or overlaps.
 */
module ExportWalkProperties {
  import opened Wrappers
  import opened JavaStrings
  import opened Journal
  import opened ExportNames
  import opened ExportWalk
  import Sorting

  predicate IsVisit(e: Event) {
    e.VisitBlock? || e.VisitRevision?
  }

  function VisitedBlockNo(e: Event): int
    requires IsVisit(e)
  {
    if e.VisitBlock? then e.block.sequenceNo else e.sequenceNo
  }

  /** No visitor is handed a block outside the configured window. */
  predicate VisitsInWindow(cfg: Config, events: seq<Event>) {
    forall e <- events | IsVisit(e) :: cfg.InWindow(VisitedBlockNo(e))
  }

  /** The events a walk over manifests can produce. */
  predicate WalkEvent(cfg: Config, e: Event) {
    || e.FetchManifest?
    || (e.FetchDataFile? && FileInRange(cfg, e.key) == Success(true))
    || (IsVisit(e) && cfg.InWindow(VisitedBlockNo(e)))
  }

  // ---------------------------------------------------------------------------------------------
  // Dispatch within one block

  /** Each dispatched revision has metadata, comes from the block, and carries the table its
      document id resolves to (the unknown pair when `documents` lacks the id). */
  lemma {:induction false} DispatchRevisionsShape(cfg: Config, sequenceNo: int, documents: map<string, TableInfo>,
                                                   revisions: seq<Revision>)
    ensures forall e <- DispatchRevisions(cfg, sequenceNo, documents, revisions).events ::
      && e.VisitRevision?
      && e.sequenceNo == sequenceNo
      && e.index < |cfg.revisionVisitors|
      && e.revision in revisions
      && e.revision.metadata.Some?
      && e.tableId == ResolveTable(documents, e.revision.metadata.value.id).tableId
      && e.tableName == ResolveTable(documents, e.revision.metadata.value.id).tableName
  {
    if revisions != [] {
      DispatchRevisionsShape(cfg, sequenceNo, documents, revisions[1..]);
      assert forall r <- revisions[1..] :: r in revisions;
    }
  }

  /** When no revision visitor throws, every revision with metadata reaches every revision
      visitor: the events are, revision by revision in list order, one visit per visitor in
      registration order. */
  lemma {:induction false} DispatchRevisionsComplete(cfg: Config, sequenceNo: int, documents: map<string, TableInfo>,
                                                      revisions: seq<Revision>)
    requires forall j | 0 <= j < |cfg.revisionVisitors| :: !Throws(cfg.revisionVisitors[j], VisitCall(sequenceNo))
    ensures DispatchRevisions(cfg, sequenceNo, documents, revisions).thrown.None?
    ensures DispatchRevisions(cfg, sequenceNo, documents, revisions).events
         == EveryVisit(|cfg.revisionVisitors|, sequenceNo, documents, WithMetadata(revisions))
    ensures |DispatchRevisions(cfg, sequenceNo, documents, revisions).events|
         == |WithMetadata(revisions)| * |cfg.revisionVisitors|
  {
    var k := |cfg.revisionVisitors|;
    if revisions != [] {
      var rest := revisions[1..];
      DispatchRevisionsComplete(cfg, sequenceNo, documents, rest);
      if revisions[0].metadata.None? {
        assert WithMetadata(revisions) == WithMetadata(rest);
      } else {
        DispatchAccepted(cfg, sequenceNo, documents, revisions);
        EveryVisitOfFirst(k, sequenceNo, documents, revisions);
      }
    }
    EveryVisitLength(k, sequenceNo, documents, WithMetadata(revisions));
  }

  /** A first revision that every revision visitor accepts is followed by the rest of the block. */
  lemma DispatchAccepted(cfg: Config, sequenceNo: int, documents: map<string, TableInfo>, revisions: seq<Revision>)
    requires forall j | 0 <= j < |cfg.revisionVisitors| :: !Throws(cfg.revisionVisitors[j], VisitCall(sequenceNo))
    requires revisions != [] && revisions[0].metadata.Some?
    ensures DispatchRevisions(cfg, sequenceNo, documents, revisions)
         == Prepend(RevisionVisitEvents(|cfg.revisionVisitors|, sequenceNo, revisions[0],
                                        ResolveTable(documents, revisions[0].metadata.value.id)),
                    DispatchRevisions(cfg, sequenceNo, documents, revisions[1..]))
  {
    var table := ResolveTable(documents, revisions[0].metadata.value.id);
    var one := RevisionVisits(cfg.revisionVisitors, sequenceNo, revisions[0], table);
    assert one.thrown.None? && |one.events| == |cfg.revisionVisitors|;
    assert one.events == RevisionVisitEvents(|cfg.revisionVisitors|, sequenceNo, revisions[0], table);
  }

  /** The reference sequence of a block whose first revision has metadata starts with its visits. */
  lemma EveryVisitOfFirst(k: nat, sequenceNo: int, documents: map<string, TableInfo>, revisions: seq<Revision>)
    requires revisions != [] && revisions[0].metadata.Some?
    ensures EveryVisit(k, sequenceNo, documents, WithMetadata(revisions))
         == RevisionVisitEvents(k, sequenceNo, revisions[0], ResolveTable(documents, revisions[0].metadata.value.id))
            + EveryVisit(k, sequenceNo, documents, WithMetadata(revisions[1..]))
  {
    var kept := WithMetadata(revisions);
    assert kept == [revisions[0]] + WithMetadata(revisions[1..]);
    assert kept[0] == revisions[0] && kept[1..] == WithMetadata(revisions[1..]);
  }

  /** The visit of revision `i` (counting only those with metadata) by revision visitor `j` is
      event `i * k + j` of a block whose `k` revision visitors all accept it. */
  lemma DispatchRevisionsEveryPair(cfg: Config, sequenceNo: int, documents: map<string, TableInfo>,
                                   revisions: seq<Revision>, i: nat, j: nat)
    requires forall j | 0 <= j < |cfg.revisionVisitors| :: !Throws(cfg.revisionVisitors[j], VisitCall(sequenceNo))
    requires i < |WithMetadata(revisions)| && j < |cfg.revisionVisitors|
    ensures var events := DispatchRevisions(cfg, sequenceNo, documents, revisions).events;
      var r := WithMetadata(revisions)[i];
      var table := ResolveTable(documents, r.metadata.value.id);
      && i * |cfg.revisionVisitors| + j < |events|
      && events[i * |cfg.revisionVisitors| + j] == VisitRevision(j, sequenceNo, r, table.tableId, table.tableName)
  {
    DispatchRevisionsComplete(cfg, sequenceNo, documents, revisions);
    EveryVisitAt(|cfg.revisionVisitors|, sequenceNo, documents, WithMetadata(revisions), i, j);
  }

  /** Revision visitors 0 .. k-1 handed each revision of `rs` in turn, with its resolved table. */
  function EveryVisit(k: nat, sequenceNo: int, documents: map<string, TableInfo>, rs: seq<Revision>): seq<Event>
    requires forall r <- rs :: r.metadata.Some?
  {
    if rs == [] then []
    else
      RevisionVisitEvents(k, sequenceNo, rs[0], ResolveTable(documents, rs[0].metadata.value.id))
        + EveryVisit(k, sequenceNo, documents, rs[1..])
  }

  /** Event `i * k + j` of `EveryVisit` is revision `i` handed to visitor `j`. */
  lemma EveryVisitAt(k: nat, sequenceNo: int, documents: map<string, TableInfo>,
                     rs: seq<Revision>, i: nat, j: nat)
    requires forall r <- rs :: r.metadata.Some?
    requires i < |rs| && j < k
    ensures var events := EveryVisit(k, sequenceNo, documents, rs);
      var table := ResolveTable(documents, rs[i].metadata.value.id);
      && i * k + j < |events|
      && events[i * k + j] == VisitRevision(j, sequenceNo, rs[i], table.tableId, table.tableName)
  {
    var events := EveryVisit(k, sequenceNo, documents, rs);
    var table := ResolveTable(documents, rs[i].metadata.value.id);
    var before := EveryVisit(k, sequenceNo, documents, rs[..i]);
    var here := RevisionVisitEvents(k, sequenceNo, rs[i], table);
    var after := EveryVisit(k, sequenceNo, documents, rs[i + 1..]);
    EveryVisitSplit(k, sequenceNo, documents, rs, i);
    IndexAcross(events, before, here, after, j);
    assert here[j] == VisitRevision(j, sequenceNo, rs[i], table.tableId, table.tableName);
  }

  /** `EveryVisit` around one revision: the visits of those before it, its own, then the rest. */
  lemma EveryVisitSplit(k: nat, sequenceNo: int, documents: map<string, TableInfo>, rs: seq<Revision>, i: nat)
    requires forall r <- rs :: r.metadata.Some?
    requires i < |rs|
    ensures EveryVisit(k, sequenceNo, documents, rs)
         == EveryVisit(k, sequenceNo, documents, rs[..i])
            + (RevisionVisitEvents(k, sequenceNo, rs[i], ResolveTable(documents, rs[i].metadata.value.id))
               + EveryVisit(k, sequenceNo, documents, rs[i + 1..]))
    ensures |EveryVisit(k, sequenceNo, documents, rs[..i])| == i * k
  {
    EveryVisitLength(k, sequenceNo, documents, rs[..i]);
    var after := rs[i + 1..];
    assert rs == rs[..i] + ([rs[i]] + after);
    EveryVisitAppend(k, sequenceNo, documents, rs[..i], [rs[i]] + after);
    assert ([rs[i]] + after)[0] == rs[i] && ([rs[i]] + after)[1..] == after;
  }

  lemma {:induction false} EveryVisitAppend(k: nat, sequenceNo: int, documents: map<string, TableInfo>,
                                            a: seq<Revision>, b: seq<Revision>)
    requires forall r <- a :: r.metadata.Some?
    requires forall r <- b :: r.metadata.Some?
    ensures forall r <- a + b :: r.metadata.Some?
    ensures EveryVisit(k, sequenceNo, documents, a + b)
         == EveryVisit(k, sequenceNo, documents, a) + EveryVisit(k, sequenceNo, documents, b)
  {
    if a == [] {
      assert a + b == b;
    } else {
      var head := RevisionVisitEvents(k, sequenceNo, a[0], ResolveTable(documents, a[0].metadata.value.id));
      var rest := EveryVisit(k, sequenceNo, documents, a[1..] + b);
      assert (a + b)[0] == a[0] && (a + b)[1..] == a[1..] + b;
      assert EveryVisit(k, sequenceNo, documents, a + b) == head + rest;
      EveryVisitAppend(k, sequenceNo, documents, a[1..], b);
      AppendAssoc(head, EveryVisit(k, sequenceNo, documents, a[1..]), EveryVisit(k, sequenceNo, documents, b));
    }
  }

  lemma AppendAssoc<T>(a: seq<T>, b: seq<T>, c: seq<T>)
    ensures a + (b + c) == (a + b) + c
  {
  }

  lemma IndexAcross<T>(s: seq<T>, a: seq<T>, b: seq<T>, c: seq<T>, m: nat)
    requires s == a + (b + c) && m < |b|
    ensures |a| + m < |s| && s[|a| + m] == b[m]
  {
  }

  lemma {:induction false} EveryVisitLength(k: nat, sequenceNo: int, documents: map<string, TableInfo>, rs: seq<Revision>)
    requires forall r <- rs :: r.metadata.Some?
    ensures |EveryVisit(k, sequenceNo, documents, rs)| == |rs| * k
  {
    if rs != [] {
      EveryVisitLength(k, sequenceNo, documents, rs[1..]);
      MulSucc(|rs| - 1, k);
    }
  }

  lemma MulSucc(m: int, k: int)
    ensures (m + 1) * k == k + m * k
  {
  }

  /** The revisions that are dispatched. */
  function WithMetadata(revisions: seq<Revision>): (r: seq<Revision>)
    ensures forall x <- r :: x in revisions && x.metadata.Some?
  {
    if revisions == [] then []
    else (if revisions[0].metadata.Some? then [revisions[0]] else []) + WithMetadata(revisions[1..])
  }

  /** Every event of a block is a visit of that block: block visitors first, in registration
      order, then its revisions, and revisions only under the dispatch condition. */
  lemma BlockEventsShape(cfg: Config, b: Block)
    ensures var c := BlockEvents(cfg, b);
      && (forall j | 0 <= j < |c.events| && j < |cfg.blockVisitors| :: c.events[j] == VisitBlock(j, b))
      && (forall e <- c.events :: (e.VisitBlock? && e.block == b) || (e.VisitRevision? && e.sequenceNo == b.sequenceNo))
      && (forall e <- c.events :: e.VisitRevision? ==> DispatchesRevisions(cfg, b))
  {
    var visits := BlockVisits(cfg.blockVisitors, b);
    if visits.thrown.None? && DispatchesRevisions(cfg, b) {
      DispatchRevisionsShape(cfg, b.sequenceNo, b.transactionInfo.value.documents.value, b.revisions.value);
    }
  }

  // ---------------------------------------------------------------------------------------------
  // The window and the file filter

  lemma {:induction false} WalkBlocksShape(cfg: Config, blocks: seq<Block>, current: int)
    ensures forall e <- WalkBlocks(cfg, blocks, current).events :: IsVisit(e) && cfg.InWindow(VisitedBlockNo(e))
  {
    if blocks != [] {
      var b := blocks[0];
      if !cfg.BeforeWindow(b.sequenceNo) && !cfg.AfterWindow(b.sequenceNo) {
        BlockEventsShape(cfg, b);
      }
      WalkBlocksShape(cfg, blocks[1..], b.sequenceNo);
    }
  }

  lemma {:induction false} WalkFilesShape(cfg: Config, store: Store, keys: seq<string>, current: int)
    ensures forall e <- WalkFiles(cfg, store, keys, current).events :: WalkEvent(cfg, e) && !e.FetchManifest?
  {
    if keys != [] {
      var key := keys[0];
      if FileInRange(cfg, key) == Success(true) && key in store.dataFiles {
        var w := WalkBlocks(cfg, store.dataFiles[key], current);
        WalkBlocksShape(cfg, store.dataFiles[key], current);
        WalkFilesShape(cfg, store, keys[1..], w.currentBlockNum);
      } else if FileInRange(cfg, key) == Success(false) {
        WalkFilesShape(cfg, store, keys[1..], current);
      }
    }
  }

  lemma {:induction false} WalkManifestsShape(cfg: Config, store: Store, paths: seq<string>, current: int)
    ensures forall e <- WalkManifests(cfg, store, paths, current).events :: WalkEvent(cfg, e)
  {
    if paths != [] {
      var p := StripLeadingSlash(paths[0]);
      if p in store.manifests {
        WalkFilesShape(cfg, store, store.manifests[p], current);
      }
      var w := WalkManifest(cfg, store, paths[0], current);
      WalkManifestsShape(cfg, store, paths[1..], w.currentBlockNum);
    }
  }
  /** A file's walk that has stopped (past the window's end, or on an exception) reads none of the
      blocks after the one it stopped at. */
  lemma {:induction false} WalkBlocksStops(cfg: Config, blocks: seq<Block>, more: seq<Block>, current: int)
    requires !WalkBlocks(cfg, blocks, current).status.Running?
    ensures WalkBlocks(cfg, blocks + more, current) == WalkBlocks(cfg, blocks, current)
  {
    var b := blocks[0];
    assert (blocks + more)[0] == b;
    assert (blocks + more)[1..] == blocks[1..] + more;
    if cfg.BeforeWindow(b.sequenceNo) {
      WalkBlocksStops(cfg, blocks[1..], more, b.sequenceNo);
    } else if !cfg.AfterWindow(b.sequenceNo) && BlockEvents(cfg, b).thrown.None? {
      WalkBlocksStops(cfg, blocks[1..], more, b.sequenceNo);
    }
  }

  /** The first block past the window's end stops the file's walk, after the visits of the blocks
      before it, and becomes the current block number (unless it is also before the window's
      start, when the start bound exceeds the end bound: then it is skipped). */
  lemma {:induction false} WalkBlocksReachesEnd(cfg: Config, blocks: seq<Block>, b: Block, current: int)
    requires WalkBlocks(cfg, blocks, current).status.Running?
    requires cfg.AfterWindow(b.sequenceNo) && !cfg.BeforeWindow(b.sequenceNo)
    ensures var w := WalkBlocks(cfg, blocks + [b], current);
      && w.status == EndReached
      && w.events == WalkBlocks(cfg, blocks, current).events
      && w.currentBlockNum == b.sequenceNo
  {
    if blocks == [] {
      assert blocks + [b] == [b];
    } else {
      var first := blocks[0];
      assert (blocks + [b])[0] == first;
      assert (blocks + [b])[1..] == blocks[1..] + [b];
      WalkBlocksReachesEnd(cfg, blocks[1..], b, first.sequenceNo);
    }
  }

  /** A manifest's walk that has stopped fetches none of the data files after the one it stopped
      in: passing the window's end leaves the rest of the manifest unread. */
  lemma {:induction false} WalkFilesStops(cfg: Config, store: Store, keys: seq<string>, more: seq<string>, current: int)
    requires !WalkFiles(cfg, store, keys, current).status.Running?
    ensures WalkFiles(cfg, store, keys + more, current) == WalkFiles(cfg, store, keys, current)
  {
    var key := keys[0];
    assert (keys + more)[0] == key;
    assert (keys + more)[1..] == keys[1..] + more;
    if FileInRange(cfg, key) == Success(false) {
      WalkFilesStops(cfg, store, keys[1..], more, current);
    } else if FileInRange(cfg, key) == Success(true) && key in store.dataFiles {
      var w := WalkBlocks(cfg, store.dataFiles[key], current);
      if w.status.Running? {
        WalkFilesStops(cfg, store, keys[1..], more, w.currentBlockNum);
      }
    }
  }

  /** Passing the window's end ends only the current manifest: the walk goes on with the next. */
  lemma EndReachedContinues(cfg: Config, store: Store, path: string, rest: seq<string>, current: int)
    requires StripLeadingSlash(path) in store.manifests
    requires WalkFiles(cfg, store, store.manifests[StripLeadingSlash(path)], current).status.EndReached?
    ensures var w := WalkManifest(cfg, store, path, current);
      WalkManifests(cfg, store, [path] + rest, current)
        == Then(w.events, WalkManifests(cfg, store, rest, w.currentBlockNum))
  {
    assert ([path] + rest)[1..] == rest;
  }


  /** Every visitor's `setup()`, revision visitors first. */
  function AllSetups(cfg: Config): (s: seq<Event>)
    ensures forall e <- s :: e.Setup?
  {
    SetupCallEvents(|cfg.revisionVisitors|, RevisionVisitorKind) + SetupCallEvents(|cfg.blockVisitors|, BlockVisitorKind)
  }

  /** `SetupCalls` sets up revision visitors 0.., then block visitors 0.., all of them unless one
      throws, and the exception names the last visitor called. */
  lemma SetupCallsOrder(cfg: Config)
    ensures SetupCalls(cfg).events <= AllSetups(cfg)
    ensures SetupCalls(cfg).thrown.None? ==> SetupCalls(cfg).events == AllSetups(cfg)
    ensures SetupCalls(cfg).thrown.Some? ==>
      var s := SetupCalls(cfg).events;
      |s| > 0 && SetupCalls(cfg).thrown.value == VisitorThrew(s[|s| - 1].kind, s[|s| - 1].index)
  {
    var r := SetupEvents(cfg.revisionVisitors, RevisionVisitorKind);
    var revisions := SetupCallEvents(|cfg.revisionVisitors|, RevisionVisitorKind);
    var blocks := SetupCallEvents(|cfg.blockVisitors|, BlockVisitorKind);
    SetupEventsPrefix(cfg.revisionVisitors, RevisionVisitorKind);
    if r.thrown.None? {
      var b := SetupEvents(cfg.blockVisitors, BlockVisitorKind);
      SetupEventsPrefix(cfg.blockVisitors, BlockVisitorKind);
      PrefixAfter(r.events, b.events, blocks);
      assert SetupCalls(cfg).events == r.events + b.events;
      if b.thrown.Some? {
        var s := r.events + b.events;
        assert s[|s| - 1] == b.events[|b.events| - 1];
      }
    } else {
      PrefixBefore(r.events, revisions, blocks);
    }
  }

  /** The setups of one list are those of its first visitors, all of them when none throws. */
  lemma SetupEventsPrefix(vs: seq<Visitor>, kind: VisitorKind)
    ensures SetupEvents(vs, kind).events <= SetupCallEvents(|vs|, kind)
  {
    var c := SetupEvents(vs, kind);
    var full := SetupCallEvents(|vs|, kind);
    assert c.events == full[..|c.events|];
  }

  lemma PrefixAfter(a: seq<Event>, b: seq<Event>, c: seq<Event>)
    requires b <= c
    ensures a + b <= a + c
  {
    assert a + b == (a + c)[..|a| + |b|];
  }

  lemma PrefixBefore(a: seq<Event>, b: seq<Event>, c: seq<Event>)
    requires a <= b
    ensures a <= b + c
  {
    assert a == (b + c)[..|a|];
  }

  lemma SetupCallsShape(cfg: Config)
    ensures forall e <- SetupCalls(cfg).events :: e.Setup?
  {
    SetupCallsOrder(cfg);
    assert forall e <- SetupCalls(cfg).events :: e in AllSetups(cfg);
  }

  function VisitorsOf(cfg: Config, kind: VisitorKind): seq<Visitor> {
    if kind == RevisionVisitorKind then cfg.revisionVisitors else cfg.blockVisitors
  }

  /** Teardown only tears down (or logs a warning for) the visitors of the list. */
  lemma {:induction false} TeardownEventsShape(vs: seq<Visitor>, kind: VisitorKind)
    ensures forall e <- TeardownEvents(vs, kind) :: (e.Teardown? || e.TeardownWarning?) && e.kind == kind && e.index < |vs|
  {
    if vs != [] {
      TeardownEventsShape(vs[..|vs| - 1], kind);
    }
  }

  /** Each visitor of the list is torn down exactly once, whether or not earlier ones threw. */
  lemma {:induction false} TeardownEventsCount(vs: seq<Visitor>, kind: VisitorKind, other: VisitorKind, i: nat)
    ensures multiset(TeardownEvents(vs, kind))[Teardown(other, i)] == if other == kind && i < |vs| then 1 else 0
  {
    if vs != [] {
      var n := |vs| - 1;
      TeardownEventsCount(vs[..n], kind, other, i);
      var one := TeardownOne(vs[n], kind, n);
      assert TeardownEvents(vs, kind) == TeardownEvents(vs[..n], kind) + one;
      assert multiset(one)[Teardown(other, i)] == if other == kind && i == n then 1 else 0;
    }
  }

  lemma TeardownCallsShape(cfg: Config)
    ensures forall e <- TeardownCalls(cfg) :: e.Teardown? || e.TeardownWarning?
  {
    TeardownEventsShape(cfg.revisionVisitors, RevisionVisitorKind);
    TeardownEventsShape(cfg.blockVisitors, BlockVisitorKind);
  }

  lemma RunWalkShape(cfg: Config, store: Store, paths: seq<string>, current: int)
    ensures forall e <- RunWalk(cfg, store, paths, current).events :: WalkEvent(cfg, e)
  {
    if SetupCalls(cfg).thrown.None? {
      WalkManifestsShape(cfg, store, paths, current);
    }
  }

  /** A run consists of setup calls, fetches and in-window visits, and teardowns; its exception,
      if any, is always the wrapped one. */
  lemma RunManifestsShape(cfg: Config, store: Store, paths: seq<string>, current: int)
    ensures forall e <- RunManifests(cfg, store, paths, current).events ::
      e.Setup? || e.Teardown? || e.TeardownWarning? || WalkEvent(cfg, e)
    ensures VisitsInWindow(cfg, RunManifests(cfg, store, paths, current).events)
    ensures RunManifests(cfg, store, paths, current).thrown.None? || RunManifests(cfg, store, paths, current).thrown.value.ProcessingFailed?
  {
    SetupCallsShape(cfg);
    RunWalkShape(cfg, store, paths, current);
    TeardownCallsShape(cfg);
  }

  /** When a visitor's setup throws, nothing is fetched or visited, every visitor is still torn
      down, and the exception is rethrown as a failure before the first block (or at the block
      last read by an earlier run). */
  lemma SetupFailureSkipsWalk(cfg: Config, store: Store, paths: seq<string>, current: int)
    requires SetupCalls(cfg).thrown.Some?
    ensures RunManifests(cfg, store, paths, current).events == SetupCalls(cfg).events + TeardownCalls(cfg)
    ensures RunManifests(cfg, store, paths, current).thrown == Some(Wrap(current, SetupCalls(cfg).thrown.value))
  {
  }

  /** On every exit path of a run, each registered visitor is torn down exactly once. */
  lemma TeardownExactlyOnce(cfg: Config, store: Store, paths: seq<string>, current: int, kind: VisitorKind, i: nat)
    ensures multiset(RunManifests(cfg, store, paths, current).events)[Teardown(kind, i)] ==
      if i < |VisitorsOf(cfg, kind)| then 1 else 0
  {
    var head := SetupCalls(cfg).events + RunWalk(cfg, store, paths, current).events;
    NoTeardownBeforeTeardown(cfg, store, paths, current, kind, i);
    TeardownCallsCount(cfg, kind, i);
    assert RunManifests(cfg, store, paths, current).events == head + TeardownCalls(cfg);
  }

  lemma NoTeardownBeforeTeardown(cfg: Config, store: Store, paths: seq<string>, current: int, kind: VisitorKind, i: nat)
    ensures Teardown(kind, i) !in SetupCalls(cfg).events + RunWalk(cfg, store, paths, current).events
  {
    SetupCallsShape(cfg);
    RunWalkShape(cfg, store, paths, current);
  }

  lemma TeardownCallsCount(cfg: Config, kind: VisitorKind, i: nat)
    ensures multiset(TeardownCalls(cfg))[Teardown(kind, i)] == if i < |VisitorsOf(cfg, kind)| then 1 else 0
  {
    TeardownEventsCount(cfg.revisionVisitors, RevisionVisitorKind, kind, i);
    TeardownEventsCount(cfg.blockVisitors, BlockVisitorKind, kind, i);
  }

  // ---------------------------------------------------------------------------------------------
  // Whole runs

  /** `processExport` rejects its arguments exactly when it makes no call at all. */
  lemma ProcessExportRejects(cfg: Config, store: Store, bucket: Option<string>, manifestPath: Option<string>, current: int)
    ensures var r := ProcessExportRun(cfg, store, bucket, manifestPath, current);
      r.events == [] <==> (bucket.None? || manifestPath.None? || !EndsWith(manifestPath.value, ".completed.manifest"))
    ensures var r := ProcessExportRun(cfg, store, bucket, manifestPath, current);
      r.events == [] ==> r.thrown.Some? && !r.thrown.value.ProcessingFailed? && r.currentBlockNum == current
  {
    if bucket.Some? && manifestPath.Some? && EndsWith(manifestPath.value, ".completed.manifest") {
      var s := SetupCalls(cfg);
      if s.thrown.None? {
        assert WalkManifests(cfg, store, [manifestPath.value], current).events[0].FetchManifest?;
      }
    }
  }

  /** No visitor of a single-manifest run is handed a block outside the window. */
  lemma ProcessExportInWindow(cfg: Config, store: Store, bucket: Option<string>, manifestPath: Option<string>, current: int)
    ensures VisitsInWindow(cfg, ProcessExportRun(cfg, store, bucket, manifestPath, current).events)
  {
    if bucket.Some? && manifestPath.Some? && EndsWith(manifestPath.value, ".completed.manifest") {
      RunManifestsShape(cfg, store, [manifestPath.value], current);
    }
  }

  /** One step of the pre-flight reads at most the first path's manifest before going on with the
      rest, and it goes on only past a completed manifest name. */
  lemma PreflightStepEvents(store: Store, paths: seq<string>, strand: Option<string>)
    requires paths != []
    ensures var name := BaseName(paths[0]);
      var pre := PreflightFrom(store, paths, strand);
      || pre.events == []
      || pre.events == [FetchManifest(paths[0])]
      || (&& IsCompletedManifestName(name)
          && pre.events == [FetchManifest(paths[0])] + PreflightFrom(store, paths[1..], Some(Strand(name))).events)
  {
    PreflightStep(store, paths, strand);
  }

  /** A successful step of the pre-flight passed a completed manifest name of the expected strand,
      and went on successfully with the rest, adding at most the first path's manifest. */
  lemma PreflightStepSuccess(store: Store, paths: seq<string>, strand: Option<string>)
    requires paths != []
    requires PreflightFrom(store, paths, strand).result.Success?
    ensures var name := BaseName(paths[0]);
      && IsCompletedManifestName(name)
      && (strand.Some? ==> strand.value == Strand(name))
      && var rest := PreflightFrom(store, paths[1..], Some(Strand(name)));
      && rest.result.Success?
      && forall m <- PreflightFrom(store, paths, strand).result.value :: m.path == paths[0] || m in rest.result.value
  {
    var path := paths[0];
    var name := BaseName(path);
    PreflightStep(store, paths, strand);
    assert IsCompletedManifestName(name) && !(strand.Some? && strand.value != Strand(name)) && path in store.manifests;
    var range := ManifestBlockRange(path, store.manifests[path]);
    assert range.Success?;
    assert range.value.Some? ==> range.value.value.path == path;
  }

  /** The pre-flight only reads manifests, of the given paths. */
  lemma {:induction false} PreflightEvents(store: Store, paths: seq<string>, strand: Option<string>)
    ensures forall e <- PreflightFrom(store, paths, strand).events :: e.FetchManifest? && e.path in paths
  {
    if paths != [] {
      var name := BaseName(paths[0]);
      PreflightStepEvents(store, paths, strand);
      FetchFirstThen(paths, []);
      if IsCompletedManifestName(name) {
        var rest := PreflightFrom(store, paths[1..], Some(Strand(name))).events;
        PreflightEvents(store, paths[1..], Some(Strand(name)));
        FetchFirstThen(paths, rest);
      }
    }
  }

  lemma FetchFirstThen(paths: seq<string>, rest: seq<Event>)
    requires paths != []
    requires forall e <- rest :: e.FetchManifest? && e.path in paths[1..]
    ensures forall e <- [FetchManifest(paths[0])] + rest :: e.FetchManifest? && e.path in paths
  {
    assert forall p <- paths[1..] :: p in paths;
  }

  /** The pre-flight succeeds only when every path names a completed manifest, all of one strand. */
  lemma {:induction false} PreflightNames(store: Store, paths: seq<string>, strand: Option<string>)
    requires PreflightFrom(store, paths, strand).result.Success?
    ensures forall i | 0 <= i < |paths| ::
      && IsCompletedManifestName(BaseName(paths[i]))
      && (strand.Some? ==> Strand(BaseName(paths[i])) == strand.value)
      && Strand(BaseName(paths[i])) == Strand(BaseName(paths[0]))
  {
    if paths != [] {
      var name := BaseName(paths[0]);
      var rest := paths[1..];
      PreflightStepSuccess(store, paths, strand);
      PreflightNames(store, rest, Some(Strand(name)));
      forall i | 0 < i < |paths|
        ensures IsCompletedManifestName(BaseName(paths[i])) && Strand(BaseName(paths[i])) == Strand(name)
      {
        assert paths[i] == rest[i - 1];
      }
    }
  }

  /** The pre-flight's manifests come from the given paths. */
  lemma {:induction false} PreflightPaths(store: Store, paths: seq<string>, strand: Option<string>)
    requires PreflightFrom(store, paths, strand).result.Success?
    ensures forall m <- PreflightFrom(store, paths, strand).result.value :: m.path in paths
  {
    if paths != [] {
      var name := BaseName(paths[0]);
      PreflightStepSuccess(store, paths, strand);
      PreflightPaths(store, paths[1..], Some(Strand(name)));
      assert forall p <- paths[1..] :: p in paths;
    }
  }

  /** `processExports` either rejects its input having only read manifests (no setup, no data
      file, no visit, no teardown), or performs a run, whose failures are all wrapped. */
  lemma ProcessExportsRejectsBeforeSetup(cfg: Config, store: Store, bucket: Option<string>,
                                          manifestPaths: Option<seq<string>>, current: int)
    ensures var r := ProcessExportsRun(cfg, store, bucket, manifestPaths, current);
      r.thrown.Some? && !r.thrown.value.ProcessingFailed? ==>
        (forall e <- r.events :: e.FetchManifest?) && r.currentBlockNum == current
  {
    if bucket.Some? && manifestPaths.Some? && |manifestPaths.value| > 0 {
      var pre := PreflightFrom(store, manifestPaths.value, None);
      PreflightEvents(store, manifestPaths.value, None);
      if pre.result.Success? {
        var sorted := Sorting.SortBy(pre.result.value, FirstBlockLess);
        if Contiguous(sorted) {
          RunManifestsShape(cfg, store, Paths(sorted), current);
        }
      }
    }
  }

  /** No visitor of a multi-manifest run is handed a block outside the window. */
  lemma ProcessExportsInWindow(cfg: Config, store: Store, bucket: Option<string>,
                                manifestPaths: Option<seq<string>>, current: int)
    ensures VisitsInWindow(cfg, ProcessExportsRun(cfg, store, bucket, manifestPaths, current).events)
  {
    if bucket.Some? && manifestPaths.Some? && |manifestPaths.value| > 0 {
      var pre := PreflightFrom(store, manifestPaths.value, None);
      PreflightEvents(store, manifestPaths.value, None);
      if pre.result.Success? {
        var sorted := Sorting.SortBy(pre.result.value, FirstBlockLess);
        if Contiguous(sorted) {
          RunManifestsShape(cfg, store, Paths(sorted), current);
        }
      }
    }
  }

  /** With a bound configured, a data file is fetched only if its key has the ranged form and its
      range meets the window. */
  lemma FetchedFilesInRange(cfg: Config, store: Store, paths: seq<string>, current: int, key: string)
    requires cfg.Bounded()
    requires FetchDataFile(key) in RunManifests(cfg, store, paths, current).events
    ensures IsRangedKey(key)
    ensures BlocksInRange(cfg.startBlock, cfg.endBlock, key) == Success(true)
  {
    RunManifestsShape(cfg, store, paths, current);
  }

  /** A data file whose name puts all its blocks outside the window is never fetched. */
  lemma FileOutsideWindowNotFetched(cfg: Config, store: Store, paths: seq<string>, current: int,
                                    prefix: string, first: nat, last: nat, suffix: string)
    requires NoLineTerminator(prefix) && AllAlphanumeric(suffix) && suffix != ""
    requires (cfg.endBlock > -1 && first > cfg.endBlock) || (cfg.startBlock > -1 && last < cfg.startBlock)
    ensures FetchDataFile(DataFileKey(prefix, first, last, suffix)) !in RunManifests(cfg, store, paths, current).events
  {
    var key := DataFileKey(prefix, first, last, suffix);
    BlocksInRangeOfDataFileKey(cfg.startBlock, cfg.endBlock, prefix, first, last, suffix);
    if FetchDataFile(key) in RunManifests(cfg, store, paths, current).events {
      FetchedFilesInRange(cfg, store, paths, current, key);
    }
  }

  // ---------------------------------------------------------------------------------------------
  // Manifest stitching

  lemma FirstBlockLessIsStrict()
    ensures Sorting.StrictOrder(FirstBlockLess)
  {
  }

  /** The stitched manifests are the pre-flight's, ordered by first block. */
  lemma StitchedInBlockOrder(found: seq<ManifestStruct>)
    ensures var sorted := Sorting.SortBy(found, FirstBlockLess);
      && multiset(sorted) == multiset(found)
      && forall i, j | 0 <= i < j < |sorted| :: sorted[i].firstBlock <= sorted[j].firstBlock
  {
    FirstBlockLessIsStrict();
    Sorting.SortBySorted(found, FirstBlockLess);
  }

  /** Contiguous manifests with non-empty ranges do not overlap. */
  lemma {:induction false} ContiguousDisjoint(ms: seq<ManifestStruct>, i: nat, j: nat)
    requires Contiguous(ms)
    requires forall k | 0 <= k < |ms| :: ms[k].firstBlock <= ms[k].lastBlock
    requires i < j < |ms|
    ensures ms[i].lastBlock < ms[j].firstBlock
    decreases j - i
  {
    if j > i + 1 {
      ContiguousDisjoint(ms, i, j - 1);
    }
  }

  /** Contiguous manifests leave no gap: every block from the first manifest's first block to the
      last manifest's last block lies in some manifest's range. */
  lemma {:induction false} ContiguousGapless(ms: seq<ManifestStruct>, n: int)
    requires Contiguous(ms)
    requires |ms| > 0 && ms[0].firstBlock <= n <= ms[|ms| - 1].lastBlock
    ensures exists k | 0 <= k < |ms| :: ms[k].firstBlock <= n <= ms[k].lastBlock
  {
    var last := |ms| - 1;
    if last > 0 {
      if n <= ms[last - 1].lastBlock {
        var prefix := ms[..last];
        assert Contiguous(prefix);
        ContiguousGapless(prefix, n);
        var k :| 0 <= k < |prefix| && prefix[k].firstBlock <= n <= prefix[k].lastBlock;
        assert ms[k] == prefix[k];
      } else {
        assert ms[last].firstBlock <= n <= ms[last].lastBlock;
      }
    } else {
      assert ms[0].firstBlock <= n <= ms[0].lastBlock;
    }
  }
}
