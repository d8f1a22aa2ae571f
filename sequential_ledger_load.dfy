/**
 * Loading an export into a ledger one block at a time (`SequentialLedgerLoadBlockVisitor`). A
 * block that carries `transactionInfo.documents` and `revisions` becomes exactly one
 * `writeEvents` call: one load event per revision that has `metadata`, in the order of the
 * block's revision list, each tagged with the name of its document's table (null when the
 * document is not listed). Other blocks are skipped.
 */
module SequentialLedgerLoading {
  import opened Wrappers
  import opened Journal

  /** `LoadEvent.fromCommittedRevision(revision, tableName)`. `LoadEvent` is not part of this
      model, so an event is the two values it is built from; a null table name is None. */
  datatype LoadEvent = LoadEvent(revision: Revision, tableName: Option<string>)

  /** The exception the constructor throws. */
  datatype ConstructionError = IllegalArgument(message: string)

  /** `RevisionWriter` is not part of this model: here it records each `writeEvents` call. */
  class RevisionWriter {
    var written: seq<seq<LoadEvent>>

    constructor ()
      ensures written == []
    {
      written := [];
    }

    method WriteEvents(events: seq<LoadEvent>)
      modifies this
      ensures written == old(written) + [events]
    {
      written := written + [events];
    }
  }

  // ---------------------------------------------------------------------------------------------
  // The rules, on values

  /** `tableMap`: document id to table name. */
  function TableNames(documents: map<string, TableInfo>): map<string, string> {
    map id | id in documents :: documents[id].tableName
  }

  /** The event of one revision; `tableMap.get(docId)` is null for a document not in the map. */
  function EventOf(tableMap: map<string, string>, revision: Revision): LoadEvent
    requires revision.metadata.Some?
  {
    var docId := revision.metadata.value.id;
    LoadEvent(revision, if docId in tableMap then Some(tableMap[docId]) else None)
  }

  /** The events of a revision list, revisions without `metadata` skipped. */
  function EventsOf(tableMap: map<string, string>, revisions: seq<Revision>): seq<LoadEvent> {
    if revisions == [] then []
    else
      var last := revisions[|revisions| - 1];
      EventsOf(tableMap, revisions[..|revisions| - 1]) + if last.metadata.Some? then [EventOf(tableMap, last)] else []
  }

  /** The events `visit` writes for a block, or None where it returns without writing. */
  function WriteOf(block: Block): (r: Option<seq<LoadEvent>>)
    ensures r.Some? <==>
      block.transactionInfo.Some? && block.revisions.Some? && block.transactionInfo.value.documents.Some?
  {
    if !(block.transactionInfo.Some? && block.revisions.Some?) then None
    else if block.transactionInfo.value.documents.None? then None
    else Some(EventsOf(TableNames(block.transactionInfo.value.documents.value), block.revisions.value))
  }

  /** The `writeEvents` calls of one block: none or one. */
  function WritesFor(block: Block): seq<seq<LoadEvent>> {
    match WriteOf(block)
    case None => []
    case Some(events) => [events]
  }

  /** The `writeEvents` calls of a run of blocks. */
  function WritesForAll(blocks: seq<Block>): seq<seq<LoadEvent>> {
    if blocks == [] then [] else WritesFor(blocks[0]) + WritesForAll(blocks[1..])
  }

  /** The revisions of a list that have `metadata`, in list order. */
  function Kept(revisions: seq<Revision>): (r: seq<Revision>)
    ensures |r| <= |revisions|
    ensures forall i | 0 <= i < |r| :: r[i].metadata.Some?
  {
    if revisions == [] then []
    else (if revisions[0].metadata.Some? then [revisions[0]] else []) + Kept(revisions[1..])
  }

  /** The number of blocks that `visit` writes for. */
  function Qualifying(blocks: seq<Block>): nat {
    if blocks == [] then 0 else (if WriteOf(blocks[0]).Some? then 1 else 0) + Qualifying(blocks[1..])
  }

  // ---------------------------------------------------------------------------------------------
  // The visitor

  class SequentialLedgerLoadBlockVisitor {
    const writer: RevisionWriter

    /** The private constructor, past its null check. */
    constructor (writer: RevisionWriter)
      ensures this.writer == writer
    {
      this.writer := writer;
    }

    /** `builder().writer(writer).build()`: a null writer throws IllegalArgumentException. */
    static method Build(writer: RevisionWriter?) returns (r: Result<SequentialLedgerLoadBlockVisitor, ConstructionError>)
      ensures r.Failure? <==> writer == null
      ensures r.Failure? ==> r.error == IllegalArgument("Revision writer is required")
      ensures r.Success? ==> r.value.writer == writer
    {
      if writer == null {
        return Failure(IllegalArgument("Revision writer is required"));
      }
      var v := new SequentialLedgerLoadBlockVisitor(writer);
      return Success(v);
    }

    /** `visit(block)`: one `writeEvents` call for a block with documents and revisions. */
    method Visit(block: Block)
      modifies writer
      ensures writer.written == old(writer.written) + WritesFor(block)
    {
      if !(block.transactionInfo.Some? && block.revisions.Some?) {
        return;
      }
      var transactionInfo := block.transactionInfo.value;
      if transactionInfo.documents.None? {
        return;
      }
      var tableMap := BuildTableMap(transactionInfo.documents.value);
      assert tableMap == TableNames(transactionInfo.documents.value);
      var events := BuildEvents(tableMap, block.revisions.value);
      writer.WriteEvents(events);
    }

    /** The loop over `documents`: each document id sent to its table's name. */
    static method BuildTableMap(documents: map<string, TableInfo>) returns (tableMap: map<string, string>)
      ensures tableMap.Keys == documents.Keys
      ensures forall id | id in tableMap :: tableMap[id] == documents[id].tableName
    {
      tableMap := map[];
      var fields := documents.Keys;
      while fields != {}
        invariant fields <= documents.Keys
        invariant tableMap.Keys == documents.Keys - fields
        invariant forall id | id in tableMap :: tableMap[id] == documents[id].tableName
        decreases fields
      {
        var id :| id in fields;
        tableMap := tableMap[id := documents[id].tableName];
        fields := fields - {id};
      }
    }

    /** The loop over `revisions`: revisions without `metadata` skipped, the rest turned into
        events in order. */
    static method BuildEvents(tableMap: map<string, string>, revisions: seq<Revision>) returns (events: seq<LoadEvent>)
      ensures events == EventsOf(tableMap, revisions)
    {
      events := [];
      for i := 0 to |revisions|
        invariant events == EventsOf(tableMap, revisions[..i])
      {
        assert revisions[..i + 1][..i] == revisions[..i];
        var revision := revisions[i];
        if revision.metadata.Some? {
          events := events + [EventOf(tableMap, revision)];
        }
      }
      assert revisions[..|revisions|] == revisions;
    }
  }

  // ---------------------------------------------------------------------------------------------
  // Properties

  /** A block without `transactionInfo`, without `revisions`, or whose `transactionInfo` has no
      `documents`, is skipped; any other block is written once, even with no events. */
  lemma WritesOnce(block: Block)
    ensures |WritesFor(block)| <= 1
    ensures block.transactionInfo.None? || block.revisions.None? ==> WritesFor(block) == []
    ensures block.transactionInfo.Some? && block.transactionInfo.value.documents.None? ==> WritesFor(block) == []
    ensures block.transactionInfo.Some? && block.transactionInfo.value.documents.Some? && block.revisions == Some([])
      ==> WritesFor(block) == [[]]
  {
  }

  /** A run of blocks makes one call per qualifying block. */
  lemma {:induction false} OneWritePerBlock(blocks: seq<Block>)
    ensures |WritesForAll(blocks)| == Qualifying(blocks)
  {
    if blocks != [] {
      OneWritePerBlock(blocks[1..]);
    }
  }

  /** Each event names the table its document is listed under, or none when the document is not
      listed. */
  lemma EventTable(documents: map<string, TableInfo>, revision: Revision)
    requires revision.metadata.Some?
    ensures var e := EventOf(TableNames(documents), revision);
      && e.revision == revision
      && (e.tableName.Some? <==> revision.metadata.value.id in documents)
      && (e.tableName.Some? ==> e.tableName.value == documents[revision.metadata.value.id].tableName)
  {
  }

  lemma {:induction false} KeptAppend(a: seq<Revision>, b: seq<Revision>)
    ensures Kept(a + b) == Kept(a) + Kept(b)
  {
    if a != [] {
      assert (a + b)[1..] == a[1..] + b;
      KeptAppend(a[1..], b);
    } else {
      assert a + b == b;
    }
  }

  /** The events are those of the revisions with `metadata`, one each, in list order. */
  lemma {:induction false} EventsAreKept(tableMap: map<string, string>, revisions: seq<Revision>)
    ensures var events := EventsOf(tableMap, revisions);
      && |events| == |Kept(revisions)|
      && forall i | 0 <= i < |events| :: events[i] == EventOf(tableMap, Kept(revisions)[i])
  {
    if revisions != [] {
      var n := |revisions| - 1;
      EventsAreKept(tableMap, revisions[..n]);
      assert revisions == revisions[..n] + [revisions[n]];
      KeptAppend(revisions[..n], [revisions[n]]);
    }
  }

  /** The kept revisions are exactly those of the list that have `metadata`. */
  lemma {:induction false} KeptMembers(revisions: seq<Revision>)
    ensures forall r | r in Kept(revisions) :: r in revisions && r.metadata.Some?
    ensures forall r | r in revisions && r.metadata.Some? :: r in Kept(revisions)
  {
    if revisions != [] {
      KeptMembers(revisions[1..]);
      assert revisions == [revisions[0]] + revisions[1..];
    }
  }
}
