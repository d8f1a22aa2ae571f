/**
 * The net document count per table (`TableDocumentCountRevisionVisitor`). Each revision the
 * processor hands over is classified as an insert (version 0), a delete (a later version with
 * neither `data` nor `dataHash`) or an update (anything else, which is ignored); inserts and
 * deletes move a per-table counter, created on first use and keyed by table id. Teardown reports
 * the counters ordered by table name, then table id.
 *
 * The functions state the rules on values; the classes keep the source's mutable objects and are
 * proved against them.
 */
module TableDocumentCounting {
  import opened Wrappers
  import opened JavaStrings
  import opened Journal
  import Sorting

  // ---------------------------------------------------------------------------------------------
  // The rules, on values

  /** What a revision does to its table's count. */
  datatype Effect = Insert | Delete | NoChange

  /** The exception `visit` throws: `metadata` is dereferenced unchecked. */
  datatype VisitError = NullPointer

  /** A table's counter as a value: the name recorded when it was created, and the net count. */
  datatype Entry = Entry(tableName: string, documentCount: int)

  /** One call of `visit(revision, tableId, tableName)`. */
  datatype VisitCall = VisitCall(revision: Revision, tableId: string, tableName: string)

  /** How `visit` classifies a revision; None where reading its metadata throws. */
  function EffectOf(rev: Revision): (r: Option<Effect>)
    ensures r.None? <==> rev.metadata.None?
    ensures r == Some(Insert) <==> rev.metadata.Some? && rev.metadata.value.version == 0
    ensures r == Some(NoChange) <==>
      rev.metadata.Some? && rev.metadata.value.version > 0 && (rev.hasData || rev.hasDataHash)
  {
    match rev.metadata
    case None => None
    case Some(m) =>
      var delete := !(rev.hasData || rev.hasDataHash);
      if m.version > 0 && !delete then Some(NoChange)
      else if m.version == 0 then Some(Insert)
      else Some(Delete)
  }

  function Delta(e: Effect): int {
    match e
    case Insert => 1
    case Delete => -1
    case NoChange => 0
  }

  /** The count of a table, 0 for a table without a counter. */
  function CountOf(counts: map<string, Entry>, tableId: string): int {
    if tableId in counts then counts[tableId].documentCount else 0
  }

  /** The counters after one `visit`. */
  function Counted(counts: map<string, Entry>, v: VisitCall): (r: Result<map<string, Entry>, VisitError>)
    ensures r.Failure? <==> v.revision.metadata.None?
    ensures r.Success? ==>
      && r.value.Keys == counts.Keys + (if EffectOf(v.revision) == Some(NoChange) then {} else {v.tableId})
      && (forall k | k in counts && k != v.tableId :: r.value[k] == counts[k])
      && CountOf(r.value, v.tableId) == CountOf(counts, v.tableId) + Delta(EffectOf(v.revision).value)
      && (v.tableId in r.value ==>
            r.value[v.tableId].tableName == if v.tableId in counts then counts[v.tableId].tableName else v.tableName)
  {
    match EffectOf(v.revision)
    case None => Failure(NullPointer)
    case Some(NoChange) => Success(counts)
    case Some(e) =>
      var entry := if v.tableId in counts then counts[v.tableId] else Entry(v.tableName, 0);
      Success(counts[v.tableId := entry.(documentCount := entry.documentCount + Delta(e))])
  }

  /** The counters after a run of visits; the first exception ends the run. */
  function CountAll(counts: map<string, Entry>, visits: seq<VisitCall>): Result<map<string, Entry>, VisitError>
    decreases |visits|
  {
    if visits == [] then Success(counts)
    else
      match Counted(counts, visits[0])
      case Failure(e) => Failure(e)
      case Success(next) => CountAll(next, visits[1..])
  }

  /** The net change the visits make to a table's count. */
  function NetChange(visits: seq<VisitCall>, tableId: string): int {
    if visits == [] then 0
    else
      var e := EffectOf(visits[0].revision);
      (if visits[0].tableId == tableId && e.Some? then Delta(e.value) else 0) + NetChange(visits[1..], tableId)
  }

  /** A visit that moves its table's count. */
  predicate Counts(v: VisitCall) {
    EffectOf(v.revision) == Some(Insert) || EffectOf(v.revision) == Some(Delete)
  }

  /** The tables that received at least one insert or delete. */
  function Touched(visits: seq<VisitCall>): set<string> {
    if visits == [] then {}
    else (if Counts(visits[0]) then {visits[0].tableId} else {}) + Touched(visits[1..])
  }

  /** The name passed with the first insert or delete of a table. */
  function FirstName(visits: seq<VisitCall>, tableId: string): string
    requires tableId in Touched(visits)
  {
    if Counts(visits[0]) && visits[0].tableId == tableId then visits[0].tableName
    else FirstName(visits[1..], tableId)
  }

  /** The report order of `teardown`: by table name, equal names by table id. */
  datatype Row = Row(tableName: string, tableId: string, documentCount: int)

  predicate RowLess(a: Row, b: Row) {
    if a.tableName == b.tableName then Compare(a.tableId, b.tableId) < 0
    else Compare(a.tableName, b.tableName) < 0
  }

  // ---------------------------------------------------------------------------------------------
  // The objects

  /** `TableDocCount`: a table's id and name, fixed at creation, and its mutable count. */
  class TableDocCount {
    const tableId: string
    const tableName: string
    var documentCount: int

    constructor (tableId: string, tableName: string)
      ensures this.tableId == tableId && this.tableName == tableName && documentCount == 0
    {
      this.tableId := tableId;
      this.tableName := tableName;
      documentCount := 0;
    }

    /** `add()`. */
    method Add()
      modifies this
      ensures documentCount == old(documentCount) + 1
    {
      documentCount := documentCount + 1;
    }

    /** `remove()`; a count may go below zero. */
    method Remove()
      modifies this
      ensures documentCount == old(documentCount) - 1
    {
      documentCount := documentCount - 1;
    }
  }

  /** The rows of a list of counters, as they stand. */
  function RowsOf(structs: seq<TableDocCount>): (r: seq<Row>)
    reads structs
    ensures |r| == |structs|
    ensures forall i | 0 <= i < |r| ::
      r[i] == Row(structs[i].tableName, structs[i].tableId, structs[i].documentCount)
  {
    if structs == [] then []
    else [Row(structs[0].tableName, structs[0].tableId, structs[0].documentCount)] + RowsOf(structs[1..])
  }

  /** The table ids of a list of counters. */
  function IdsOf(structs: seq<TableDocCount>): (r: seq<string>)
    ensures |r| == |structs| && forall i | 0 <= i < |r| :: r[i] == structs[i].tableId
  {
    if structs == [] then [] else [structs[0].tableId] + IdsOf(structs[1..])
  }

  class TableDocumentCountRevisionVisitor {
    /** `counts`: the counters by table id. */
    var counts: map<string, TableDocCount>

    /** Each counter sits under its own table id, so no two keys share one. */
    ghost predicate Valid()
      reads this
    {
      forall k | k in counts :: counts[k].tableId == k
    }

    /** The counters as values. */
    ghost function Contents(): map<string, Entry>
      reads this, counts.Values
    {
      ContentsOf(counts)
    }

    constructor ()
      ensures Valid() && Contents() == map[]
    {
      counts := map[];
    }

    /** `visit(revision, tableId, tableName)`. */
    method Visit(revision: Revision, tableId: string, tableName: string) returns (thrown: Option<VisitError>)
      requires Valid()
      modifies this, counts.Values
      ensures Valid()
      ensures var r := Counted(old(Contents()), VisitCall(revision, tableId, tableName));
        && (r.Failure? ==> thrown == Some(r.error) && Contents() == old(Contents()))
        && (r.Success? ==> thrown.None? && Contents() == r.value)
    {
      ghost var before := Contents();
      ghost var call := VisitCall(revision, tableId, tableName);
      if revision.metadata.None? {
        return Some(NullPointer);
      }
      var version := revision.metadata.value.version;
      var delete := !(revision.hasData || revision.hasDataHash);
      if version > 0 && !delete {
        assert Counted(before, call) == Success(before);
        return None;
      }
      CountChange(tableId, tableName, version == 0);
      assert Counted(before, call).Success?;
      return None;
    }

    /** The counter of the table found or created, then moved by one. */
    method CountChange(tableId: string, tableName: string, insert: bool)
      requires Valid()
      modifies this, counts.Values
      ensures Valid()
      ensures var entry := if tableId in old(Contents()) then old(Contents())[tableId] else Entry(tableName, 0);
        Contents() == old(Contents())[tableId := entry.(documentCount := entry.documentCount + if insert then 1 else -1)]
    {
      var ts := CounterFor(tableId, tableName);
      Count(ts, insert);
    }

    /** `counts.get(tableId)`, or a new counter put under it when there is none. */
    method CounterFor(tableId: string, tableName: string) returns (ts: TableDocCount)
      requires Valid()
      modifies this
      ensures Valid() && tableId in counts && counts[tableId] == ts
      ensures tableId in old(counts) ==> ts == old(counts)[tableId]
      ensures tableId !in old(counts) ==> fresh(ts)
      ensures Contents() == old(Contents())[tableId :=
        if tableId in old(Contents()) then old(Contents())[tableId] else Entry(tableName, 0)]
    {
      if tableId in counts {
        ts := counts[tableId];
      } else {
        ts := new TableDocCount(tableId, tableName);
        counts := counts[tableId := ts];
      }
    }

    /** `ts.add()` for an insert, `ts.remove()` for a delete. */
    method Count(ts: TableDocCount, insert: bool)
      requires Valid() && ts.tableId in counts && counts[ts.tableId] == ts
      modifies ts
      ensures Contents() == old(Contents())[ts.tableId :=
        old(Contents())[ts.tableId].(documentCount := old(ts.documentCount) + if insert then 1 else -1)]
    {
      if insert {
        ts.Add();
      } else {
        ts.Remove();
      }
    }

    /** `getCounts()`: every counter exactly once, in no particular order. */
    method GetCounts() returns (r: seq<TableDocCount>)
      requires Valid()
      ensures |r| == |counts|
      ensures forall i | 0 <= i < |r| :: r[i].tableId in counts && counts[r[i].tableId] == r[i]
      ensures forall k | k in counts :: k in IdsOf(r)
      ensures forall i, j | 0 <= i < j < |r| :: r[i].tableId != r[j].tableId
    {
      var keys := counts.Keys;
      ghost var ids: seq<string> := [];
      r := [];
      while keys != {}
        invariant keys <= counts.Keys
        invariant |r| + |keys| == |counts.Keys|
        invariant |ids| == |r| && forall i | 0 <= i < |r| :: r[i].tableId == ids[i]
        invariant forall i | 0 <= i < |r| :: ids[i] in counts && ids[i] !in keys && counts[ids[i]] == r[i]
        invariant forall k | k in counts && k !in keys :: k in ids
        invariant forall i, j | 0 <= i < j < |r| :: ids[i] != ids[j]
        decreases keys
      {
        var k :| k in keys;
        r := r + [counts[k]];
        ids := ids + [k];
        keys := keys - {k};
      }
      assert IdsOf(r) == ids;
    }

    /** The rows `teardown` prints, in the order of `getCounts()`. */
    method CountRows() returns (rows: seq<Row>)
      requires Valid()
      ensures Report(Contents(), rows)
      ensures forall i, j | 0 <= i < j < |rows| :: rows[i].tableId != rows[j].tableId
    {
      var structs := GetCounts();
      rows := RowsOf(structs);
      CountersReport(counts, structs);
    }

    /** `teardown()`: the counters ordered by table name, then table id. */
    method Teardown() returns (report: seq<Row>)
      requires Valid()
      ensures Report(Contents(), report)
      ensures forall i, j | 0 <= i < j < |report| :: RowLess(report[i], report[j])
    {
      var rows := CountRows();
      report := Sorting.SortBy(rows, RowLess);
      SortedReport(Contents(), rows);
    }
  }

  /** Counters by table id, as values. */
  ghost function ContentsOf(counts: map<string, TableDocCount>): map<string, Entry>
    reads counts.Values
  {
    map k | k in counts :: Entry(counts[k].tableName, counts[k].documentCount)
  }

  /** The rows of a list holding each counter once are a report of them. */
  lemma CountersReport(counts: map<string, TableDocCount>, structs: seq<TableDocCount>)
    requires |structs| == |counts|
    requires forall i | 0 <= i < |structs| :: structs[i].tableId in counts && counts[structs[i].tableId] == structs[i]
    requires forall k | k in counts :: k in IdsOf(structs)
    requires forall i, j | 0 <= i < j < |structs| :: structs[i].tableId != structs[j].tableId
    ensures Report(ContentsOf(counts), RowsOf(structs))
    ensures var rows := RowsOf(structs);
      forall i, j | 0 <= i < j < |rows| :: rows[i].tableId != rows[j].tableId
  {
    ReportSize(counts, structs);
    ReportEntries(counts, structs);
    ReportCovers(counts, structs);
  }

  /** One counter per key, so as many rows as counters. */
  lemma ReportSize(counts: map<string, TableDocCount>, structs: seq<TableDocCount>)
    requires |structs| == |counts|
    ensures |RowsOf(structs)| == |ContentsOf(counts)|
  {
    assert ContentsOf(counts).Keys == counts.Keys;
  }
  /** Each row shows its counter as it stands. */
  lemma ReportEntries(counts: map<string, TableDocCount>, structs: seq<TableDocCount>)
    requires forall i | 0 <= i < |structs| :: structs[i].tableId in counts && counts[structs[i].tableId] == structs[i]
    ensures var rows := RowsOf(structs); var contents := ContentsOf(counts);
      forall i | 0 <= i < |rows| ::
          rows[i].tableId in contents && contents[rows[i].tableId] == Entry(rows[i].tableName, rows[i].documentCount)
  {
  }
  /** Each counter has its row. */
  lemma ReportCovers(counts: map<string, TableDocCount>, structs: seq<TableDocCount>)
    requires forall k | k in counts :: k in IdsOf(structs)
    ensures var rows := RowsOf(structs); var contents := ContentsOf(counts);
      forall k | k in contents :: k in RowIds(rows)
  {
    var contents := ContentsOf(counts);
    var rows := RowsOf(structs);
    forall k | k in contents ensures k in RowIds(rows) {
      var i :| 0 <= i < |structs| && IdsOf(structs)[i] == k;
      assert RowIds(rows)[i] == k;
    }
  }

  /** The table ids of a list of rows. */
  function RowIds(rows: seq<Row>): (r: seq<string>)
    ensures |r| == |rows| && forall i | 0 <= i < |r| :: r[i] == rows[i].tableId
  {
    if rows == [] then [] else [rows[0].tableId] + RowIds(rows[1..])
  }

  /** The rows list every counter once: its name, id and count, and nothing else. */
  predicate Report(contents: map<string, Entry>, rows: seq<Row>) {
    && |rows| == |contents|
    && (forall i | 0 <= i < |rows| ::
          rows[i].tableId in contents && contents[rows[i].tableId] == Entry(rows[i].tableName, rows[i].documentCount))
    && (forall k | k in contents :: k in RowIds(rows))
  }

  // ---------------------------------------------------------------------------------------------
  // Properties

  /** A run fails exactly when one of its revisions has no metadata; the visits before it have
      been counted, the rest are not reached. */
  lemma {:induction false} CountAllFails(counts: map<string, Entry>, visits: seq<VisitCall>)
    ensures CountAll(counts, visits).Failure? <==> exists i | 0 <= i < |visits| :: visits[i].revision.metadata.None?
    decreases |visits|
  {
    if visits != [] && visits[0].revision.metadata.Some? {
      CountAllFails(Counted(counts, visits[0]).value, visits[1..]);
      if exists i | 0 <= i < |visits| :: visits[i].revision.metadata.None? {
        var i :| 0 <= i < |visits| && visits[i].revision.metadata.None?;
        assert visits[1..][i - 1] == visits[i];
      }
    }
  }

  /** The counters are those already there plus the tables that received an insert or delete. */
  lemma {:induction false} CountAllKeys(counts: map<string, Entry>, visits: seq<VisitCall>)
    requires CountAll(counts, visits).Success?
    ensures CountAll(counts, visits).value.Keys == counts.Keys + Touched(visits)
    decreases |visits|
  {
    if visits != [] {
      CountAllKeys(Counted(counts, visits[0]).value, visits[1..]);
    }
  }

  /** Each count moves by the inserts minus the deletes of its table, and may go below zero. */
  lemma {:induction false} CountAllNet(counts: map<string, Entry>, visits: seq<VisitCall>, tableId: string)
    requires CountAll(counts, visits).Success?
    ensures CountOf(CountAll(counts, visits).value, tableId) == CountOf(counts, tableId) + NetChange(visits, tableId)
    decreases |visits|
  {
    if visits != [] {
      var next := Counted(counts, visits[0]).value;
      CountAllNet(next, visits[1..], tableId);
      assert CountOf(next, tableId) == CountOf(counts, tableId)
        + (if visits[0].tableId == tableId then Delta(EffectOf(visits[0].revision).value) else 0);
    }
  }

  /** A counter keeps the name it was created with: the earlier one, or the name passed with its
      table's first insert or delete; later names are ignored. */
  lemma {:induction false} CountAllNames(counts: map<string, Entry>, visits: seq<VisitCall>, tableId: string)
    requires CountAll(counts, visits).Success?
    requires tableId in counts || tableId in Touched(visits)
    ensures tableId in CountAll(counts, visits).value
    ensures CountAll(counts, visits).value[tableId].tableName
         == if tableId in counts then counts[tableId].tableName else FirstName(visits, tableId)
    decreases |visits|
  {
    CountAllKeys(counts, visits);
    if visits != [] {
      var next := Counted(counts, visits[0]).value;
      if tableId in next || tableId in Touched(visits[1..]) {
        CountAllNames(next, visits[1..], tableId);
      }
    }
  }

  /** The visits of the source's tests, one document of table "0000" named "test". */
  function InsertOf(id: string): Revision { Revision(true, Some(Metadata(id, 0)), true, false) }
  function UpdateOf(id: string): Revision { Revision(true, Some(Metadata(id, 1)), true, false) }
  function DeleteOf(id: string): Revision { Revision(true, Some(Metadata(id, 1)), false, false) }
  function RedactionOf(id: string): Revision { Revision(true, Some(Metadata(id, 1)), false, true) }

  /** An insert alone counts 1; a delete alone counts -1; an update or a redaction alone creates
      no counter; an insert followed by an update of the same document counts 1. */
  lemma TestScenarios(id: string)
    ensures CountAll(map[], [VisitCall(InsertOf(id), "0000", "test")]) == Success(map["0000" := Entry("test", 1)])
    ensures CountAll(map[], [VisitCall(DeleteOf(id), "0000", "test")]) == Success(map["0000" := Entry("test", -1)])
    ensures CountAll(map[], [VisitCall(UpdateOf(id), "0000", "test")]) == Success(map[])
    ensures CountAll(map[], [VisitCall(RedactionOf(id), "0000", "test")]) == Success(map[])
    ensures CountAll(map[], [VisitCall(InsertOf(id), "0000", "test"), VisitCall(UpdateOf(id), "0000", "test")])
         == Success(map["0000" := Entry("test", 1)])
  {
    var both := [VisitCall(InsertOf(id), "0000", "test"), VisitCall(UpdateOf(id), "0000", "test")];
    assert both[1..] == [VisitCall(UpdateOf(id), "0000", "test")];
  }

  /** Equal rows are not less than each other, and "less" chains. */
  lemma RowLessIsStrict()
    ensures Sorting.StrictOrder(RowLess)
  {
    forall a: Row ensures !RowLess(a, a) {
      CompareZero(a.tableId, a.tableId);
    }
    forall a: Row, b: Row, c: Row | RowLess(a, b) && RowLess(b, c) ensures RowLess(a, c) {
      RowLessTransitive(a, b, c);
    }
  }

  lemma RowLessTransitive(a: Row, b: Row, c: Row)
    requires RowLess(a, b) && RowLess(b, c)
    ensures RowLess(a, c)
  {
    if a.tableName == b.tableName && b.tableName == c.tableName {
      CompareTransitive(a.tableId, b.tableId, c.tableId);
    } else if a.tableName != b.tableName && b.tableName != c.tableName {
      CompareTransitive(a.tableName, b.tableName, c.tableName);
      if a.tableName == c.tableName {
        CompareSwap(a.tableName, b.tableName);
      }
    }
  }

  /** Two rows of different tables are ordered one way or the other. */
  lemma RowLessTotal(a: Row, b: Row)
    requires a.tableId != b.tableId
    ensures RowLess(a, b) || RowLess(b, a)
  {
    CompareSwap(a.tableId, b.tableId);
    CompareZero(a.tableId, b.tableId);
    CompareSwap(a.tableName, b.tableName);
    CompareZero(a.tableName, b.tableName);
  }

  /** A sequence without repeats holds each value at most once. */
  lemma {:induction false} DistinctOnce<T>(s: seq<T>, x: T)
    requires forall i, j | 0 <= i < j < |s| :: s[i] != s[j]
    ensures multiset(s)[x] <= 1
  {
    if s != [] {
      assert s == [s[0]] + s[1..];
      DistinctOnce(s[1..], x);
      if x == s[0] {
        assert x !in s[1..];
      }
    }
  }

  /** A sequence holding a value at two places holds it twice. */
  lemma TwiceHeld<T>(s: seq<T>, i: nat, j: nat)
    requires i < j < |s| && s[i] == s[j]
    ensures multiset(s)[s[i]] >= 2
  {
    assert s == s[..j] + s[j..];
    assert s[i] in s[..j];
    assert s[j] in s[j..];
  }

  /** Sorting a report of the counters keeps it a report, and orders it strictly. */
  lemma SortedReport(contents: map<string, Entry>, rows: seq<Row>)
    requires Report(contents, rows)
    requires forall i, j | 0 <= i < j < |rows| :: rows[i].tableId != rows[j].tableId
    ensures var report := Sorting.SortBy(rows, RowLess);
      && Report(contents, report)
      && forall i, j | 0 <= i < j < |report| :: RowLess(report[i], report[j])
  {
    ReportOrdered(rows);
    SortedEntries(contents, rows);
    SortedCovers(contents, rows);
  }

  /** A row of the sorted report is a row of the unsorted one. */
  lemma SortedEntries(contents: map<string, Entry>, rows: seq<Row>)
    requires forall i | 0 <= i < |rows| ::
      rows[i].tableId in contents && contents[rows[i].tableId] == Entry(rows[i].tableName, rows[i].documentCount)
    ensures var report := Sorting.SortBy(rows, RowLess);
      forall i | 0 <= i < |report| ::
        report[i].tableId in contents && contents[report[i].tableId] == Entry(report[i].tableName, report[i].documentCount)
  {
    var report := Sorting.SortBy(rows, RowLess);
    forall i | 0 <= i < |report|
      ensures report[i].tableId in contents
      ensures contents[report[i].tableId] == Entry(report[i].tableName, report[i].documentCount)
    {
      assert report[i] in multiset(rows);
    }
  }

  /** A table with a row in the unsorted report has one in the sorted report. */
  lemma SortedCovers(contents: map<string, Entry>, rows: seq<Row>)
    requires forall k | k in contents :: k in RowIds(rows)
    ensures forall k | k in contents :: k in RowIds(Sorting.SortBy(rows, RowLess))
  {
    var report := Sorting.SortBy(rows, RowLess);
    forall k | k in contents ensures k in RowIds(report) {
      var i :| 0 <= i < |rows| && RowIds(rows)[i] == k;
      assert rows[i] in multiset(report);
      var j :| 0 <= j < |report| && report[j] == rows[i];
      assert RowIds(report)[j] == k;
    }
  }

  /** Sorting rows of distinct tables orders them strictly. */
  lemma ReportOrdered(rows: seq<Row>)
    requires forall i, j | 0 <= i < j < |rows| :: rows[i].tableId != rows[j].tableId
    ensures var report := Sorting.SortBy(rows, RowLess);
      forall i, j | 0 <= i < j < |report| :: RowLess(report[i], report[j])
  {
    var report := Sorting.SortBy(rows, RowLess);
    RowLessIsStrict();
    Sorting.SortBySorted(rows, RowLess);
    forall i, j | 0 <= i < j < |report| ensures RowLess(report[i], report[j]) {
      if report[i].tableId == report[j].tableId {
        assert report[i] in multiset(rows) && report[j] in multiset(rows);
        var p :| 0 <= p < |rows| && rows[p] == report[i];
        var q :| 0 <= q < |rows| && rows[q] == report[j];
        assert p == q;
        TwiceHeld(report, i, j);
        DistinctOnce(rows, report[i]);
        assert false;
      }
      RowLessTotal(report[i], report[j]);
    }
  }
}
