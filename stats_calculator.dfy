/**
 * The statistics block visitor: it counts the blocks of a window and the revisions they carry,
 * remembers the first and last block times, and, when it has an output file, writes one CSV line
 * per one-second time slice holding the number of blocks whose timestamp falls in that second.
 * Times are milliseconds since the epoch, UTC.
 */
module StatsCalculation {
  import opened Wrappers
  import opened JavaStrings
  import opened Journal

  /** The exceptions `visit` and `printResults` can raise. */
  datatype StatsError =
    | NullPointer                       // a missing or null timestamp is dereferenced
    | UnparsableTimestamp(text: string) // the RuntimeException wrapping a ParseException

  /** One CSV line: the start of a one-second slice and the number of blocks in it. */
  datatype SliceLine = SliceLine(slice: int, count: int)

  /** The visitor's mutable fields, as a value. */
  datatype Stats = Stats(
    totalBlocks: int,
    totalRevisions: int,
    startBlockTime: Option<int>,
    endBlockTime: Option<int>,
    lastTimeSlice: Option<int>,
    timeSliceBlockCnt: int,
    lines: seq<SliceLine>)     // what has been written to the output file

  const Initial := Stats(0, 0, None, None, None, 0, [])

  // ---------------------------------------------------------------------------------------------
  // Block timestamps

  function FieldValue(s: string, from: nat, to: nat): nat
    requires from <= to <= |s| && AllDigits(s[from..to])
  {
    DigitsValue(s[from..to])
  }

  /** The text shape `yyyy-MM-dd'T'HH:mm:ss.SSS'Z'` with the usual digit counts. */
  predicate IsUtcTimestampText(s: string) {
    && |s| == 24
    && AllDigits(s[0..4]) && s[4] == '-' && AllDigits(s[5..7]) && s[7] == '-' && AllDigits(s[8..10])
    && s[10] == 'T' && AllDigits(s[11..13]) && s[13] == ':' && AllDigits(s[14..16]) && s[16] == ':'
    && AllDigits(s[17..19]) && s[19] == '.' && AllDigits(s[20..23]) && s[23] == 'Z'
  }

  /** Days from 1970-01-01 to the first day of the given month of the proleptic Gregorian
      calendar (month 1 to 12). */
  function DaysFromCivil(year: int, month: int): int
    requires 1 <= month <= 12
  {
    var y := if month <= 2 then year - 1 else year;
    var era := y / 400;
    var yoe := y - era * 400;
    var doy := (153 * (if month > 2 then month - 3 else month + 9) + 2) / 5;
    var doe := yoe * 365 + yoe / 4 - yoe / 100 + doy;
    era * 146097 + doe - 719468
  }

  /** The milliseconds of a date and time whose fields may be out of range: a lenient calendar
      rolls a month past 12, a day past the month's end, and so on, into the next unit. */
  function LenientMillis(year: int, month: int, day: int, hour: int, minute: int, second: int, milli: int): int {
    var months := year * 12 + (month - 1);
    var days := DaysFromCivil(months / 12, months % 12 + 1) + (day - 1);
    days * 86400000 + hour * 3600000 + minute * 60000 + second * 1000 + milli
  }

  /** `timestampParser.parse(text)` with the pattern `yyyy-MM-dd'T'HH:mm:ss.SSS'Z'` in UTC;
      None where it throws ParseException. */
  function ParseUtcTimestamp(s: string): (r: Option<int>)
    ensures r.Some? <==> IsUtcTimestampText(s)
  {
    if !IsUtcTimestampText(s) then None
    else Some(LenientMillis(FieldValue(s, 0, 4), FieldValue(s, 5, 7), FieldValue(s, 8, 10),
                            FieldValue(s, 11, 13), FieldValue(s, 14, 16), FieldValue(s, 17, 19),
                            FieldValue(s, 20, 23)))
  }

  /** The block time `visit` reads: an Ion timestamp as is, a string parsed, a value of another
      type as null; a missing field is dereferenced and throws. */
  function BlockTime(t: TimestampValue): (r: Result<Option<int>, StatsError>)
    ensures t.IonTimestamp? ==> r == Success(Some(t.millis))
    ensures t.IonString? && IsUtcTimestampText(t.text) ==> r.Success? && r.value.Some?
    ensures t.IonString? && !IsUtcTimestampText(t.text) ==> r == Failure(UnparsableTimestamp(t.text))
    ensures t.OtherIonType? ==> r == Success(None)
    ensures t.Missing? ==> r == Failure(NullPointer)
  {
    match t
    case IonTimestamp(millis) => Success(Some(millis))
    case IonString(text) =>
      var parsed := ParseUtcTimestamp(text);
      if parsed.None? then Failure(UnparsableTimestamp(text)) else Success(Some(parsed.value))
    case OtherIonType => Success(None)
    case Missing => Failure(NullPointer)
  }

  /** The calendar with its MILLISECOND field set to 0: the start of the second holding `millis`. */
  function SliceOf(millis: int): (r: int)
    ensures r % 1000 == 0 && r <= millis < r + 1000
  {
    millis - millis % 1000
  }

  // ---------------------------------------------------------------------------------------------
  // One visit

  /** The window check: a bound of -1 is no bound. */
  predicate InWindow(startBlock: int, endBlock: int, n: int) {
    !(startBlock > -1 && n < startBlock) && !(endBlock > -1 && n > endBlock)
  }

  /** The revision entries that carry a `blockAddress`. */
  function CountWithAddress(revisions: seq<Revision>): (n: nat)
    ensures n <= |revisions|
  {
    if revisions == [] then 0
    else CountWithAddress(revisions[..|revisions| - 1]) + (if revisions[|revisions| - 1].hasBlockAddress then 1 else 0)
  }

  function RevisionsCounted(b: Block): nat {
    if b.revisions.None? then 0 else CountWithAddress(b.revisions.value)
  }

  /** The time-slice update for a block in `slice`: the same slice counts one more block, another
      one writes the open slice's line and opens the new slice. */
  function Bucket(s: Stats, slice: int): Stats {
    if s.lastTimeSlice.None? then s.(lastTimeSlice := Some(slice), timeSliceBlockCnt := 1)
    else if s.lastTimeSlice.value == slice then s.(timeSliceBlockCnt := s.timeSliceBlockCnt + 1)
    else s.(lastTimeSlice := Some(slice), timeSliceBlockCnt := 1,
            lines := s.lines + [SliceLine(s.lastTimeSlice.value, s.timeSliceBlockCnt)])
  }

  /** `visit(block)` on the fields `s`; `writerOpen` says whether a writer is open.
      An exception leaves every field as it was. */
  function Visited(startBlock: int, endBlock: int, writerOpen: bool, s: Stats, b: Block): Result<Stats, StatsError> {
    if !InWindow(startBlock, endBlock, b.sequenceNo) then Success(s)
    else match BlockTime(b.blockTimestamp)
      case Failure(e) => Failure(e)
      case Success(t) =>
        if writerOpen && t.None? then Failure(NullPointer)
        else
          var bucketed := if writerOpen then Bucket(s, SliceOf(t.value)) else s;
          Success(bucketed.(totalBlocks := s.totalBlocks + 1,
                            totalRevisions := s.totalRevisions + RevisionsCounted(b),
                            startBlockTime := if s.startBlockTime.None? then t else s.startBlockTime,
                            endBlockTime := t))
  }

  lemma VisitedInWindow(startBlock: int, endBlock: int, writerOpen: bool, s: Stats, b: Block, t: Option<int>)
    requires InWindow(startBlock, endBlock, b.sequenceNo) && BlockTime(b.blockTimestamp) == Success(t)
    requires writerOpen ==> t.Some?
    ensures Visited(startBlock, endBlock, writerOpen, s, b) ==
      Success((if writerOpen then Bucket(s, SliceOf(t.value)) else s).(
        totalBlocks := s.totalBlocks + 1,
        totalRevisions := s.totalRevisions + RevisionsCounted(b),
        startBlockTime := if s.startBlockTime.None? then t else s.startBlockTime,
        endBlockTime := t))
  {
  }

  /** The slice update touches only the slice fields and the lines. */
  lemma BucketKeepsTimes(s: Stats, m: Stats, slice: int)
    requires m == s.(startBlockTime := m.startBlockTime)
    ensures Bucket(m, slice) == Bucket(s, slice).(startBlockTime := m.startBlockTime)
  {
  }

  /** `visit` on each block in turn, until one throws. */
  function VisitAll(startBlock: int, endBlock: int, writerOpen: bool, s: Stats, blocks: seq<Block>): Result<Stats, StatsError>
    decreases |blocks|
  {
    if blocks == [] then Success(s)
    else match Visited(startBlock, endBlock, writerOpen, s, blocks[0])
      case Failure(e) => Failure(e)
      case Success(next) => VisitAll(startBlock, endBlock, writerOpen, next, blocks[1..])
  }

  // ---------------------------------------------------------------------------------------------
  // Reporting

  /** `millis / 1000` on a Java `long`: the quotient truncated toward zero. */
  function WholeSeconds(millis: int): int {
    if millis >= 0 then millis / 1000 else -((-millis) / 1000)
  }

  /** `duration / 1000` in `printResults`, or the NullPointerException when either time is null. */
  function DurationSeconds(s: Stats): Result<int, StatsError> {
    if s.startBlockTime.None? || s.endBlockTime.None? then Failure(NullPointer)
    else Success(WholeSeconds(s.endBlockTime.value - s.startBlockTime.value))
  }

  /** The open slice's line, which `teardown` writes last. */
  function OpenLine(s: Stats): seq<SliceLine> {
    if s.lastTimeSlice.Some? then [SliceLine(s.lastTimeSlice.value, s.timeSliceBlockCnt)] else []
  }

  /** The output file once the open slice is written. */
  function Flushed(s: Stats): seq<SliceLine> {
    s.lines + OpenLine(s)
  }

  // ---------------------------------------------------------------------------------------------
  // The visitor object

  class StatsCalculator {
    const startBlock: int
    const endBlock: int
    const hasOutputFile: bool
    /** A writer is open. */
    var writerOpen: bool
    var totalBlocks: int
    var totalRevisions: int
    var startBlockTime: Option<int>
    var endBlockTime: Option<int>
    var lastTimeSlice: Option<int>
    var timeSliceBlockCnt: int
    var lines: seq<SliceLine>

    function Snapshot(): Stats
      reads this
    {
      Stats(totalBlocks, totalRevisions, startBlockTime, endBlockTime, lastTimeSlice, timeSliceBlockCnt, lines)
    }

    /** What the builder's `build()` produces. */
    constructor(startBlock: int, endBlock: int, hasOutputFile: bool)
      ensures this.startBlock == startBlock && this.endBlock == endBlock && this.hasOutputFile == hasOutputFile
      ensures !writerOpen && Snapshot() == Initial
    {
      this.startBlock := startBlock;
      this.endBlock := endBlock;
      this.hasOutputFile := hasOutputFile;
      writerOpen := false;
      totalBlocks, totalRevisions := 0, 0;
      startBlockTime, endBlockTime, lastTimeSlice := None, None, None;
      timeSliceBlockCnt := 0;
      lines := [];
    }

    /** `setup()`: with an output file, replace it by an empty one and open a writer on it. */
    method Setup()
      modifies this
      ensures writerOpen == (hasOutputFile || old(writerOpen))
      ensures Snapshot() == if hasOutputFile then old(Snapshot()).(lines := []) else old(Snapshot())
    {
      if !hasOutputFile {
        return;
      }
      lines := [];
      writerOpen := true;
    }

    /** `visit(block)`: the window check, the block time, then the counters and the slice. */
    method Visit(block: Block) returns (thrown: Option<StatsError>)
      modifies this
      ensures writerOpen == old(writerOpen)
      ensures match Visited(startBlock, endBlock, writerOpen, old(Snapshot()), block)
        case Success(s) => thrown.None? && Snapshot() == s
        case Failure(e) => thrown == Some(e) && Snapshot() == old(Snapshot())
    {
      if startBlock > -1 || endBlock > -1 {
        var blockNumber := block.sequenceNo;
        if startBlock > -1 && blockNumber < startBlock {
          return None;
        }
        if endBlock > -1 && blockNumber > endBlock {
          return None;
        }
      }
      var blockTime := ReadBlockTime(block.blockTimestamp);
      if blockTime.Failure? {
        return Some(blockTime.error);
      }
      if writerOpen && blockTime.value.None? {
        if startBlockTime.None? {
          startBlockTime := blockTime.value;
        }
        return Some(NullPointer);
      }
      ghost var before := Snapshot();
      Record(block, blockTime.value);
      VisitedInWindow(startBlock, endBlock, writerOpen, before, block, blockTime.value);
      return None;
    }

    /** How `visit` reads `blockTimestamp`. */
    static method ReadBlockTime(value: TimestampValue) returns (blockTime: Result<Option<int>, StatsError>)
      ensures blockTime == BlockTime(value)
    {
      match value {
        case Missing =>
          return Failure(NullPointer);
        case IonTimestamp(millis) =>
          return Success(Some(millis));
        case IonString(text) =>
          var parsed := ParseUtcTimestamp(text);
          if parsed.None? {
            return Failure(UnparsableTimestamp(text));
          }
          return Success(parsed);
        case OtherIonType =>
          return Success(None);
      }
    }

    /** The updates `visit` makes for an in-window block with a usable time. */
    method Record(block: Block, blockTime: Option<int>)
      requires writerOpen ==> blockTime.Some?
      modifies this
      ensures writerOpen == old(writerOpen)
      ensures Snapshot() ==
        (if writerOpen then Bucket(old(Snapshot()), SliceOf(blockTime.value)) else old(Snapshot())).(
          totalBlocks := old(totalBlocks) + 1,
          totalRevisions := old(totalRevisions) + RevisionsCounted(block),
          startBlockTime := if old(startBlockTime).None? then blockTime else old(startBlockTime),
          endBlockTime := blockTime)
    {
      ghost var before := Snapshot();
      if startBlockTime.None? {
        startBlockTime := blockTime;
      }
      if writerOpen {
        ghost var mid := Snapshot();
        CountInSlice(SliceOf(blockTime.value));
        BucketKeepsTimes(before, mid, SliceOf(blockTime.value));
      }
      var counted := 0;
      if block.revisions.Some? {
        counted := CountRevisions(block.revisions.value);
      }
      totalRevisions := totalRevisions + counted;
      totalBlocks := totalBlocks + 1;
      endBlockTime := blockTime;
    }

    /** The slice update of `visit`: one more block in the open slice, or write the open slice's
        line and open a new one. */
    method CountInSlice(cal: int)
      modifies this
      ensures Snapshot() == Bucket(old(Snapshot()), cal) && writerOpen == old(writerOpen)
    {
      if lastTimeSlice.None? {
        timeSliceBlockCnt := 1;
        lastTimeSlice := Some(cal);
      } else if cal == lastTimeSlice.value {
        timeSliceBlockCnt := timeSliceBlockCnt + 1;
      } else {
        lines := lines + [SliceLine(lastTimeSlice.value, timeSliceBlockCnt)];
        timeSliceBlockCnt := 1;
        lastTimeSlice := Some(cal);
      }
    }

    /** The revision loop of `visit`: the entries that have a `blockAddress`. */
    static method CountRevisions(revisions: seq<Revision>) returns (counted: nat)
      ensures counted == CountWithAddress(revisions)
    {
      counted := 0;
      for i := 0 to |revisions|
        invariant counted == CountWithAddress(revisions[..i])
      {
        assert revisions[..i + 1][..i] == revisions[..i];
        if revisions[i].hasBlockAddress {
          counted := counted + 1;
        }
      }
      assert revisions[..|revisions|] == revisions;
    }

    /** The integer part of `printResults`: the whole seconds between the first and last block
        times; the floating-point rate and the console output are not modelled. */
    method PrintResults() returns (duration: Result<int, StatsError>)
      ensures duration == DurationSeconds(Snapshot())
      ensures duration.Success? <==> startBlockTime.Some? && endBlockTime.Some?
      ensures duration.Success? ==>
        var elapsed := endBlockTime.value - startBlockTime.value;
        && (elapsed >= 0 ==> 0 <= duration.value * 1000 <= elapsed < duration.value * 1000 + 1000)
        && (elapsed < 0 ==> elapsed <= duration.value * 1000 <= 0 && duration.value * 1000 < elapsed + 1000)
    {
      if startBlockTime.None? || endBlockTime.None? {
        return Failure(NullPointer);
      }
      var t0 := startBlockTime.value;
      var elapsed := endBlockTime.value - t0;
      duration := Success(WholeSeconds(elapsed));
      WholeSecondsBounds(elapsed);
    }

    /** `teardown()`: print the results (their NullPointerException ends teardown at once), then
        write the open slice's line and close the writer. */
    method Teardown() returns (thrown: Option<StatsError>)
      modifies this
      ensures var d := DurationSeconds(old(Snapshot()));
        && (d.Failure? ==> thrown == Some(d.error) && Snapshot() == old(Snapshot()) && writerOpen == old(writerOpen))
        && (d.Success? ==>
              && thrown.None? && !writerOpen
              && Snapshot() == old(Snapshot()).(lines := if old(writerOpen) then Flushed(old(Snapshot())) else old(lines)))
    {
      var duration := PrintResults();
      if duration.Failure? {
        return Some(duration.error);
      }
      if !writerOpen {
        return None;
      }
      if lastTimeSlice.Some? {
        lines := lines + [SliceLine(lastTimeSlice.value, timeSliceBlockCnt)];
      }
      writerOpen := false;
      return None;
    }
  }

  // ---------------------------------------------------------------------------------------------
  // Properties

  /** Java's long division truncates toward zero: the whole seconds, as milliseconds, lie
      between 0 and the duration, less than a second away from it. */
  lemma WholeSecondsBounds(millis: int)
    ensures millis >= 0 ==> 0 <= WholeSeconds(millis) * 1000 <= millis < WholeSeconds(millis) * 1000 + 1000
    ensures millis < 0 ==> millis <= WholeSeconds(millis) * 1000 <= 0 && WholeSeconds(millis) * 1000 < millis + 1000
  {
  }

  /** The blocks of the window, in order. */
  function WindowBlocks(startBlock: int, endBlock: int, blocks: seq<Block>): (r: seq<Block>)
    ensures |r| <= |blocks|
    ensures forall b <- r :: b in blocks && InWindow(startBlock, endBlock, b.sequenceNo)
  {
    if blocks == [] then []
    else (if InWindow(startBlock, endBlock, blocks[0].sequenceNo) then [blocks[0]] else [])
         + WindowBlocks(startBlock, endBlock, blocks[1..])
  }

  function SumRevisions(blocks: seq<Block>): nat {
    if blocks == [] then 0 else RevisionsCounted(blocks[0]) + SumRevisions(blocks[1..])
  }

  /** A block outside the window changes nothing, so neither does a run of them. */
  lemma {:induction false} VisitAllOutsideWindow(startBlock: int, endBlock: int, writerOpen: bool, s: Stats, blocks: seq<Block>)
    requires forall b <- blocks :: !InWindow(startBlock, endBlock, b.sequenceNo)
    ensures VisitAll(startBlock, endBlock, writerOpen, s, blocks) == Success(s)
    decreases |blocks|
  {
    if blocks != [] {
      assert blocks[0] in blocks;
      VisitAllOutsideWindow(startBlock, endBlock, writerOpen, s, blocks[1..]);
    }
  }

  /** After visiting blocks without an exception, `totalBlocks` has grown by the number of
      blocks in the window and `totalRevisions` by the revision entries they carry that have a
      `blockAddress`. */
  lemma {:induction false} VisitAllTotals(startBlock: int, endBlock: int, writerOpen: bool, s: Stats, blocks: seq<Block>)
    requires VisitAll(startBlock, endBlock, writerOpen, s, blocks).Success?
    ensures var r := VisitAll(startBlock, endBlock, writerOpen, s, blocks).value;
      var window := WindowBlocks(startBlock, endBlock, blocks);
      r.totalBlocks == s.totalBlocks + |window| && r.totalRevisions == s.totalRevisions + SumRevisions(window)
    decreases |blocks|
  {
    if blocks != [] {
      var next := Visited(startBlock, endBlock, writerOpen, s, blocks[0]).value;
      VisitAllTotals(startBlock, endBlock, writerOpen, next, blocks[1..]);
      var rest := WindowBlocks(startBlock, endBlock, blocks[1..]);
      if InWindow(startBlock, endBlock, blocks[0].sequenceNo) {
        assert WindowBlocks(startBlock, endBlock, blocks) == [blocks[0]] + rest;
        assert ([blocks[0]] + rest)[1..] == rest;
      } else {
        assert WindowBlocks(startBlock, endBlock, blocks) == rest;
      }
    }
  }

  /** The time of the first block of the window whose timestamp is not null. */
  function FirstKnownTime(startBlock: int, endBlock: int, blocks: seq<Block>): Option<int> {
    if blocks == [] then None
    else if InWindow(startBlock, endBlock, blocks[0].sequenceNo) && BlockTime(blocks[0].blockTimestamp).Success?
            && BlockTime(blocks[0].blockTimestamp).value.Some? then BlockTime(blocks[0].blockTimestamp).value
    else FirstKnownTime(startBlock, endBlock, blocks[1..])
  }

  /** `startBlockTime`, once set, keeps the time of the first block that set it. */
  lemma {:induction false} VisitAllStartTime(startBlock: int, endBlock: int, writerOpen: bool, s: Stats, blocks: seq<Block>)
    requires VisitAll(startBlock, endBlock, writerOpen, s, blocks).Success?
    ensures VisitAll(startBlock, endBlock, writerOpen, s, blocks).value.startBlockTime
         == (if s.startBlockTime.Some? then s.startBlockTime else FirstKnownTime(startBlock, endBlock, blocks))
    decreases |blocks|
  {
    if blocks != [] {
      var next := Visited(startBlock, endBlock, writerOpen, s, blocks[0]).value;
      VisitAllStartTime(startBlock, endBlock, writerOpen, next, blocks[1..]);
    }
  }

  /** `endBlockTime` is the time of the last block of the window, whatever it was. */
  lemma {:induction false} VisitAllEndTime(startBlock: int, endBlock: int, writerOpen: bool, s: Stats, blocks: seq<Block>)
    requires VisitAll(startBlock, endBlock, writerOpen, s, blocks).Success?
    ensures var r := VisitAll(startBlock, endBlock, writerOpen, s, blocks).value;
      var window := WindowBlocks(startBlock, endBlock, blocks);
      && (window == [] ==> r.endBlockTime == s.endBlockTime)
      && (window != [] ==> var t := BlockTime(window[|window| - 1].blockTimestamp);
                            t.Success? && r.endBlockTime == t.value)
    decreases |blocks|
  {
    if blocks != [] {
      var next := Visited(startBlock, endBlock, writerOpen, s, blocks[0]).value;
      VisitAllEndTime(startBlock, endBlock, writerOpen, next, blocks[1..]);
      var rest := WindowBlocks(startBlock, endBlock, blocks[1..]);
      if InWindow(startBlock, endBlock, blocks[0].sequenceNo) {
        assert WindowBlocks(startBlock, endBlock, blocks) == [blocks[0]] + rest;
      } else {
        assert WindowBlocks(startBlock, endBlock, blocks) == rest;
      }
    }
  }

  // The slice lines are the run-length encoding of the slices of the visited blocks.

  function Repeat(x: int, n: int): (r: seq<int>)
    ensures |r| == if n <= 0 then 0 else n
    ensures forall y <- r :: y == x
  {
    if n <= 0 then [] else Repeat(x, n - 1) + [x]
  }

  /** The slices the lines stand for, each repeated as many times as its count. */
  function Expand(lines: seq<SliceLine>): seq<int> {
    if lines == [] then [] else Expand(lines[..|lines| - 1]) + Repeat(lines[|lines| - 1].slice, lines[|lines| - 1].count)
  }

  /** `lines` is the run-length encoding of `keys`: it expands to them, every count is positive
      and no two neighbouring lines have the same slice. */
  predicate RunLengths(lines: seq<SliceLine>, keys: seq<int>) {
    && Expand(lines) == keys
    && (forall i | 0 <= i < |lines| :: lines[i].count >= 1)
    && (forall i | 0 < i < |lines| :: lines[i - 1].slice != lines[i].slice)
  }

  /** No lines are written before a slice is open. */
  predicate BucketsValid(s: Stats) {
    s.lastTimeSlice.None? ==> s.lines == []
  }

  /** The slices of the window's blocks that have a time. */
  function SliceKeys(startBlock: int, endBlock: int, blocks: seq<Block>): seq<int> {
    if blocks == [] then []
    else BlockSlice(startBlock, endBlock, blocks[0]) + SliceKeys(startBlock, endBlock, blocks[1..])
  }

  /** The slice of one block, if it is in the window and has a time. */
  function BlockSlice(startBlock: int, endBlock: int, b: Block): seq<int> {
    var t := BlockTime(b.blockTimestamp);
    if InWindow(startBlock, endBlock, b.sequenceNo) && t.Success? && t.value.Some? then [SliceOf(t.value.value)] else []
  }

  lemma BucketRunLengths(s: Stats, slice: int, keys: seq<int>)
    requires BucketsValid(s) && RunLengths(Flushed(s), keys)
    ensures BucketsValid(Bucket(s, slice)) && RunLengths(Flushed(Bucket(s, slice)), keys + [slice])
  {
    if s.lastTimeSlice.None? {
      BucketOpens(s, slice, keys);
    } else if s.lastTimeSlice.value == slice {
      BucketGrows(s, slice, keys);
    } else {
      BucketMoves(s, slice, keys);
    }
  }

  /** The first slice opens with a count of 1. */
  lemma BucketOpens(s: Stats, slice: int, keys: seq<int>)
    requires BucketsValid(s) && RunLengths(Flushed(s), keys) && s.lastTimeSlice.None?
    ensures BucketsValid(Bucket(s, slice)) && RunLengths(Flushed(Bucket(s, slice)), keys + [slice])
  {
    assert Flushed(s) == [] && keys == [];
    assert Flushed(Bucket(s, slice)) == [SliceLine(slice, 1)];
    assert Expand([SliceLine(slice, 1)]) == Expand([]) + Repeat(slice, 1);
  }

  /** The open slice again: its count grows by one. */
  lemma BucketGrows(s: Stats, slice: int, keys: seq<int>)
    requires BucketsValid(s) && RunLengths(Flushed(s), keys) && s.lastTimeSlice == Some(slice)
    ensures BucketsValid(Bucket(s, slice)) && RunLengths(Flushed(Bucket(s, slice)), keys + [slice])
  {
    var b := Bucket(s, slice);
    var n := s.timeSliceBlockCnt;
    assert Flushed(s) == s.lines + [SliceLine(slice, n)];
    assert Flushed(b) == s.lines + [SliceLine(slice, n + 1)];
    assert Flushed(s)[..|Flushed(s)| - 1] == s.lines;
    assert Flushed(b)[..|Flushed(b)| - 1] == s.lines;
    assert Expand(Flushed(s)) == Expand(s.lines) + Repeat(slice, n);
    assert Expand(Flushed(b)) == Expand(s.lines) + (Repeat(slice, n) + [slice]);
    assert Flushed(s)[|Flushed(s)| - 1].count == n;
  }

  /** Another slice: the open one is written and the new one opens with a count of 1. */
  lemma BucketMoves(s: Stats, slice: int, keys: seq<int>)
    requires BucketsValid(s) && RunLengths(Flushed(s), keys)
    requires s.lastTimeSlice.Some? && s.lastTimeSlice.value != slice
    ensures BucketsValid(Bucket(s, slice)) && RunLengths(Flushed(Bucket(s, slice)), keys + [slice])
  {
    var f := Flushed(s);
    assert f == s.lines + [SliceLine(s.lastTimeSlice.value, s.timeSliceBlockCnt)];
    assert Flushed(Bucket(s, slice)) == f + [SliceLine(slice, 1)];
    assert (f + [SliceLine(slice, 1)])[..|f|] == f;
    assert Expand(f + [SliceLine(slice, 1)]) == Expand(f) + Repeat(slice, 1);
  }

  /** One block's step of `VisitAllRunLengths`. */
  lemma VisitedRunLengths(startBlock: int, endBlock: int, s: Stats, b: Block, keys: seq<int>)
    requires BucketsValid(s) && RunLengths(Flushed(s), keys)
    requires Visited(startBlock, endBlock, true, s, b).Success?
    ensures var next := Visited(startBlock, endBlock, true, s, b).value;
      BucketsValid(next) && RunLengths(Flushed(next), keys + BlockSlice(startBlock, endBlock, b))
  {
    var next := Visited(startBlock, endBlock, true, s, b).value;
    if InWindow(startBlock, endBlock, b.sequenceNo) {
      var t := BlockTime(b.blockTimestamp).value.value;
      BucketRunLengths(s, SliceOf(t), keys);
      assert Flushed(next) == Flushed(Bucket(s, SliceOf(t)));
    }
  }

  /** With an output file open, the lines written so far followed by the open slice are always
      the run-length encoding of the slices of the blocks visited. */
  lemma {:induction false} VisitAllRunLengths(startBlock: int, endBlock: int, s: Stats, blocks: seq<Block>, keys: seq<int>)
    requires BucketsValid(s) && RunLengths(Flushed(s), keys)
    requires VisitAll(startBlock, endBlock, true, s, blocks).Success?
    ensures var r := VisitAll(startBlock, endBlock, true, s, blocks).value;
      BucketsValid(r) && RunLengths(Flushed(r), keys + SliceKeys(startBlock, endBlock, blocks))
    decreases |blocks|
  {
    if blocks != [] {
      var next := Visited(startBlock, endBlock, true, s, blocks[0]).value;
      var first := BlockSlice(startBlock, endBlock, blocks[0]);
      var rest := SliceKeys(startBlock, endBlock, blocks[1..]);
      VisitedRunLengths(startBlock, endBlock, s, blocks[0], keys);
      assert VisitAll(startBlock, endBlock, true, s, blocks) == VisitAll(startBlock, endBlock, true, next, blocks[1..]);
      VisitAllRunLengths(startBlock, endBlock, next, blocks[1..], keys + first);
      assert SliceKeys(startBlock, endBlock, blocks) == first + rest;
      RunLengthsRegroup(Flushed(VisitAll(startBlock, endBlock, true, next, blocks[1..]).value), keys, first, rest);
    } else {
      assert keys + SliceKeys(startBlock, endBlock, blocks) == keys;
    }
  }

  lemma RunLengthsRegroup(lines: seq<SliceLine>, keys: seq<int>, first: seq<int>, rest: seq<int>)
    requires RunLengths(lines, (keys + first) + rest)
    ensures RunLengths(lines, keys + (first + rest))
  {
    assert (keys + first) + rest == keys + (first + rest);
  }

  /** Blocks at T, T, T+1 and T+3 seconds write (T, 2) and (T+1, 1) and leave (T+3, 1) open;
      teardown then writes that last line. */
  lemma BucketExample()
    ensures var t := 1563311055000;
      var blocks := [Block(1, IonTimestamp(t + 12), None, None), Block(2, IonTimestamp(t + 999), None, None),
                     Block(3, IonTimestamp(t + 1000), None, None), Block(4, IonTimestamp(t + 3456), None, None)];
      var r := VisitAll(-1, -1, true, Initial, blocks);
      && r.Success?
      && r.value.lines == [SliceLine(t, 2), SliceLine(t + 1000, 1)]
      && r.value.lastTimeSlice == Some(t + 3000) && r.value.timeSliceBlockCnt == 1
      && Flushed(r.value) == [SliceLine(t, 2), SliceLine(t + 1000, 1), SliceLine(t + 3000, 1)]
  {
    var t := 1563311055000;
    var b1, b2, b3, b4 := Block(1, IonTimestamp(t + 12), None, None), Block(2, IonTimestamp(t + 999), None, None),
                          Block(3, IonTimestamp(t + 1000), None, None), Block(4, IonTimestamp(t + 3456), None, None);
    assert SliceOf(t + 12) == t && SliceOf(t + 999) == t && SliceOf(t + 1000) == t + 1000 && SliceOf(t + 3456) == t + 3000;
    var s1 := Visited(-1, -1, true, Initial, b1).value;
    var s2 := Visited(-1, -1, true, s1, b2).value;
    var s3 := Visited(-1, -1, true, s2, b3).value;
    var s4 := Visited(-1, -1, true, s3, b4).value;
    assert s1.lastTimeSlice == Some(t) && s1.timeSliceBlockCnt == 1 && s1.lines == [];
    assert s2.lastTimeSlice == Some(t) && s2.timeSliceBlockCnt == 2 && s2.lines == [];
    assert s3.lastTimeSlice == Some(t + 1000) && s3.timeSliceBlockCnt == 1 && s3.lines == [SliceLine(t, 2)];
    assert s4.lines == [SliceLine(t, 2), SliceLine(t + 1000, 1)];
    assert VisitAll(-1, -1, true, s4, []) == Success(s4);
    assert VisitAll(-1, -1, true, s3, [b4]) == Success(s4) by { assert [b4][1..] == []; }
    assert VisitAll(-1, -1, true, s2, [b3, b4]) == Success(s4) by { assert [b3, b4][1..] == [b4]; }
    assert VisitAll(-1, -1, true, s1, [b2, b3, b4]) == Success(s4) by { assert [b2, b3, b4][1..] == [b3, b4]; }
    assert VisitAll(-1, -1, true, Initial, [b1, b2, b3, b4]) == Success(s4) by {
      assert [b1, b2, b3, b4][1..] == [b2, b3, b4];
    }
  }

  /** A time whose milliseconds field is below 1000 has that field as its remainder. */
  lemma LenientRemainder(year: int, month: int, day: int, hour: int, minute: int, second: int, milli: int)
    requires 0 <= milli < 1000
    ensures LenientMillis(year, month, day, hour, minute, second, milli) % 1000 == milli
  {
    var months := year * 12 + (month - 1);
    var days := DaysFromCivil(months / 12, months % 12 + 1) + (day - 1);
    var whole := days * 86400 + hour * 3600 + minute * 60 + second;
    assert LenientMillis(year, month, day, hour, minute, second, milli) == whole * 1000 + milli;
    ModOfMultiplePlus(whole, milli);
  }

  /** The milliseconds field of the text is the remainder of the parsed time, so the slice of a
      parsed time is the same text with `.000`. */
  lemma ParsedMilliseconds(s: string)
    requires IsUtcTimestampText(s)
    ensures ParseUtcTimestamp(s).value % 1000 == FieldValue(s, 20, 23)
    ensures SliceOf(ParseUtcTimestamp(s).value) == ParseUtcTimestamp(s).value - FieldValue(s, 20, 23)
  {
    ThreeDigitsBound(s[20..23]);
    LenientRemainder(FieldValue(s, 0, 4), FieldValue(s, 5, 7), FieldValue(s, 8, 10),
                     FieldValue(s, 11, 13), FieldValue(s, 14, 16), FieldValue(s, 17, 19),
                     FieldValue(s, 20, 23));
  }

  lemma ThreeDigitsBound(s: string)
    requires |s| == 3 && AllDigits(s)
    ensures DigitsValue(s) < 1000
  {
    assert s[..2][..1] == s[..1] && s[..1][..0] == [];
    assert IsDigit(s[0]) && IsDigit(s[1]) && IsDigit(s[2]);
    var x := DigitsValue(s[..1]);
    assert x == DigitsValue(s[..1][..0]) * 10 + (s[..1][0] as int - '0' as int);
    assert DigitsValue(s[..1][..0]) == 0;
    assert x <= 9;
    var y := DigitsValue(s[..2]);
    assert y == x * 10 + (s[1] as int - '0' as int);
    assert y <= 99;
    assert DigitsValue(s) == y * 10 + (s[2] as int - '0' as int);
  }

  lemma ModOfMultiplePlus(q: int, r: int)
    requires 0 <= r < 1000
    ensures (q * 1000 + r) % 1000 == r
  {
  }

  /** The first days of two months, counted from the epoch. */
  lemma CivilDays()
    ensures DaysFromCivil(1970, 1) == 0
    ensures DaysFromCivil(2019, 7) == 18078
  {
    assert 1969 / 400 == 4 && 369 / 4 == 92 && 369 / 100 == 3 && (153 * 10 + 2) / 5 == 306;
    assert 2019 / 400 == 5 && 19 / 4 == 4 && 19 / 100 == 0 && (153 * 4 + 2) / 5 == 122;
  }

  /** The epoch is instant 0 of the calendar arithmetic. */
  lemma EpochIsZero()
    ensures LenientMillis(1970, 1, 1, 0, 0, 0, 0) == 0
  {
    CivilDays();
    assert (1970 * 12) / 12 == 1970 && (1970 * 12) % 12 == 0;
  }

  /** 2019-07-16T21:04:15.123Z is 1563311055123 milliseconds after the epoch. */
  lemma CalendarExample()
    ensures LenientMillis(2019, 7, 16, 21, 4, 15, 123) == 1563311055123
  {
    CivilDays();
    assert (2019 * 12 + 6) / 12 == 2019 && (2019 * 12 + 6) % 12 == 6;
    assert 18093 * 86400000 == 1563235200000;
  }

  /** The lenient calendar rolls a thirteenth month into January of the next year. */
  lemma LenientMonthRollOver(year: int, day: int, hour: int, minute: int, second: int, milli: int)
    ensures LenientMillis(year, 13, day, hour, minute, second, milli) == LenientMillis(year + 1, 1, day, hour, minute, second, milli)
  {
    assert year * 12 + 12 == (year + 1) * 12;
  }

  /** The lenient calendar rolls the 32nd of January into the 1st of February. */
  lemma LenientDayRollOver(year: int, hour: int, minute: int, second: int, milli: int)
    ensures LenientMillis(year, 1, 32, hour, minute, second, milli) == LenientMillis(year, 2, 1, hour, minute, second, milli)
  {
    assert (year * 12) / 12 == year && (year * 12) % 12 == 0;
    assert (year * 12 + 1) / 12 == year && (year * 12 + 1) % 12 == 1;
    assert DaysFromCivil(year, 2) == DaysFromCivil(year, 1) + 31;
  }

  /** A string with a space where the `T` belongs does not parse. */
  lemma ParseRejectsSpace()
    ensures ParseUtcTimestamp("2019-07-16 21:04:15.123Z") == None
  {
    assert "2019-07-16 21:04:15.123Z"[10] == ' ';
  }
}
