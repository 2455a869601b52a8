/** One incremental tick: window bounds, the extract loop, merge, and the watermark advance. */
module Incremental {
  import opened Prelude
  import opened Rows
  import opened Merge
  import opened Marks

  const US := 1_000_000                  // microseconds per second
  const DAY_US := 86_400 * US            // microseconds per day
  const MERGE_BATCH_ROWS := 200_000

  datatype Kind = TimestampTz | TimestampNaive | Date | Integer

  /** The two operator settings of the window, in seconds. */
  datatype Settings = Settings(overlap: nat, gap: nat)

  datatype Bounds = NoWindow | Window(lo: int, hi: Option<int>)

  function FloorDay(instant: int): int {
    instant / DAY_US
  }

  /** How far below the watermark the window reaches back. */
  function Overlap(kind: Kind, s: Settings): int {
    match kind
    case TimestampTz => s.overlap * US
    case TimestampNaive => s.overlap * US
    case Date => Max(1, (s.overlap + 86399) / 86400)
    case Integer => 0
  }

  function BoundsFor(kind: Kind, wm: Mark, now: int, s: Settings): Bounds {
    var lo := wm.value - Overlap(kind, s);
    match kind
    case TimestampTz =>
      var hi := now - s.gap * US;
      if hi <= lo then NoWindow else Window(lo, Some(hi))
    case TimestampNaive => Window(lo, None)
    case Date =>
      var hi := FloorDay(now - s.gap * US);
      if hi <= lo then NoWindow else Window(lo, Some(hi))
    case Integer => Window(lo, None)
  }

  /** The COPY predicate `(c, p) > (lo, last_id) [AND c < hi]`; a NULL `c` satisfies nothing. */
  predicate Selected(r: Row, b: Bounds, lastId: int) {
    && b.Window?
    && r.stamp.Some?
    && (b.lo < r.stamp.value || (b.lo == r.stamp.value && r.id.Some? && lastId < r.id.value))
    && (b.hi.Some? ==> r.stamp.value < b.hi.value)
  }

  /** The overlap of a date column: whole days covering the setting, at least one, no more. */
  ghost predicate OverlapDays(seconds: nat, days: int) {
    days >= 1 && seconds <= days * 86_400 && (days == 1 || (days - 1) * 86_400 < seconds)
  }

  predicate After(r: Row, lo: int, lastId: int) {
    r.stamp.Some? && (lo < r.stamp.value || (lo == r.stamp.value && r.id.Some? && lastId < r.id.value))
  }

  /** The window in the clock's unit and the settings' seconds: for times from the mark less the
      overlap up to now less the gap; for dates up to the last day that had ended by then. */
  ghost predicate InWindow(kind: Kind, wm: Mark, now: int, s: Settings, r: Row) {
    match kind
    case TimestampTz => After(r, wm.value - s.overlap * 1_000_000, wm.lastId) && r.stamp.value < now - s.gap * 1_000_000
    case TimestampNaive => After(r, wm.value - s.overlap * 1_000_000, wm.lastId)
    case Date =>
      && (exists days: int :: OverlapDays(s.overlap, days) && After(r, wm.value - days, wm.lastId))
      && (r.stamp.value + 1) * 86_400_000_000 <= now - s.gap * 1_000_000
    case Integer => After(r, wm.value, wm.lastId)
  }

  lemma OverlapDaysIs(seconds: nat, days: int)
    ensures OverlapDays(seconds, days) <==> days == Max(1, (seconds + 86399) / 86400)
  {}

  /** The instant lies in the day. */
  predicate OnDay(instant: int, day: int) {
    day * 86_400_000_000 <= instant < (day + 1) * 86_400_000_000
  }

  lemma OnDayIs(instant: int, day: int)
    ensures OnDay(instant, day) <==> day == FloorDay(instant)
  {}

  lemma DayEnded(day: int, instant: int)
    ensures day < FloorDay(instant) <==> (day + 1) * 86_400_000_000 <= instant
  {}

  /** MAIN: the bounds and the COPY predicate select exactly the window. */
  lemma WindowExactly(kind: Kind, wm: Mark, now: int, s: Settings, r: Row)
    ensures Selected(r, BoundsFor(kind, wm, now, s), wm.lastId) <==> InWindow(kind, wm, now, s, r)
  {
    if kind.Date? {
      OverlapDaysIs(s.overlap, Overlap(kind, s));
      forall days: int | OverlapDays(s.overlap, days)
        ensures days == Overlap(kind, s)
      {
        OverlapDaysIs(s.overlap, days);
      }
      if r.stamp.Some? {
        DayEnded(r.stamp.value, now - s.gap * US);
      }
    }
  }

  ghost predicate Stamped(s: seq<Row>) {
    forall r :: r in s ==> r.stamp.Some? && r.id.Some?
  }

  function MarkOf(r: Row): Mark
    requires r.stamp.Some? && r.id.Some?
  {
    Mark(r.stamp.value, r.id.value)
  }

  /** `m` is the lexicographic maximum of `start` and the rows of `s`. */
  ghost predicate IsMaxMark(start: Mark, s: seq<Row>, m: Mark)
    requires Stamped(s)
  {
    && Le(start, m)
    && (forall r :: r in s ==> Le(MarkOf(r), m))
    && (m == start || exists r :: r in s && MarkOf(r) == m)
  }

  /** The mark the tick asks for. An empty time-bounded window jumps to its upper bound. */
  ghost predicate IsNextMark(wm: Mark, b: Bounds, stream: seq<Row>, m: Mark)
    requires Stamped(stream)
  {
    if b.NoWindow? then m == wm
    else if stream != [] then IsMaxMark(wm, stream, m)
    else m == if b.hi.Some? then Mark(b.hi.value, wm.lastId) else wm
  }

  lemma MaxMarkUnique(start: Mark, s: seq<Row>, m: Mark, n: Mark)
    requires Stamped(s) && IsMaxMark(start, s, m) && IsMaxMark(start, s, n)
    ensures m == n
  {
    assert Le(m, n) && Le(n, m);
  }

  /** MAIN: where the mark goes when the window is empty: to now less the gap if that lies above the
      window's lower end, for dates to that day, for unbounded kinds nowhere. */
  lemma JumpExactly(kind: Kind, wm: Mark, now: int, s: Settings, m: Mark)
    ensures kind.TimestampTz? ==>
              (IsNextMark(wm, BoundsFor(kind, wm, now, s), [], m) <==>
               m == if wm.value - s.overlap * 1_000_000 < now - s.gap * 1_000_000 then Mark(now - s.gap * 1_000_000, wm.lastId) else wm)
    ensures kind.TimestampNaive? || kind.Integer? ==>
              (IsNextMark(wm, BoundsFor(kind, wm, now, s), [], m) <==> m == wm)
  {}

  lemma DateJumpExactly(wm: Mark, now: int, s: Settings, m: Mark, days: int, hi: int)
    requires OverlapDays(s.overlap, days) && OnDay(now - s.gap * 1_000_000, hi)
    ensures IsNextMark(wm, BoundsFor(Date, wm, now, s), [], m) <==>
            m == if wm.value - days < hi then Mark(hi, wm.lastId) else wm
  {
    OverlapDaysIs(s.overlap, days);
    OnDayIs(now - s.gap * 1_000_000, hi);
    var b := BoundsFor(Date, wm, now, s);
    assert b == if hi <= wm.value - days then NoWindow else Window(wm.value - days, Some(hi));
  }

  /** `Skipped`: no usable watermark column. Otherwise the parquet rows, if any, and the new mark. */
  datatype Outcome = Skipped | Pulled(file: Option<seq<Row>>, mark: Mark)

  /** `run_incremental`; `stream` is what the COPY delivers when it is executed. */
  method RunIncremental(kind: Option<Kind>, wm: Mark, now: int, s: Settings, rowGroupRows: int, stream: seq<Row>)
    returns (out: Outcome)
    requires Stamped(stream)
    ensures kind.None? ==> out == Skipped
    ensures kind.Some? ==>
              var b := BoundsFor(kind.value, wm, now, s);
              && out.Pulled?
              && out.file == (if b.NoWindow? || stream == [] then None else Some(stream))
              && IsNextMark(wm, b, stream, out.mark)
  {
    if kind.None? {
      return Skipped;
    }
    var b := BoundsFor(kind.value, wm, now, s);
    if b.NoWindow? {
      return Pulled(None, wm);
    }
    var rowsSeen, best := 0, wm;
    var written, batch: seq<Row> := [], [];
    for i := 0 to |stream|
      invariant rowsSeen == i
      invariant written + batch == stream[..i]
      invariant IsMaxMark(wm, stream[..i], best)
    {
      var row := stream[i];
      assert stream[..i + 1] == stream[..i] + [row];
      batch := batch + [row];
      rowsSeen := rowsSeen + 1;
      if Lt(best, MarkOf(row)) {
        best := MarkOf(row);
      }
      if |batch| >= rowGroupRows {
        written := written + batch;
        batch := [];
      }
    }
    assert stream[..|stream|] == stream;
    if |batch| > 0 {
      written := written + batch;
    }
    if rowsSeen == 0 {
      return Pulled(None, if b.hi.Some? then Mark(b.hi.value, wm.lastId) else wm);
    }
    assert written == stream;
    return Pulled(Some(written), best);
  }

  /** The lake table of one source table together with its watermark row. */
  class SyncedTable {
    const lake: LakeTable
    var mark: Option<Mark>

    constructor (lake: LakeTable)
      ensures this.lake == lake && mark == None
    {
      this.lake := lake;
      mark := None;
    }

    method SetWatermark(m: Mark)
      modifies this
      ensures mark == Advance(old(mark), m)
    {
      if mark.Some? {
        if Le(m, mark.value) {
          return;
        }
      }
      mark := Some(m);
    }

    /** `incremental_one_table`: extract, merge batch by batch, and only then advance. */
    method IncrementalOneTable(kind: Option<Kind>, now: int, s: Settings, rowGroupRows: int,
                               stream: seq<Row>, dedupe: bool) returns (rows: nat)
      requires Stamped(stream)
      modifies this, lake
      ensures kind.None? ==> rows == 0 && mark == old(mark) && lake.rows == old(lake.rows)
      ensures kind.Some? ==>
                var b := BoundsFor(kind.value, Current(old(mark)), now, s);
                var file := if b.NoWindow? then [] else stream;
                && lake.rows == UpsertAll(old(lake.rows), Batches(file, MERGE_BATCH_ROWS), dedupe)
                && rows == StagedTotal(Batches(file, MERGE_BATCH_ROWS), dedupe)
                && exists m :: IsNextMark(Current(old(mark)), b, stream, m) && mark == Advance(old(mark), m)
    {
      rows := 0;
      var out := RunIncremental(kind, Current(mark), now, s, rowGroupRows, stream);
      if out.Skipped? {
        return;
      }
      if out.file.Some? {
        var batches;
        rows, batches := MergeParquetBatched(lake, out.file.value, MERGE_BATCH_ROWS, dedupe);
      }
      SetWatermark(out.mark);
    }
  }
}
