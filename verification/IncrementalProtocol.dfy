/** The incremental protocol as a step machine over source, lake, watermark row and the one
    running tick, and the question whether a row can slip past the watermark. */
module IncrementalProtocol {
  import opened Prelude
  import opened Rows
  import opened Merge
  import opened Marks
  import opened Incremental

  /** `lag`: a row becomes visible at most `lag` units after the instant it is stamped with.
      `zone`: offset from UTC of the clock that stamps a naive or date column. `keyOrdered`: rows of an
      integer-watermarked table become visible in (watermark, id) order. */
  datatype Config = Config(kind: Kind, settings: Settings, lag: nat, zone: int, keyOrdered: bool, dedupe: bool)

  /** `Merging` holds the window bounds, the snapshot they were applied to, the rows of the
      parquet file still to be merged and the mark to be stored at the end. */
  datatype Tick =
    | Idle
    | Began(now: int)
    | Merging(bounds: Bounds, snap: map<int, Row>, file: seq<Row>, next: Mark)

  /** `high` is the greatest (stamp, id) ever visible in the source. */
  datatype State = State(clock: int, source: map<int, Row>, high: Mark, lake: seq<Row>, mark: Option<Mark>, tick: Tick)

  datatype Step =
    | Pass(clock: int)                                            // time goes by
    | Commit(writes: map<int, Row>, gone: set<int>, high: Mark)   // a source transaction becomes visible
    | Begin                                                       // the op takes `now`
    | Read(file: seq<Row>, next: Mark)                            // COPY from one snapshot, upload
    | MergeBatch(rows: nat)                                       // one atomic overwrite
    | Store                                                       // set_watermark
    | Crash                                                       // the attempt dies; a retry starts over

  function WindowOverlap(c: Config): int {
    Overlap(c.kind, c.settings)
  }

  // ---------------------------------------------------------------- the environment

  ghost predicate WellKeyed(m: map<int, Row>) {
    forall k :: k in m ==> m[k].id == Some(k)
  }

  /** The least stamp a transaction that becomes visible at `clock` can carry. */
  function Floor(c: Config, clock: int): int {
    match c.kind
    case TimestampTz => clock - c.lag
    case TimestampNaive => clock + c.zone - c.lag
    case Date => FloorDay(clock + c.zone - c.lag)
    case Integer => 0
  }

  /** May a row with this mark become visible now? NULL stamps are always possible. */
  predicate MayAppear(c: Config, s: State, m: Mark) {
    match c.kind
    case TimestampTz => Floor(c, s.clock) <= m.value
    case TimestampNaive => Floor(c, s.clock) <= m.value <= s.clock + c.zone
    case Date => Floor(c, s.clock) <= m.value
    case Integer => c.keyOrdered ==> Lt(s.high, m)
  }

  ghost predicate CommitAllowed(c: Config, s: State, writes: map<int, Row>, high: Mark) {
    && WellKeyed(writes)
    && Le(s.high, high)
    && (forall k :: k in writes && writes[k].stamp.Some? ==>
                      MayAppear(c, s, MarkOf(writes[k])) && Le(MarkOf(writes[k]), high))
    && (high == s.high || exists k :: k in writes && writes[k].stamp.Some? && MarkOf(writes[k]) == high)
  }

  /** `file` is the COPY result: each selected row of the snapshot once, in (c, id) order. */
  ghost predicate IsCopyOf(file: seq<Row>, snap: map<int, Row>, b: Bounds, lastId: int) {
    && DistinctKeys(file)
    && Ordered(file)
    && (forall r :: r in file ==> FromSnapshot(r, snap) && Selected(r, b, lastId))
    && (forall k :: k in snap && Selected(snap[k], b, lastId) ==> snap[k] in file)
  }

  ghost predicate FromSnapshot(r: Row, snap: map<int, Row>) {
    r.id.Some? && r.id.value in snap && snap[r.id.value] == r
  }

  // ---------------------------------------------------------------- steps and runs

  ghost predicate Enabled(c: Config, s: State, step: Step) {
    match step
    case Pass(t) => s.clock <= t
    case Commit(writes, gone, high) => CommitAllowed(c, s, writes, high)
    case Begin => s.tick.Idle?
    case Read(file, next) =>
      && s.tick.Began?
      && var wm := Current(s.mark);
         var b := BoundsFor(c.kind, wm, s.tick.now, c.settings);
         && IsCopyOf(file, s.source, b, wm.lastId)
         && Stamped(file)
         && IsNextMark(wm, b, file, next)
    case MergeBatch(n) => s.tick.Merging? && 1 <= n <= |s.tick.file|
    case Store => s.tick.Merging? && s.tick.file == []
    case Crash => !s.tick.Idle?
  }

  ghost function Apply(c: Config, s: State, step: Step): State
    requires Enabled(c, s, step)
  {
    match step
    case Pass(t) => s.(clock := t)
    case Commit(writes, gone, high) => s.(source := s.source - gone + writes, high := high)
    case Begin => s.(tick := Began(s.clock))
    case Read(file, next) =>
      s.(tick := Merging(BoundsFor(c.kind, Current(s.mark), s.tick.now, c.settings), s.source, file, next))
    case MergeBatch(n) =>
      s.(lake := Upsert(s.lake, s.tick.file[..n], c.dedupe), tick := s.tick.(file := s.tick.file[n..]))
    case Store => s.(mark := Advance(s.mark, s.tick.next), tick := Idle)
    case Crash => s.(tick := Idle)
  }

  ghost predicate Possible(c: Config, s: State, steps: seq<Step>)
    decreases |steps|
  {
    steps != [] ==> Enabled(c, s, steps[0]) && Possible(c, Apply(c, s, steps[0]), steps[1..])
  }

  ghost function Run(c: Config, s: State, steps: seq<Step>): State
    requires Possible(c, s, steps)
    decreases |steps|
  {
    if steps == [] then s else Run(c, Apply(c, s, steps[0]), steps[1..])
  }

  // ---------------------------------------------------------------- what must hold

  /** The lake has `r`, and nothing else, under r's key (in however many copies). */
  ghost predicate Holds(lake: seq<Row>, r: Row) {
    r in lake && forall x :: x in lake && x.id == r.id ==> x == r
  }

  /** The mark below which a later window never looks again. */
  function Bound(c: Config, m: Mark): Mark {
    Mark(m.value - WindowOverlap(c), m.lastId)
  }

  predicate AtOrBelow(c: Config, m: Mark, r: Row) {
    r.stamp.Some? && r.id.Some? && Le(MarkOf(r), Bound(c, m))
  }

  /** Every source row no later window will select is in the lake at its current version. */
  ghost predicate Covered(c: Config, s: State) {
    forall k :: k in s.source && AtOrBelow(c, Current(s.mark), s.source[k]) ==> Holds(s.lake, s.source[k])
  }

  /** The exact condition on the settings and the source. */
  predicate Safe(c: Config) {
    match c.kind
    case TimestampTz => c.settings.overlap > 0 && c.lag < c.settings.gap * US + WindowOverlap(c)
    case TimestampNaive => c.lag < WindowOverlap(c)
    case Date => c.lag - c.zone - c.settings.gap * US <= (WindowOverlap(c) - 1) * DAY_US
    case Integer => c.keyOrdered
  }

  /** Nothing that is still to become visible can fall at or below the bound of `m`. */
  ghost predicate Ahead(c: Config, s: State, m: Mark) {
    if c.kind.Integer? then Le(m, s.high) else Bound(c, m).value < Floor(c, s.clock)
  }

  /** The stamps seen so far: not in the future of a naive column's clock, not above `high`. */
  ghost predicate VisibleStamps(c: Config, s: State) {
    forall k :: k in s.source && s.source[k].stamp.Some? && s.source[k].id.Some? ==>
                  && Le(MarkOf(s.source[k]), s.high)
                  && (c.kind.TimestampNaive? ==> s.source[k].stamp.value <= s.clock + c.zone)
  }

  ghost predicate SourceOk(c: Config, s: State) {
    WellKeyed(s.source) && VisibleStamps(c, s)
  }

  /** A covered start: no tick running, coverage, and a mark that is not ahead of the source. */
  ghost predicate Start(c: Config, s: State) {
    s.tick.Idle? && SourceOk(c, s) && Covered(c, s) && Ahead(c, s, Current(s.mark))
  }

  /** A source row is as the tick saw it, or it lies above both bounds. */
  ghost predicate SeenOrNew(c: Config, s: State, k: int)
    requires s.tick.Merging? && k in s.source
  {
    || (k in s.tick.snap && s.tick.snap[k] == s.source[k])
    || (!AtOrBelow(c, Current(s.mark), s.source[k]) && !AtOrBelow(c, s.tick.next, s.source[k]))
  }

  ghost predicate WindowPending(s: State)
    requires s.tick.Merging?
  {
    var t := s.tick;
    && WellKeyed(t.snap)
    && DistinctKeys(t.file)
    && (forall r :: r in t.file ==> FromSnapshot(r, t.snap))
    && (forall k :: k in t.snap && Selected(t.snap[k], t.bounds, Current(s.mark).lastId) ==>
                      t.snap[k] in t.file || Holds(s.lake, t.snap[k]))
  }

  ghost predicate MergeInv(c: Config, s: State)
    requires s.tick.Merging?
  {
    var t := s.tick;
    var wm := Current(s.mark);
    && WindowPending(s)
    && (forall k :: k in s.source ==> SeenOrNew(c, s, k))
    && (forall k :: k in t.snap && AtOrBelow(c, t.next, t.snap[k]) && !AtOrBelow(c, wm, t.snap[k]) ==>
                      Selected(t.snap[k], t.bounds, wm.lastId))
    && Ahead(c, s, t.next)
  }

  ghost predicate Inv(c: Config, s: State) {
    && SourceOk(c, s)
    && Covered(c, s)
    && Ahead(c, s, Current(s.mark))
    && (s.tick.Began? ==> s.tick.now <= s.clock)
    && (s.tick.Merging? ==> MergeInv(c, s))
  }

  // ---------------------------------------------------------------- preservation, step by step

  lemma FloorGrows(c: Config, a: int, b: int)
    requires a <= b
    ensures Floor(c, a) <= Floor(c, b)
  {
    if c.kind.Date? {
      FloorDayGrows(a + c.zone - c.lag, b + c.zone - c.lag);
    }
  }

  lemma FloorDayGrows(a: int, b: int)
    requires a <= b
    ensures FloorDay(a) <= FloorDay(b)
  {}

  /** Rows that become visible now lie above every mark that is not ahead of the source. */
  lemma NewRowsAbove(c: Config, s: State, m: Mark, r: Row)
    requires Safe(c) && Ahead(c, s, m)
    requires r.stamp.Some? && r.id.Some? && MayAppear(c, s, MarkOf(r))
    ensures !AtOrBelow(c, m, r)
  {}

  lemma PassKeepsInv(c: Config, s: State, t: int)
    requires Safe(c) && Inv(c, s) && Enabled(c, s, Pass(t))
    ensures Inv(c, Apply(c, s, Pass(t)))
  {
    FloorGrows(c, s.clock, t);
    var s' := Apply(c, s, Pass(t));
    assert forall k :: k in s.source && s.tick.Merging? && SeenOrNew(c, s, k) ==> SeenOrNew(c, s', k);
  }

  lemma CommitKeepsInv(c: Config, s: State, step: Step)
    requires step.Commit? && Safe(c) && Inv(c, s) && Enabled(c, s, step)
    ensures Inv(c, Apply(c, s, step))
  {
    var s' := Apply(c, s, step);
    forall k | k in s'.source
      ensures !AtOrBelow(c, Current(s.mark), s'.source[k]) || (k in s.source && s.source[k] == s'.source[k])
      ensures s.tick.Merging? ==> SeenOrNew(c, s', k)
    {
      if k in step.writes {
        if step.writes[k].stamp.Some? {
          NewRowsAbove(c, s, Current(s.mark), step.writes[k]);
          if s.tick.Merging? {
            NewRowsAbove(c, s, s.tick.next, step.writes[k]);
          }
        }
      } else if s.tick.Merging? {
        assert SeenOrNew(c, s, k);
      }
    }
  }

  /** With a safe configuration, everything between the old and the new bound is in the window. */
  lemma WindowReachesNext(c: Config, wm: Mark, b: Bounds, now: int, file: seq<Row>, next: Mark, snap: map<int, Row>, k: int)
    requires Safe(c) && WellKeyed(snap) && k in snap
    requires b == BoundsFor(c.kind, wm, now, c.settings)
    requires IsCopyOf(file, snap, b, wm.lastId) && Stamped(file) && IsNextMark(wm, b, file, next)
    requires AtOrBelow(c, next, snap[k]) && !AtOrBelow(c, wm, snap[k])
    ensures Selected(snap[k], b, wm.lastId)
  {
    assert Overlap(c.kind, c.settings) >= 0;
    if b.Window? && b.hi.Some? && file != [] && next != wm {
      var r :| r in file && MarkOf(r) == next;
      assert Selected(r, b, wm.lastId);
    }
  }

  /** The new mark is not ahead of what can still become visible. */
  lemma NextIsAhead(c: Config, s: State, b: Bounds, file: seq<Row>, next: Mark)
    requires Safe(c) && SourceOk(c, s) && Ahead(c, s, Current(s.mark))
    requires s.tick.Began? && s.tick.now <= s.clock
    requires b == BoundsFor(c.kind, Current(s.mark), s.tick.now, c.settings)
    requires IsCopyOf(file, s.source, b, Current(s.mark).lastId) && Stamped(file)
    requires IsNextMark(Current(s.mark), b, file, next)
    ensures Ahead(c, s, next)
  {
    if next != Current(s.mark) && b.Window? {
      if file != [] {
        var r :| r in file && MarkOf(r) == next;
        assert FromSnapshot(r, s.source) && Selected(r, b, Current(s.mark).lastId);
      }
      if c.kind.Date? {
        DayBoundBehindFloor(c, s.tick.now, s.clock);
      }
    }
  }

  lemma DayBoundBehindFloor(c: Config, now: int, clock: int)
    requires Safe(c) && c.kind.Date? && now <= clock
    ensures FloorDay(now - c.settings.gap * US) - WindowOverlap(c) < Floor(c, clock)
  {
    var days := WindowOverlap(c);
    var x := now - c.settings.gap * US;
    FloorDayGrows(x - (days - 1) * DAY_US, clock + c.zone - c.lag);
    assert (x - (days - 1) * DAY_US) / DAY_US == x / DAY_US - (days - 1);
  }

  lemma ReadKeepsInv(c: Config, s: State, step: Step)
    requires step.Read? && Safe(c) && Inv(c, s) && Enabled(c, s, step)
    ensures Inv(c, Apply(c, s, step))
  {
    var s' := Apply(c, s, step);
    var wm := Current(s.mark);
    var b := s'.tick.bounds;
    NextIsAhead(c, s, b, step.file, step.next);
    forall k | k in s.source && AtOrBelow(c, step.next, s.source[k]) && !AtOrBelow(c, wm, s.source[k])
      ensures Selected(s.source[k], b, wm.lastId)
    {
      WindowReachesNext(c, wm, b, s.tick.now, step.file, step.next, s.source, k);
    }
    assert forall k :: k in s'.source ==> SeenOrNew(c, s', k);
  }

  /** An upsert makes each of its rows the only row of its key... */
  lemma UpsertPlaces(lake: seq<Row>, w: seq<Row>, dedupe: bool, r: Row)
    requires Keyed(w) && DistinctKeys(w) && r in w
    ensures Holds(Upsert(lake, w, dedupe), r)
  {
    DistinctIsNewest(w);
    UpsertMerges(lake, w, dedupe);
    var after := Upsert(lake, w, dedupe);
    KeyOf(w, r);
    assert multiset(after)[r] == 1;
    forall x | x in after && x.id == r.id
      ensures x == r
    {
      assert multiset(after)[x] > 0;
      assert Newest(w, x) && Newest(w, r);
      assert x.stamp == r.stamp;
    }
  }

  /** ... and leaves other keys alone. */
  lemma UpsertSpares(lake: seq<Row>, w: seq<Row>, dedupe: bool, r: Row)
    requires Keyed(w) && DistinctKeys(w) && r.id.Some?
    requires r.id.value !in Keys(w) && Holds(lake, r)
    ensures Holds(Upsert(lake, w, dedupe), r)
  {
    DistinctIsNewest(w);
    UpsertMerges(lake, w, dedupe);
    var after := Upsert(lake, w, dedupe);
    assert multiset(after)[r] == multiset(lake)[r];
    forall x | x in after && x.id == r.id
      ensures x == r
    {
      assert multiset(after)[x] == multiset(lake)[x];
    }
  }

  lemma SliceDistinct(w: seq<Row>, n: nat)
    requires DistinctKeys(w) && n <= |w|
    ensures DistinctKeys(w[..n]) && DistinctKeys(w[n..])
    ensures forall r :: r in w <==> r in w[..n] || r in w[n..]
  {
    assert w == w[..n] + w[n..];
  }

  lemma MergeKeepsHeld(c: Config, s: State, n: nat, r: Row)
    requires s.tick.Merging? && WindowPending(s) && 1 <= n <= |s.tick.file|
    requires Holds(s.lake, r)
    requires FromSnapshot(r, s.tick.snap)
    ensures Holds(Upsert(s.lake, s.tick.file[..n], c.dedupe), r)
  {
    var batch := s.tick.file[..n];
    SliceDistinct(s.tick.file, n);
    if r.id.value in Keys(batch) {
      var x :| x in batch && x.id == r.id;
      assert FromSnapshot(x, s.tick.snap);
      UpsertPlaces(s.lake, batch, c.dedupe, r);
    } else {
      UpsertSpares(s.lake, batch, c.dedupe, r);
    }
  }

  lemma MergeKeepsPending(c: Config, s: State, n: nat)
    requires Enabled(c, s, MergeBatch(n)) && WindowPending(s)
    ensures WindowPending(Apply(c, s, MergeBatch(n)))
  {
    var t := s.tick;
    var s' := Apply(c, s, MergeBatch(n));
    var batch := t.file[..n];
    SliceDistinct(t.file, n);
    forall k | k in t.snap && Selected(t.snap[k], t.bounds, Current(s.mark).lastId)
      ensures t.snap[k] in s'.tick.file || Holds(s'.lake, t.snap[k])
    {
      var r := t.snap[k];
      if r in batch {
        UpsertPlaces(s.lake, batch, c.dedupe, r);
      } else if r !in s'.tick.file {
        MergeKeepsHeld(c, s, n, r);
      }
    }
  }

  lemma MergeKeepsInv(c: Config, s: State, n: nat)
    requires Safe(c) && Inv(c, s) && Enabled(c, s, MergeBatch(n))
    ensures Inv(c, Apply(c, s, MergeBatch(n)))
  {
    var s' := Apply(c, s, MergeBatch(n));
    MergeKeepsPending(c, s, n);
    forall k | k in s.source && AtOrBelow(c, Current(s.mark), s.source[k])
      ensures Holds(s'.lake, s.source[k])
    {
      assert SeenOrNew(c, s, k);
      MergeKeepsHeld(c, s, n, s.source[k]);
    }
    assert forall k :: k in s.source && SeenOrNew(c, s, k) ==> SeenOrNew(c, s', k);
  }

  lemma StoreKeepsInv(c: Config, s: State)
    requires Safe(c) && Inv(c, s) && Enabled(c, s, Store)
    ensures Inv(c, Apply(c, s, Store))
  {
    var s' := Apply(c, s, Store);
    var t := s.tick;
    forall k | k in s.source && AtOrBelow(c, Current(s'.mark), s.source[k])
      ensures Holds(s.lake, s.source[k])
    {
      assert SeenOrNew(c, s, k);
      if !AtOrBelow(c, Current(s.mark), s.source[k]) {
        assert t.snap[k] == s.source[k];
        assert Selected(t.snap[k], t.bounds, Current(s.mark).lastId);
        assert t.snap[k] !in t.file;
      }
    }
  }

  lemma StepKeepsInv(c: Config, s: State, step: Step)
    requires Safe(c) && Inv(c, s) && Enabled(c, s, step)
    ensures Inv(c, Apply(c, s, step))
  {
    match step
    case Pass(t) => PassKeepsInv(c, s, t);
    case Commit(_, _, _) => CommitKeepsInv(c, s, step);
    case Begin =>
    case Read(_, _) => ReadKeepsInv(c, s, step);
    case MergeBatch(n) => MergeKeepsInv(c, s, n);
    case Store => StoreKeepsInv(c, s);
    case Crash =>
  }

  lemma {:induction false} RunKeepsInv(c: Config, s: State, steps: seq<Step>)
    requires Safe(c) && Inv(c, s) && Possible(c, s, steps)
    ensures Inv(c, Run(c, s, steps))
    decreases |steps|
  {
    if steps != [] {
      StepKeepsInv(c, s, steps[0]);
      RunKeepsInv(c, Apply(c, s, steps[0]), steps[1..]);
    }
  }
}
