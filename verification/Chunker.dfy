/** Planning the bootstrap chunks, and the COPY predicate that selects a chunk's rows. */
module Chunker {
  import opened Prelude
  import opened Rows
  import opened Incremental

  /** `day` counts days since the epoch; `partitioned` says that a partition column is set. */
  datatype Chunk = Chunk(chunkId: nat, lo: Option<int>, hi: Option<int>,
                         partitioned: bool, day: Option<int>, dayIsNull: bool)

  /** The WHERE clause of a chunk's COPY: day scope and id range compose; comparisons with
      NULL select nothing. */
  predicate Satisfies(r: Row, c: Chunk) {
    && (if c.dayIsNull && c.partitioned then r.part.None?
        else if c.day.Some? && c.partitioned then
          r.part.Some? && c.day.value * DAY_US <= r.part.value < (c.day.value + 1) * DAY_US
        else true)
    && (c.lo.Some? ==> r.id.Some? && c.lo.value <= r.id.value)
    && (c.hi.Some? ==> r.id.Some? && r.id.value < c.hi.value)
  }

  /** How many chunks of the plan select the row. */
  function Hits(plan: seq<Chunk>, r: Row): nat {
    if plan == [] then 0 else (if Satisfies(r, plan[0]) then 1 else 0) + Hits(plan[1..], r)
  }

  lemma {:induction false} HitsAppend(a: seq<Chunk>, b: seq<Chunk>, r: Row)
    ensures Hits(a + b, r) == Hits(a, r) + Hits(b, r)
  {
    if a == [] {
      assert a + b == b;
    } else {
      assert (a + b)[1..] == a[1..] + b;
      HitsAppend(a[1..], b, r);
    }
  }

  // ---------------------------------------------------------------- id ranges

  const FULL := Chunk(0, None, None, false, None, false)

  function PlanFullChunk(): seq<Chunk> {
    [FULL]
  }

  /** How many chunks to aim for, and the id width that follows (Python's `//` floors). */
  function Aim(rows: int, target: nat): int
    requires target >= 1
  {
    Max(1, rows / target)
  }

  function StepFor(span: int, n: int): int
    requires n >= 1
  {
    Max(1, span / n)
  }

  /** The slices [lo, lo + step), [lo + step, lo + 2 step), ... of the ids lo..hi. */
  function Pieces(shape: Chunk, first: nat, lo: int, hi: int, step: int): seq<Chunk>
    requires step >= 1
    decreases hi - lo + 1
  {
    if lo > hi then []
    else
      var nxt := lo + step;
      [shape.(chunkId := first, lo := Some(lo), hi := Some(if nxt <= hi then nxt else hi + 1))]
      + Pieces(shape, first + 1, nxt, hi, step)
  }

  method SplitRange(shape: Chunk, first: nat, lo: int, hi: int, step: int) returns (chunks: seq<Chunk>)
    requires step >= 1
    ensures chunks == Pieces(shape, first, lo, hi, step)
  {
    chunks := [];
    var curLo, cid := lo, first;
    while curLo <= hi
      invariant chunks + Pieces(shape, cid, curLo, hi, step) == Pieces(shape, first, lo, hi, step)
      decreases hi - curLo + 1
    {
      var nxt := curLo + step;
      chunks := chunks + [shape.(chunkId := cid, lo := Some(curLo), hi := Some(if nxt <= hi then nxt else hi + 1))];
      curLo, cid := nxt, cid + 1;
    }
  }

  ghost function RangePlan(lo: Option<int>, hi: Option<int>, approxRows: int, target: nat): seq<Chunk>
    requires target >= 1
  {
    if lo.None? || hi.None? then []
    else Pieces(FULL, 0, lo.value, hi.value, StepFor(hi.value - lo.value + 1, Aim(approxRows, target)))
  }

  method PlanRangeChunks(lo: Option<int>, hi: Option<int>, approxRows: int, target: nat) returns (chunks: seq<Chunk>)
    requires target >= 1
    ensures chunks == RangePlan(lo, hi, approxRows, target)
  {
    if lo.None? || hi.None? {
      return [];
    }
    var n := Max(1, approxRows / target);
    var span := hi.value - lo.value + 1;
    var step := Max(1, span / n);
    chunks := SplitRange(FULL, 0, lo.value, hi.value, step);
  }

  /** Numbered without gaps, non-empty, end to end from lo to hi, each as wide as the step but for
      the last, which is no wider. */
  ghost predicate Tiles(plan: seq<Chunk>, first: nat, lo: int, hi: int, step: int) {
    && plan != []
    && plan[0].lo == Some(lo)
    && plan[|plan| - 1].hi == Some(hi + 1)
    && (forall i :: 0 <= i < |plan| ==>
                      && plan[i].chunkId == first + i
                      && plan[i].lo.Some? && plan[i].hi.Some?
                      && plan[i].lo.value < plan[i].hi.value <= plan[i].lo.value + step)
    && (forall i :: 0 <= i < |plan| - 1 ==> plan[i].hi == plan[i + 1].lo && plan[i].hi.value == plan[i].lo.value + step)
  }

  lemma {:induction false} PiecesTile(shape: Chunk, first: nat, lo: int, hi: int, step: int)
    requires step >= 1 && lo <= hi
    ensures Tiles(Pieces(shape, first, lo, hi, step), first, lo, hi, step)
    ensures |Pieces(shape, first, lo, hi, step)| == CeilDiv(hi - lo + 1, step)
    decreases hi - lo + 1
  {
    var nxt := lo + step;
    CeilDivStep(hi - lo + 1, step);
    if nxt <= hi {
      PiecesTile(shape, first + 1, nxt, hi, step);
      var rest := Pieces(shape, first + 1, nxt, hi, step);
      var plan := Pieces(shape, first, lo, hi, step);
      assert forall i :: 0 < i < |plan| ==> plan[i] == rest[i - 1];
    }
  }

  /** The slices select an id of the range exactly once, and nothing else. */
  lemma {:induction false} PiecesHit(shape: Chunk, first: nat, lo: int, hi: int, step: int, r: Row)
    requires step >= 1
    ensures Hits(Pieces(shape, first, lo, hi, step), r) ==
            if Satisfies(r, shape.(lo := None, hi := None)) && r.id.Some? && lo <= r.id.value <= hi then 1 else 0
    decreases hi - lo + 1
  {
    if lo <= hi {
      PiecesHit(shape, first + 1, lo + step, hi, step, r);
    }
  }

  /** MAIN: the range plan of a non-empty table covers lo..hi in disjoint non-empty slices, as
      many as asked for up to rounding; with an estimate that is at least the id span no slice
      reaches twice the target. Estimates may be stale, zero or negative. */
  lemma RangePlanArithmetic(lo: int, hi: int, approxRows: int, target: nat)
    requires target >= 1 && lo <= hi
    ensures var plan := RangePlan(Some(lo), Some(hi), approxRows, target);
            var n, span := Aim(approxRows, target), hi - lo + 1;
            && Tiles(plan, 0, lo, hi, StepFor(span, n))
            && Min(n, span) <= |plan| <= 2 * n - 1
            && (span <= approxRows ==> forall c :: c in plan ==> c.lo.Some? && c.hi.Some? && c.hi.value - c.lo.value < 2 * target)
  {
    hide StepFor, Aim, Pieces, CeilDiv, Tiles;
    var n, span := Aim(approxRows, target), hi - lo + 1;
    AimPositive(approxRows, target);
    PiecesTile(FULL, 0, lo, hi, StepFor(span, n));
    CountBounds(span, n);
    if span <= approxRows {
      StepBelowTwice(span, approxRows, target);
      TilesWidth(RangePlan(Some(lo), Some(hi), approxRows, target), 0, lo, hi, StepFor(span, n));
    }
  }

  /** `n` is the whole number of targets in the estimate, at least 1. */
  predicate IsAim(n: int, rows: int, target: nat) {
    n >= 1 && rows < (n + 1) * target && (n == 1 || n * target <= rows)
  }

  /** `step` is the whole part of span / n, at least 1. */
  predicate IsStep(step: int, span: int, n: int) {
    step >= 1 && span < (step + 1) * n && (step == 1 || step * n <= span)
  }

  lemma AimIs(n: int, rows: int, target: nat)
    requires target >= 1 && IsAim(n, rows, target)
    ensures n == Aim(rows, target) && n >= 1
  {
    DivBounds(rows, target);
    var q := rows / target;
    MulCancel(q, n + 1, target);
    if n > 1 {
      MulCancel(n, q + 1, target);
      assert q * target + target == (q + 1) * target;
    }
  }

  lemma StepIs(step: int, span: int, n: int)
    requires n >= 1 && IsStep(step, span, n)
    ensures step == StepFor(span, n)
  {
    DivBounds(span, n);
    var q := span / n;
    MulCancel(q, step + 1, n);
    if step > 1 {
      MulCancel(step, q + 1, n);
      assert q * n + n == (q + 1) * n;
    }
  }

  /** MAIN: the range plan of a non-empty table in terms of estimate and target alone: `n` whole
      targets asked for, ids cut into slices of span / n rounded down, both at least 1; between
      min(n, span) and 2n - 1 slices; below twice the target each if the estimate covers the span. */
  lemma RangePlanExactly(lo: int, hi: int, approxRows: int, target: nat, n: int, step: int)
    requires target >= 1 && lo <= hi
    requires IsAim(n, approxRows, target) && IsStep(step, hi - lo + 1, n)
    ensures var plan := RangePlan(Some(lo), Some(hi), approxRows, target);
            && Tiles(plan, 0, lo, hi, step)
            && Min(n, hi - lo + 1) <= |plan| <= 2 * n - 1
            && (hi - lo + 1 <= approxRows ==> step < 2 * target)
  {
    hide Pieces, Tiles, Aim, StepFor, IsAim, IsStep;
    AimIs(n, approxRows, target);
    StepIs(step, hi - lo + 1, n);
    RangePlanArithmetic(lo, hi, approxRows, target);
    if hi - lo + 1 <= approxRows {
      StepBelowTwice(hi - lo + 1, approxRows, target);
    }
  }

  lemma AimPositive(rows: int, target: nat)
    requires target >= 1
    ensures Aim(rows, target) >= 1
    ensures forall span: int :: StepFor(span, Aim(rows, target)) >= 1
  {}

  lemma TilesWidth(plan: seq<Chunk>, first: nat, lo: int, hi: int, step: int)
    requires Tiles(plan, first, lo, hi, step)
    ensures forall c :: c in plan ==> c.lo.Some? && c.hi.Some? && c.hi.value - c.lo.value <= step
  {}

  /** span lies in [n q, n q + n), so it takes between n and 2n - 1 slices of width q. */
  lemma CountBounds(span: int, n: int)
    requires span >= 1 && n >= 1
    ensures Min(n, span) <= CeilDiv(span, StepFor(span, n)) <= 2 * n - 1
  {
    DivBounds(span, n);
    if span < n {
      DivUnique(span, n, 0);
      DivUnique(span, 1, span);
    } else {
      DivUnique(n, n, 1);
      var q := span / n;
      MulCancel(1, q + 1, n);
      assert q >= 1;
      var k := CeilDiv(span, q);
      CeilDivBounds(span, q);
      SlicesBetween(n, q, k, span);
    }
  }

  lemma SlicesBetween(n: int, q: int, k: int, span: int)
    requires n >= 1 && q >= 1
    requires q * n <= span < q * n + n
    requires (k - 1) * q < span <= k * q
    ensures n <= k <= 2 * n - 1
  {
    MulCancel(n, k, q);
    MulMonotone(1, q, n - 1);
    assert q * (n - 1) + q * n == (2 * n - 1) * q;
    MulCancel(k - 1, 2 * n - 1, q);
  }

  lemma StepBelowTwice(span: int, rows: int, target: nat)
    requires target >= 1 && 1 <= span <= rows
    ensures StepFor(span, Aim(rows, target)) < 2 * target
  {
    var n := Aim(rows, target);
    DivBounds(rows, target);
    DivBounds(span, n);
    MulMonotone(rows / target, n, target);
    MulMonotone(1, n, target);
    // q n <= span <= rows < n target + target <= 2 n target
    assert n * target + n * target == (2 * target) * n;
    MulCancel(span / n, 2 * target, n);
  }

  /** MAIN: a range chunk plan selects every row with a key between lo and hi exactly once, and
      a row with a NULL key never. */
  lemma RangePlanCovers(lo: int, hi: int, approxRows: int, target: nat, r: Row)
    requires target >= 1
    requires r.id.Some? ==> lo <= r.id.value <= hi
    ensures Hits(RangePlan(Some(lo), Some(hi), approxRows, target), r) == if r.id.Some? then 1 else 0
  {
    PiecesHit(FULL, 0, lo, hi, StepFor(hi - lo + 1, Aim(approxRows, target)), r);
  }

  lemma FullPlanCovers(r: Row)
    ensures Hits(PlanFullChunk(), r) == 1
  {
    assert PlanFullChunk()[1..] == [];
  }

  // ---------------------------------------------------------------- one day per chunk

  /** The Iceberg `day` transform: floor division, None for a NULL. */
  function DayOf(r: Row): Option<int> {
    if r.part.None? then None else Some(FloorDay(r.part.value))
  }

  /** One row of the GROUP BY day query. */
  datatype DayGroup = DayGroup(day: Option<int>, n: int, lo: Option<int>, hi: Option<int>)

  ghost predicate Spans(g: DayGroup, r: Row) {
    r.id.Some? ==> g.lo.Some? && g.hi.Some? && g.lo.value <= r.id.value <= g.hi.value
  }

  /** `groups` is the query's answer on `rows`: one group per day, bounding its non-NULL ids. */
  ghost predicate GroupsOf(groups: seq<DayGroup>, rows: seq<Row>) {
    && (forall i, j :: 0 <= i < j < |groups| ==> groups[i].day != groups[j].day)
    && (forall r :: r in rows ==> exists g :: g in groups && g.day == DayOf(r))
    && (forall g, r :: g in groups && r in rows && g.day == DayOf(r) ==> Spans(g, r))
  }

  function DayShape(day: Option<int>): Chunk {
    Chunk(0, None, None, true, day, day.None?)
  }

  /** The chunks of one group. */
  function GroupPlan(g: DayGroup, first: nat, target: nat, numericId: bool): seq<Chunk>
    requires target >= 1
  {
    if !numericId || g.day.None? then [DayShape(g.day).(chunkId := first)]
    else if g.lo.None? || g.hi.None? then []
    else Pieces(DayShape(g.day), first, g.lo.value, g.hi.value, StepFor(g.hi.value - g.lo.value + 1, Aim(g.n, target)))
  }

  function PartitionPlan(groups: seq<DayGroup>, first: nat, target: nat, numericId: bool): seq<Chunk>
    requires target >= 1
  {
    if groups == [] then []
    else
      var head := GroupPlan(groups[0], first, target, numericId);
      head + PartitionPlan(groups[1..], first + |head|, target, numericId)
  }

  method PlanGroup(g: DayGroup, first: nat, target: nat, numericId: bool) returns (chunks: seq<Chunk>)
    requires target >= 1
    ensures chunks == GroupPlan(g, first, target, numericId)
  {
    if !numericId || g.day.None? {
      return [Chunk(first, None, None, true, g.day, g.day.None?)];
    }
    if g.lo.None? || g.hi.None? {
      return [];
    }
    var nSub := Max(1, g.n / target);
    var span := g.hi.value - g.lo.value + 1;
    var step := Max(1, span / nSub);
    chunks := SplitRange(DayShape(g.day), first, g.lo.value, g.hi.value, step);
  }

  method PlanPartitionedChunks(groups: seq<DayGroup>, target: nat, numericId: bool) returns (chunks: seq<Chunk>)
    requires target >= 1
    ensures chunks == PartitionPlan(groups, 0, target, numericId)
  {
    chunks := [];
    for i := 0 to |groups|
      invariant chunks + PartitionPlan(groups[i..], |chunks|, target, numericId) == PartitionPlan(groups, 0, target, numericId)
    {
      assert groups[i..][1..] == groups[i + 1..];
      var sub := PlanGroup(groups[i], |chunks|, target, numericId);
      chunks := chunks + sub;
    }
  }

  /** MAIN: the chunks of one day with a row count `g.n` and an id span: of that day, tiling the span
      in the same way, below twice the target each if the count covers the span. */
  lemma GroupPlanExactly(g: DayGroup, first: nat, target: nat, n: int, step: int)
    requires target >= 1 && g.day.Some? && g.lo.Some? && g.hi.Some? && g.lo.value <= g.hi.value
    requires IsAim(n, g.n, target) && IsStep(step, g.hi.value - g.lo.value + 1, n)
    ensures var plan := GroupPlan(g, first, target, true);
            && Tiles(plan, first, g.lo.value, g.hi.value, step)
            && (forall i :: 0 <= i < |plan| ==> plan[i].partitioned && plan[i].day == g.day && !plan[i].dayIsNull)
            && Min(n, g.hi.value - g.lo.value + 1) <= |plan| <= 2 * n - 1
            && (g.hi.value - g.lo.value + 1 <= g.n ==> step < 2 * target)
  {
    var span := g.hi.value - g.lo.value + 1;
    AimIs(n, g.n, target);
    StepIs(step, span, n);
    hide Tiles, Aim, StepFor, IsAim, IsStep, CeilDiv, Pieces;
    AimPositive(g.n, target);
    PiecesTile(DayShape(g.day), first, g.lo.value, g.hi.value, step);
    CountBounds(span, n);
    if span <= g.n {
      StepBelowTwice(span, g.n, target);
    }
    forall i | 0 <= i < |GroupPlan(g, first, target, true)|
      ensures var c := GroupPlan(g, first, target, true)[i]; c.partitioned && c.day == g.day && !c.dayIsNull
    {
      PieceKeepsShape(DayShape(g.day), first, g.lo.value, g.hi.value, step, i);
    }
  }

  lemma DayScope(r: Row, day: Option<int>)
    ensures Satisfies(r, DayShape(day)) <==> DayOf(r) == day
  {
    if r.part.Some? && day.Some? && Satisfies(r, DayShape(day)) {
      DivUnique(r.part.value, DAY_US, day.value);
    }
  }

  /** Can the planner's predicates reach the row at all? */
  predicate Reachable(r: Row, numericId: bool) {
    !numericId || r.part.None? || r.id.Some?
  }

  lemma GroupPlanHits(g: DayGroup, first: nat, target: nat, numericId: bool, r: Row)
    requires target >= 1
    requires g.day == DayOf(r) ==> Spans(g, r)
    ensures Hits(GroupPlan(g, first, target, numericId), r) == if g.day == DayOf(r) && Reachable(r, numericId) then 1 else 0
  {
    DayScope(r, g.day);
    var plan := GroupPlan(g, first, target, numericId);
    if !numericId || g.day.None? {
      assert plan[1..] == [];
    } else if g.lo.Some? && g.hi.Some? {
      PiecesHit(DayShape(g.day), first, g.lo.value, g.hi.value, StepFor(g.hi.value - g.lo.value + 1, Aim(g.n, target)), r);
    }
  }

  lemma {:induction false} PartitionPlanHits(groups: seq<DayGroup>, first: nat, target: nat, numericId: bool, r: Row)
    requires target >= 1
    requires forall i, j :: 0 <= i < j < |groups| ==> groups[i].day != groups[j].day
    requires forall g :: g in groups && g.day == DayOf(r) ==> Spans(g, r)
    ensures Hits(PartitionPlan(groups, first, target, numericId), r) ==
            if Reachable(r, numericId) && (exists g :: g in groups && g.day == DayOf(r)) then 1 else 0
  {
    hide GroupPlan, Reachable, DayOf, Spans;
    if groups != [] {
      var head := GroupPlan(groups[0], first, target, numericId);
      GroupPlanHits(groups[0], first, target, numericId, r);
      PartitionPlanHits(groups[1..], first + |head|, target, numericId, r);
      HitsAppend(head, PartitionPlan(groups[1..], first + |head|, target, numericId), r);
      assert groups == [groups[0]] + groups[1..];
      assert forall g :: g in groups[1..] ==> g.day != groups[0].day;
      assert groups[0] in groups;
    }
  }

  /** MAIN: every source row is selected by exactly one chunk, except that with id ranges a row
      with a NULL key and a partition value is selected by none. */
  lemma PartitionPlanCovers(groups: seq<DayGroup>, rows: seq<Row>, target: nat, numericId: bool, r: Row)
    requires target >= 1 && GroupsOf(groups, rows) && r in rows
    ensures Hits(PartitionPlan(groups, 0, target, numericId), r) == if numericId && r.id.None? && r.part.Some? then 0 else 1
  {
    PartitionPlanHits(groups, 0, target, numericId, r);
  }

  lemma {:induction false} PieceKeepsShape(shape: Chunk, first: nat, lo: int, hi: int, step: int, i: nat)
    requires step >= 1
    requires i < |Pieces(shape, first, lo, hi, step)|
    ensures var c := Pieces(shape, first, lo, hi, step)[i];
            c == shape.(chunkId := first + i, lo := c.lo, hi := c.hi)
    decreases hi - lo + 1
  {
    if i > 0 {
      PieceKeepsShape(shape, first + 1, lo + step, hi, step, i - 1);
    }
  }

  lemma {:induction false} PartitionPlanChunk(groups: seq<DayGroup>, first: nat, target: nat, numericId: bool, i: nat)
    requires target >= 1
    requires i < |PartitionPlan(groups, first, target, numericId)|
    ensures var c := PartitionPlan(groups, first, target, numericId)[i];
            c == DayShape(c.day).(chunkId := first + i, lo := c.lo, hi := c.hi)
  {
    var g := groups[0];
    var head := GroupPlan(g, first, target, numericId);
    if i >= |head| {
      PartitionPlanChunk(groups[1..], first + |head|, target, numericId, i - |head|);
    } else if numericId && g.day.Some? {
      PieceKeepsShape(DayShape(g.day), first, g.lo.value, g.hi.value, StepFor(g.hi.value - g.lo.value + 1, Aim(g.n, target)), i);
    }
  }

  /** MAIN: chunk ids are 0..n-1, and whatever rows a chunk selects share one Iceberg day, or
      are all NULL, so every file of the chunk has a single partition value. */
  lemma OneDayPerChunk(groups: seq<DayGroup>, target: nat, numericId: bool, i: nat, r: Row)
    requires target >= 1
    requires i < |PartitionPlan(groups, 0, target, numericId)|
    ensures var c := PartitionPlan(groups, 0, target, numericId)[i];
            c.chunkId == i && (Satisfies(r, c) ==> DayOf(r) == c.day)
  {
    PartitionPlanChunk(groups, 0, target, numericId, i);
    var c := PartitionPlan(groups, 0, target, numericId)[i];
    DayScope(r, c.day);
    assert Satisfies(r, c) ==> Satisfies(r, DayShape(c.day));
  }
}
