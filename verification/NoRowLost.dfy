/** Main results about the incremental protocol. */
module NoRowLost {
  import opened Prelude
  import opened Rows
  import opened Merge
  import opened Marks
  import opened Incremental
  import opened IncrementalProtocol

  // ---------------------------------------------------------------- following a run

  lemma Follow(c: Config, s: State, step: Step, rest: seq<Step>)
    requires Enabled(c, s, step) && Possible(c, Apply(c, s, step), rest)
    ensures Possible(c, s, [step] + rest)
    ensures Run(c, s, [step] + rest) == Run(c, Apply(c, s, step), rest)
  {
    assert ([step] + rest)[1..] == rest;
  }

  lemma {:induction false} FollowLast(c: Config, s: State, steps: seq<Step>, last: Step)
    requires Possible(c, s, steps) && Enabled(c, Run(c, s, steps), last)
    ensures Possible(c, s, steps + [last])
    ensures Run(c, s, steps + [last]) == Apply(c, Run(c, s, steps), last)
    decreases |steps|
  {
    if steps == [] {
      Follow(c, s, last, []);
      assert [] + [last] == [last] + [];
    } else {
      FollowLast(c, Apply(c, s, steps[0]), steps[1..], last);
      Follow(c, s, steps[0], steps[1..] + [last]);
      assert [steps[0]] + (steps[1..] + [last]) == steps + [last];
    }
  }

  // ---------------------------------------------------------------- the op is such a run

  ghost function MergeSteps(batches: seq<seq<Row>>): seq<Step>
    decreases |batches|
  {
    if batches == [] then [] else [MergeBatch(|batches[0]|)] + MergeSteps(batches[1..])
  }

  lemma {:induction false} MergeStepsRun(c: Config, s: State, batches: seq<seq<Row>>)
    requires s.tick.Merging? && s.tick.file == Flatten(batches)
    requires forall b :: b in batches ==> b != []
    ensures var steps := MergeSteps(batches) + [Store];
            && Possible(c, s, steps)
            && Run(c, s, steps) == s.(lake := UpsertAll(s.lake, batches, c.dedupe), mark := Advance(s.mark, s.tick.next), tick := Idle)
    decreases |batches|
  {
    if batches == [] {
      assert [] + [Store] == [Store] + [];
      Follow(c, s, Store, []);
    } else {
      var first, rest := batches[0], batches[1..];
      var step := MergeBatch(|first|);
      assert first in batches;
      assert forall b :: b in rest ==> b in batches;
      assert s.tick.file == first + Flatten(rest);
      assert s.tick.file[..|first|] == first && s.tick.file[|first|..] == Flatten(rest);
      var s' := Apply(c, s, step);
      MergeStepsRun(c, s', rest);
      Follow(c, s, step, MergeSteps(rest) + [Store]);
      assert [step] + (MergeSteps(rest) + [Store]) == MergeSteps(batches) + [Store];
    }
  }

  lemma {:induction false} BatchesNonEmpty(w: seq<Row>, n: nat)
    requires n >= 1
    ensures forall b :: b in Batches(w, n) ==> b != []
    decreases |w|
  {
    if |w| > n {
      BatchesNonEmpty(w[n..], n);
    }
  }

  /** What method `IncrementalOneTable` promises is what a run of the machine does that begins a
      tick, reads the window, merges its batches and stores the mark. */
  lemma UninterruptedTick(c: Config, s: State, file: seq<Row>, next: Mark, n: nat)
    requires s.tick.Idle? && n >= 1
    requires var b := BoundsFor(c.kind, Current(s.mark), s.clock, c.settings);
             IsCopyOf(file, s.source, b, Current(s.mark).lastId) && Stamped(file) && IsNextMark(Current(s.mark), b, file, next)
    ensures var steps := [Begin] + ([Read(file, next)] + (MergeSteps(Batches(file, n)) + [Store]));
            && Possible(c, s, steps)
            && Run(c, s, steps) == s.(lake := UpsertAll(s.lake, Batches(file, n), c.dedupe), mark := Advance(s.mark, next))
  {
    var s1 := Apply(c, s, Begin);
    var s2 := Apply(c, s1, Read(file, next));
    var tail := MergeSteps(Batches(file, n)) + [Store];
    BatchesFlatten(file, n);
    BatchesNonEmpty(file, n);
    MergeStepsRun(c, s2, Batches(file, n));
    Follow(c, s1, Read(file, next), tail);
    Follow(c, s, Begin, [Read(file, next)] + tail);
  }

  // ---------------------------------------------------------------- safety, both directions

  /** MAIN: under a safe configuration no run from a covered start - source commits, ticks cut
      at any step, crashes and retries in any interleaving - ever lets a row slip by. */
  lemma NoRowIsLost(c: Config, s: State, steps: seq<Step>)
    requires Safe(c) && Start(c, s) && Possible(c, s, steps)
    ensures Covered(c, Run(c, s, steps))
  {
    RunKeepsInv(c, s, steps);
  }

  ghost predicate NeverLoses(c: Config) {
    forall s, steps :: Start(c, s) && Possible(c, s, steps) ==> Covered(c, Run(c, s, steps))
  }

  /** MAIN: `Safe` is exactly the condition. */
  lemma NeverLosesExactly(c: Config)
    ensures NeverLoses(c) <==> Safe(c)
  {
    if Safe(c) {
      forall s, steps | Start(c, s) && Possible(c, s, steps)
        ensures Covered(c, Run(c, s, steps))
      {
        NoRowIsLost(c, s, steps);
      }
    } else {
      var s, steps := LosingRun(c);
      assert !Covered(c, Run(c, s, steps));
    }
  }

  /** The condition in the settings' seconds and the clock's microseconds. */
  ghost predicate SafeSettings(c: Config) {
    match c.kind
    case TimestampTz => c.settings.overlap > 0 && c.lag < (c.settings.gap + c.settings.overlap) * 1_000_000
    case TimestampNaive => c.lag < c.settings.overlap * 1_000_000
    case Date =>
      exists days: int :: OverlapDays(c.settings.overlap, days) &&
                          c.lag - c.zone - c.settings.gap * 1_000_000 <= (days - 1) * 86_400_000_000
    case Integer => c.keyOrdered
  }

  lemma SafeInSettings(c: Config)
    ensures Safe(c) <==> SafeSettings(c)
  {
    if c.kind.Date? {
      OverlapDaysIs(c.settings.overlap, WindowOverlap(c));
      forall days: int | OverlapDays(c.settings.overlap, days)
        ensures days == WindowOverlap(c)
      {
        OverlapDaysIs(c.settings.overlap, days);
      }
    }
  }

  /** MAIN: no run from a covered start loses a row exactly when the lag is below gap plus overlap
      and the overlap is not zero (timestamptz), the lag is below the overlap (naive timestamp), lag
      less zone less gap is at most the overlap's days less one (date), commits come in key order
      (integer). */
  lemma NeverLosesInSettings(c: Config)
    ensures NeverLoses(c) <==> SafeSettings(c)
  {
    NeverLosesExactly(c);
    SafeInSettings(c);
  }

  function RowAt(k: int, stamp: int): Row {
    Row(Some(k), Some(stamp), None, 0)
  }

  /** Every unsafe configuration has a short run, from an empty table, that loses a row. */
  lemma LosingRun(c: Config) returns (s: State, steps: seq<Step>)
    requires !Safe(c)
    ensures Start(c, s) && s.source == map[] && s.lake == []
    ensures Possible(c, s, steps) && !Covered(c, Run(c, s, steps))
  {
    match c.kind
    case TimestampTz =>
      if c.settings.overlap == 0 {
        s, steps := LostAtUpperBound(c);
      } else {
        s, steps := LostToLateCommit(c, c.settings.gap * US, 0);
      }
    case Date =>
      var days := WindowOverlap(c);
      var clock := c.settings.gap * US;
      assert clock + c.zone - c.lag <= -(days - 1) * DAY_US - 1;
      FloorDayGrows(clock + c.zone - c.lag, -(days - 1) * DAY_US - 1);
      assert (-(days - 1) * DAY_US - 1) / DAY_US == -days;
      s, steps := LostToLateCommit(c, clock, 0);
    case TimestampNaive =>
      s, steps := LostToTie(c, c.zone, c.zone - WindowOverlap(c));
    case Integer =>
      s, steps := LostToTie(c, 5, 5);
  }

  /** An empty window moves the mark to `hi`; then a row that is late by the whole overlap
      becomes visible at the new bound. */
  lemma JumpPasses(c: Config, s: State, hi: int) returns (steps: seq<Step>)
    requires c.kind.TimestampTz? || c.kind.Date?
    requires s.tick.Idle? && s.source == map[]
    requires s.mark.Some? && s.mark.value.value < hi && s.mark.value.lastId >= 1
    requires hi == if c.kind.Date? then FloorDay(s.clock - c.settings.gap * US) else s.clock - c.settings.gap * US
    requires Floor(c, s.clock) <= hi - WindowOverlap(c)
    requires RowAt(1, hi - WindowOverlap(c)) !in s.lake
    ensures Possible(c, s, steps) && !Covered(c, Run(c, s, steps))
  {
    var next := Mark(hi, s.mark.value.lastId);
    var late := RowAt(1, hi - WindowOverlap(c));
    var s1 := Apply(c, s, Begin);
    var read := Read([], next);
    var s2 := Apply(c, s1, read);
    var s3 := Apply(c, s2, Store);
    assert s3.mark == Some(next);
    var high := if Le(s.high, MarkOf(late)) then MarkOf(late) else s.high;
    var commit := Commit(map[1 := late], {}, high);
    assert commit.writes[1] == late;
    assert CommitAllowed(c, s3, commit.writes, high);
    var s4 := Apply(c, s3, commit);
    assert s4.source[1] == late && AtOrBelow(c, next, late);
    Follow(c, s3, commit, []);
    Follow(c, s2, Store, [commit]);
    Follow(c, s1, read, [Store] + [commit]);
    steps := [Begin] + ([read] + ([Store] + [commit]));
    Follow(c, s, Begin, [read] + ([Store] + [commit]));
    assert Run(c, s, steps) == s4;
  }

  lemma LostToLateCommit(c: Config, clock: int, hi: int) returns (s: State, steps: seq<Step>)
    requires c.kind.TimestampTz? || c.kind.Date?
    requires WindowOverlap(c) >= 1
    requires hi == if c.kind.Date? then FloorDay(clock - c.settings.gap * US) else clock - c.settings.gap * US
    requires Floor(c, clock) <= hi - WindowOverlap(c)
    ensures Start(c, s) && s.source == map[] && s.lake == []
    ensures Possible(c, s, steps) && !Covered(c, Run(c, s, steps))
  {
    var m0 := Mark(Floor(c, clock), 1);
    s := State(clock, map[], m0, [], Some(m0), Idle);
    steps := JumpPasses(c, s, hi);
  }

  /** With overlap 0 the jump of an empty window to `hi` skips a row that is stamped exactly
      `hi`, long visible, and has no greater id. */
  lemma LostAtUpperBound(c: Config) returns (s: State, steps: seq<Step>)
    requires c.kind.TimestampTz? && c.settings.overlap == 0
    ensures Start(c, s) && s.source == map[] && s.lake == []
    ensures Possible(c, s, steps) && !Covered(c, Run(c, s, steps))
  {
    var now := c.settings.gap * US;
    var m0 := Mark(0 - c.lag - 1, 1);
    var row := RowAt(1, 0);
    s := State(0, map[], m0, [], Some(m0), Idle);
    var commit := Commit(map[1 := row], {}, Mark(0, 1));
    assert commit.writes[1] == row;
    var s1 := Apply(c, s, commit);
    var s2 := Apply(c, s1, Pass(now));
    var s3 := Apply(c, s2, Begin);
    var read := Read([], Mark(0, 1));
    var s4 := Apply(c, s3, read);
    var s5 := Apply(c, s4, Store);
    assert s5.source[1] == row && AtOrBelow(c, Mark(0, 1), row);
    Follow(c, s4, Store, []);
    Follow(c, s3, read, [Store]);
    Follow(c, s2, Begin, [read] + [Store]);
    Follow(c, s1, Pass(now), [Begin] + ([read] + [Store]));
    steps := [commit] + ([Pass(now)] + ([Begin] + ([read] + [Store])));
    Follow(c, s, commit, [Pass(now)] + ([Begin] + ([read] + [Store])));
    assert Run(c, s, steps) == s5;
  }

  /** Without an upper bound the mark follows the newest visible row; a row that then appears
      at the bound with a smaller id is behind it. */
  lemma LostToTie(c: Config, first: int, second: int) returns (s: State, steps: seq<Step>)
    requires c.kind.TimestampNaive? || c.kind.Integer?
    requires !Safe(c)
    requires second == first - WindowOverlap(c)
    requires c.kind.TimestampNaive? ==> first == c.zone
    ensures Start(c, s) && s.source == map[] && s.lake == []
    ensures Possible(c, s, steps) && !Covered(c, Run(c, s, steps))
  {
    var m0 := Mark(first - c.lag - 1, 0);
    var a, b := RowAt(2, first), RowAt(1, second);
    var high := MarkOf(a);
    s := State(0, map[], m0, [], Some(m0), Idle);
    var commitA := Commit(map[2 := a], {}, high);
    assert commitA.writes[2] == a;
    var s1 := Apply(c, s, commitA);
    assert a in [a];
    UninterruptedTick(c, s1, [a], high, 1);
    var tick := [Begin] + ([Read([a], high)] + (MergeSteps(Batches([a], 1)) + [Store]));
    var s5 := Run(c, s1, tick);
    TieAbsent(a, b, c.dedupe);
    var commitB := Commit(map[1 := b], {}, high);
    assert CommitAllowed(c, s5, commitB.writes, high);
    var s6 := Apply(c, s5, commitB);
    assert s6.source[1] == b && AtOrBelow(c, high, b);
    FollowLast(c, s1, tick, commitB);
    steps := [commitA] + (tick + [commitB]);
    Follow(c, s, commitA, tick + [commitB]);
  }

  lemma TieAbsent(a: Row, b: Row, dedupe: bool)
    requires a.id.Some? && a.id != b.id
    ensures b !in UpsertAll([], Batches([a], 1), dedupe)
  {
    var lake := UpsertAll([], Batches([a], 1), dedupe);
    BatchedEqualsOneShot([], [a], 1, dedupe);
    assert multiset(lake)[b] == 0;
  }

  // ---------------------------------------------------------------- a lost row stays lost

  ghost predicate LeavesAlone(steps: seq<Step>, k: int) {
    forall i :: 0 <= i < |steps| && steps[i].Commit? ==> k !in steps[i].writes && k !in steps[i].gone
  }

  ghost predicate Missed(c: Config, s: State, k: int) {
    && k in s.source
    && s.source[k].id == Some(k)
    && s.mark.Some?
    && AtOrBelow(c, s.mark.value, s.source[k])
    && s.source[k] !in s.lake
    && (s.tick.Merging? ==> s.source[k] !in s.tick.file)
  }

  lemma MissedStep(c: Config, s: State, step: Step, k: int)
    requires Missed(c, s, k) && Enabled(c, s, step) && LeavesAlone([step], k)
    ensures Missed(c, Apply(c, s, step), k)
    ensures Apply(c, s, step).source[k] == s.source[k]
  {
    var r := s.source[k];
    assert [step][0] == step;
    match step
    case MergeBatch(n) =>
      var batch := s.tick.file[..n];
      var staged := Staged(batch, c.dedupe);
      if c.dedupe {
        DedupeKeepsNewest(batch);
      }
      assert r !in staged;
      WithoutMembers(s.lake, Keys(staged));
    case Read(file, next) =>
      assert !Selected(r, BoundsFor(c.kind, s.mark.value, s.tick.now, c.settings), s.mark.value.lastId);
    case _ =>
  }

  /** MAIN: a row behind the bound and absent from the lake never arrives through incremental
      ticks, however many run, until the source touches it again. */
  lemma {:induction false} MissedForever(c: Config, s: State, steps: seq<Step>, k: int)
    requires Missed(c, s, k) && Possible(c, s, steps) && LeavesAlone(steps, k)
    ensures Missed(c, Run(c, s, steps), k)
    ensures Run(c, s, steps).source[k] == s.source[k] && s.source[k] !in Run(c, s, steps).lake
    decreases |steps|
  {
    if steps != [] {
      assert LeavesAlone([steps[0]], k) by {
        assert [steps[0]][0] == steps[0];
      }
      MissedStep(c, s, steps[0], k);
      MissedForever(c, Apply(c, s, steps[0]), steps[1..], k);
    }
  }

  // ---------------------------------------------------------------- catching up

  /** Stamped strictly below the tick's upper bound, when it has one. */
  predicate Due(b: Bounds, r: Row) {
    b.Window? && r.stamp.Some? && (b.hi.Some? ==> r.stamp.value < b.hi.value)
  }

  /** MAIN: whenever a tick is ready to store its mark, after whatever crashed before it, the
      lake holds every due source row that has not changed since the tick's snapshot. */
  lemma TickCatchesUp(c: Config, s0: State, steps: seq<Step>, k: int)
    requires Safe(c) && Start(c, s0) && Possible(c, s0, steps)
    requires Enabled(c, Run(c, s0, steps), Store)
    requires var s := Run(c, s0, steps);
             k in s.source && k in s.tick.snap && s.source[k] == s.tick.snap[k] && Due(s.tick.bounds, s.source[k])
    ensures Holds(Run(c, s0, steps).lake, Run(c, s0, steps).source[k])
  {
    RunKeepsWindow(c, s0, steps);
    var s := Run(c, s0, steps);
    var t := s.tick;
    if !Selected(t.snap[k], t.bounds, Current(s.mark).lastId) {
      assert AtOrBelow(c, Current(s.mark), s.source[k]);
    }
  }

  /** Time, source transactions and merged batches: nothing that begins, ends or kills a tick. */
  ghost predicate KeepsMerging(steps: seq<Step>) {
    forall i :: 0 <= i < |steps| ==> steps[i].Pass? || steps[i].Commit? || steps[i].MergeBatch?
  }

  lemma {:induction false} MergingRun(c: Config, s: State, steps: seq<Step>)
    requires s.tick.Merging? && WindowPending(s) && Possible(c, s, steps) && KeepsMerging(steps)
    ensures var end := Run(c, s, steps);
            && end.tick.Merging? && WindowPending(end)
            && end.tick.snap == s.tick.snap && end.tick.bounds == s.tick.bounds && end.mark == s.mark
    decreases |steps|
  {
    if steps != [] {
      if steps[0].MergeBatch? {
        MergeKeepsPending(c, s, steps[0].rows);
      }
      MergingRun(c, Apply(c, s, steps[0]), steps[1..]);
    }
  }

  lemma {:induction false} WaitingRun(c: Config, s: State, steps: seq<Step>)
    requires s.tick.Began? && WellKeyed(s.source) && Possible(c, s, steps)
    requires forall i :: 0 <= i < |steps| ==> steps[i].Pass? || steps[i].Commit?
    ensures var end := Run(c, s, steps);
            end.tick == s.tick && end.mark == s.mark && WellKeyed(end.source)
    decreases |steps|
  {
    if steps != [] {
      WaitingRun(c, Apply(c, s, steps[0]), steps[1..]);
    }
  }

  /** MAIN: a tick that begins now, reads its snapshot some time later and is not killed has brought
      every row of the window to the lake when it is ready to store its mark: each snapshot row from
      the mark less the overlap up to now less the gap, in seconds, at the version it read. No
      assumption on settings, lag or coverage. */
  lemma TickDelivers(c: Config, s: State, before: seq<Step>, file: seq<Row>, next: Mark, after: seq<Step>, k: int)
    requires s.tick.Idle? && WellKeyed(s.source)
    requires Possible(c, Apply(c, s, Begin), before)
    requires forall i :: 0 <= i < |before| ==> before[i].Pass? || before[i].Commit?
    requires Enabled(c, Run(c, Apply(c, s, Begin), before), Read(file, next))
    requires var reading := Apply(c, Run(c, Apply(c, s, Begin), before), Read(file, next));
             Possible(c, reading, after) && KeepsMerging(after) && Enabled(c, Run(c, reading, after), Store)
    requires var snap := Run(c, Apply(c, s, Begin), before).source;
             k in snap && InWindow(c.kind, Current(s.mark), s.clock, c.settings, snap[k])
    ensures var waiting := Run(c, Apply(c, s, Begin), before);
            var reading := Apply(c, waiting, Read(file, next));
            Holds(Run(c, reading, after).lake, waiting.source[k])
  {
    var begun := Apply(c, s, Begin);
    WaitingRun(c, begun, before);
    var waiting := Run(c, begun, before);
    var reading := Apply(c, waiting, Read(file, next));
    MergingRun(c, reading, after);
    WindowExactly(c.kind, Current(s.mark), s.clock, c.settings, waiting.source[k]);
  }

  /** While a tick merges, its lower bound is the bound of the mark that is still stored. */
  ghost predicate WindowOfMark(c: Config, s: State) {
    s.tick.Merging? && s.tick.bounds.Window? ==> s.tick.bounds.lo == Bound(c, Current(s.mark)).value
  }

  lemma {:induction false} RunKeepsWindow(c: Config, s: State, steps: seq<Step>)
    requires Safe(c) && Inv(c, s) && WindowOfMark(c, s) && Possible(c, s, steps)
    ensures Inv(c, Run(c, s, steps)) && WindowOfMark(c, Run(c, s, steps))
    decreases |steps|
  {
    if steps != [] {
      StepKeepsInv(c, s, steps[0]);
      RunKeepsWindow(c, Apply(c, s, steps[0]), steps[1..]);
    }
  }

  // ---------------------------------------------------------------- seeding after a bootstrap

  /** `seed_watermark` runs two queries, each on what is committed when it begins: the greatest
      stamp (`first`), then the greatest id at that stamp (`second`), or 0 if no row has it now. */
  ghost predicate SeedOf(first: map<int, Row>, second: map<int, Row>, m: Mark) {
    && (exists k :: k in first && first[k].stamp == Some(m.value))
    && (forall k :: k in first && first[k].stamp.Some? ==> first[k].stamp.value <= m.value)
    && (if exists k :: k in second && second[k].stamp == Some(m.value) then
          && m.lastId in second && second[m.lastId].stamp == Some(m.value)
          && forall k :: k in second && second[k].stamp == Some(m.value) ==> k <= m.lastId
        else m.lastId == 0)
  }

  /** Both queries on one snapshot: the greatest stamp, with the greatest id at it. */
  ghost predicate IsSeed(source: map<int, Row>, m: Mark) {
    && m.lastId in source && source[m.lastId].stamp == Some(m.value)
    && (forall k :: k in source && source[k].stamp.Some? ==> Le(Mark(source[k].stamp.value, k), m))
  }

  /** The lake holds the bootstrap snapshot `boot`, taken at `bootClock`; rows changed since
      are stamped accordingly. */
  ghost predicate Bootstrapped(c: Config, s: State, boot: map<int, Row>, bootClock: int) {
    && s.tick.Idle? && SourceOk(c, s) && bootClock <= s.clock
    && (forall k :: k in boot ==> Holds(s.lake, boot[k]))
    && (forall k :: k in s.source && s.source[k].stamp.Some? ==>
                      (k in boot && boot[k] == s.source[k]) || Floor(c, bootClock) <= s.source[k].stamp.value)
  }

  /** Seeding gives a covered start when all that changed since the chunk snapshot falls inside
      the overlap. */
  lemma SeedCovers(c: Config, s: State, boot: map<int, Row>, bootClock: int)
    requires Bootstrapped(c, s, boot, bootClock)
    requires s.mark.Some? && !c.kind.Integer?
    requires Bound(c, s.mark.value).value < Floor(c, bootClock)
    ensures Start(c, s)
  {
    FloorGrows(c, bootClock, s.clock);
  }

  /** For any watermark set on a lake that holds exactly the bootstrap snapshot: a covered start
      means that the mark is not ahead of the source and that whatever changed since the snapshot
      lies above its bound. */
  lemma SeedCoversExactly(c: Config, s: State, boot: map<int, Row>, bootClock: int)
    requires Bootstrapped(c, s, boot, bootClock) && s.mark.Some?
    requires forall r :: r in s.lake ==> FromSnapshot(r, boot)
    ensures Start(c, s) <==>
            && Ahead(c, s, s.mark.value)
            && forall k :: k in s.source && !(k in boot && boot[k] == s.source[k]) ==> !AtOrBelow(c, s.mark.value, s.source[k])
  {
    forall k | k in s.source && Holds(s.lake, s.source[k])
      ensures k in boot && boot[k] == s.source[k]
    {
      assert FromSnapshot(s.source[k], boot);
    }
  }

  /** Seeded `delay` or less after the chunk snapshot, in a source without stamps from the future. */
  ghost predicate SeededWithin(c: Config, s: State, boot: map<int, Row>, bootClock: int, delay: nat) {
    && Bootstrapped(c, s, boot, bootClock) && s.clock - bootClock <= delay
    && s.mark.Some? && exists first, second :: SeedOf(first, second, s.mark.value) && NoFutureStamps(c, s.clock, first)
  }

  ghost predicate NoFutureStamps(c: Config, clock: int, source: map<int, Row>) {
    forall k :: k in source && source[k].stamp.Some? && !c.kind.Integer? ==> source[k].stamp.value <= Latest(c, clock)
  }

  lemma SeedOfOne(source: map<int, Row>, m: Mark)
    requires IsSeed(source, m)
    ensures SeedOf(source, source, m)
  {}

  /** The stamp a row gets at `clock`. */
  function Latest(c: Config, clock: int): int {
    match c.kind
    case TimestampTz => clock
    case TimestampNaive => clock + c.zone
    case Date => FloorDay(clock + c.zone)
    case Integer => 0
  }

  /** A seed is not held back by the safety gap, the bootstrap's duration adds to the lag, and no
      UTC bound is compared with the column's own clock. */
  function SeedConfig(c: Config, delay: nat): Config {
    c.(settings := Settings(c.settings.overlap, 0), lag := c.lag + delay, zone := 0)
  }

  ghost predicate SeedNeverLoses(c: Config, delay: nat) {
    forall s, boot, bootClock, steps :: SeededWithin(c, s, boot, bootClock, delay) && Possible(c, s, steps) ==>
                                          Covered(c, Run(c, s, steps))
  }

  lemma SeedBehindFloor(c: Config, s: State, boot: map<int, Row>, bootClock: int, delay: nat)
    requires !c.kind.Integer? && Safe(SeedConfig(c, delay))
    requires SeededWithin(c, s, boot, bootClock, delay)
    ensures Bound(c, s.mark.value).value < Floor(c, bootClock)
  {
    if c.kind.Date? {
      var days := WindowOverlap(c);
      var local := s.clock + c.zone;
      FloorDayGrows(local - (days - 1) * DAY_US, bootClock + c.zone - c.lag);
      assert (local - (days - 1) * DAY_US) / DAY_US == local / DAY_US - (days - 1);
    }
  }

  /** MAIN: whatever happens after the bootstrap, no row is lost exactly when the configuration is
      safe for the ticks and the overlap alone exceeds the commit lag plus the time from the chunk
      snapshot to the seeding. */
  lemma SeedNeverLosesExactly(c: Config, delay: nat)
    requires !c.kind.Integer?
    ensures SeedNeverLoses(c, delay) <==> Safe(c) && Safe(SeedConfig(c, delay))
  {
    if Safe(c) && Safe(SeedConfig(c, delay)) {
      forall s, boot, bootClock, steps | SeededWithin(c, s, boot, bootClock, delay) && Possible(c, s, steps)
        ensures Covered(c, Run(c, s, steps))
      {
        SeedBehindFloor(c, s, boot, bootClock, delay);
        SeedCovers(c, s, boot, bootClock);
        NoRowIsLost(c, s, steps);
      }
    } else if Safe(SeedConfig(c, delay)) {
      var s, seed, steps := LostAfterSeed(c);
      assert SeededWithin(c, s, map[], s.clock, delay);
    } else {
      var s := LostToSeed(c, delay);
      assert SeededWithin(c, s, map[], s.clock - delay, delay) && Possible(c, s, []) && Run(c, s, []) == s;
    }
  }

  /** A source with a row stamped now and one stamped the overlap ago, seeded, not yet copied. */
  function TwoRows(c: Config, clock: int): State {
    var recent := RowAt(2, Latest(c, clock));
    State(clock, map[1 := RowAt(1, Latest(c, clock) - WindowOverlap(c)), 2 := recent], MarkOf(recent), [], Some(MarkOf(recent)), Idle)
  }

  function OneRow(clock: int, r: Row): State
    requires r.id.Some? && r.stamp.Some?
  {
    State(clock, map[r.id.value := r], MarkOf(r), [], Some(MarkOf(r)), Idle)
  }

  /** Two rows appear while an empty table is bootstrapped; seeding at the newer one passes over
      the older one. */
  lemma LostToSeed(c: Config, delay: nat) returns (s: State)
    requires !c.kind.Integer? && !Safe(SeedConfig(c, delay))
    ensures s == TwoRows(c, s.clock) && Floor(c, s.clock - delay) <= Latest(c, s.clock) - WindowOverlap(c)
    ensures SeededWithin(c, s, map[], s.clock - delay, delay) && !Covered(c, s)
  {
    var clock := if c.kind.Date? then -c.zone else 0;
    s := TwoRows(c, clock);
    var old_, recent := s.source[1], s.source[2];
    if c.kind.Date? {
      var days := WindowOverlap(c);
      FloorDayGrows(0 - delay - c.lag, -(days - 1) * DAY_US - 1);
      assert (-(days - 1) * DAY_US - 1) / DAY_US == -days;
    }
    assert Floor(c, clock - delay) <= old_.stamp.value <= recent.stamp.value;
    assert s.source[1] == old_ && AtOrBelow(c, Current(s.mark), old_);
    SeedOfOne(s.source, s.mark.value);
  }

  /** A date column stamped by a clock behind UTC: the seeded row is deleted, the empty window takes
      the mark to the UTC date, and a row stamped with the local date falls behind its bound. */
  lemma LostAfterSeed(c: Config) returns (s: State, seed: Row, steps: seq<Step>)
    requires c.kind.Date? && !Safe(c)
    ensures seed.stamp.Some? && seed.id.Some? && s == OneRow(s.clock, seed)
    ensures Floor(c, s.clock) <= seed.stamp.value <= Latest(c, s.clock)
    ensures SeededWithin(c, s, map[], s.clock, 0)
    ensures Possible(c, s, steps) && !Covered(c, Run(c, s, steps))
  {
    var days := WindowOverlap(c);
    var clock := c.settings.gap * US;
    seed := RowAt(5, Min(Latest(c, clock), -1));
    s := OneRow(clock, seed);
    FloorDayGrows(clock + c.zone - c.lag, clock + c.zone);
    FloorDayGrows(clock + c.zone - c.lag, -(days - 1) * DAY_US - 1);
    assert (-(days - 1) * DAY_US - 1) / DAY_US == -days;
    var purge := Commit(map[], {5}, s.high);
    var s1 := Apply(c, s, purge);
    assert s1.source == map[];
    assert s.source[5] == seed;
    SeedOfOne(s.source, s.mark.value);
    var rest := JumpPasses(c, s1, 0);
    Follow(c, s, purge, rest);
    steps := [purge] + rest;
  }

  /** The default settings (overlap 300 s, gap 30 s) lose rows of a date column that is stamped
      eight hours behind UTC, even when every row is visible at once. */
  lemma DateBehindUtcLoses(c: Config)
    requires c.kind.Date? && c.settings == Settings(300, 30) && c.zone == -8 * 3600 * US
    ensures !NeverLoses(c)
  {
    NeverLosesExactly(c);
  }

  /** The seed of an integer-watermarked table has no overlap: a start is covered exactly when
      the bootstrap snapshot already contained every stamped row at its current version. */
  lemma IntegerSeedCovers(c: Config, s: State, boot: map<int, Row>)
    requires c.kind.Integer? && Bootstrapped(c, s, boot, s.clock)
    requires forall r :: r in s.lake ==> FromSnapshot(r, boot)
    requires s.mark.Some? && IsSeed(s.source, s.mark.value)
    ensures Start(c, s) <==> forall k :: k in s.source && s.source[k].stamp.Some? ==> k in boot && boot[k] == s.source[k]
  {
    var m := s.mark.value;
    forall k | k in s.source && s.source[k].stamp.Some?
      ensures AtOrBelow(c, m, s.source[k])
    {
      assert Le(Mark(s.source[k].stamp.value, k), m);
    }
    if Start(c, s) {
      forall k | k in s.source && s.source[k].stamp.Some?
        ensures k in boot && boot[k] == s.source[k]
      {
        assert Holds(s.lake, s.source[k]);
        assert FromSnapshot(s.source[k], boot);
      }
    }
  }
}
