/** From an empty lake to lasting coverage: a bootstrap that runs while the source changes, the
    seeding of the watermark, and every incremental run after it. */
module BootstrapThenSync {
  import opened Prelude
  import opened Rows
  import opened Chunker
  import opened Marks
  import opened Incremental
  import opened IncrementalProtocol
  import opened NoRowLost
  import B = Bootstrap
  import L = BootstrapLake
  import R = BootstrapRuns

  // ---------------------------------------------------------------- the source meanwhile

  /** Only time and source transactions: no tick runs before the seeding. */
  ghost predicate SourceOnly(steps: seq<Step>) {
    forall i :: 0 <= i < |steps| ==> steps[i].Pass? || steps[i].Commit?
  }

  /** `source` is what a transaction that begins somewhere in this run reads. */
  ghost predicate Seen(c: Config, s: State, steps: seq<Step>, source: map<int, Row>)
    requires Possible(c, s, steps)
    decreases |steps|
  {
    source == s.source || (steps != [] && Seen(c, Apply(c, s, steps[0]), steps[1..], source))
  }

  /** The rows of a table, in any order. */
  ghost predicate TableOf(rows: seq<Row>, source: map<int, Row>) {
    forall r :: r in rows <==> FromSnapshot(r, source)
  }

  /** A query during the run answered `rows`, from the snapshot of its own moment. */
  ghost predicate ReadDuring(c: Config, s: State, steps: seq<Step>, rows: seq<Row>)
    requires Possible(c, s, steps)
  {
    exists source :: Seen(c, s, steps, source) && TableOf(rows, source)
  }

  /** The row of key `k` had version `r` all the time. */
  ghost predicate Unchanged(c: Config, s: State, steps: seq<Step>, k: int, r: Row)
    requires Possible(c, s, steps)
  {
    forall source :: Seen(c, s, steps, source) ==> k in source && source[k] == r
  }

  lemma SourceStep(c: Config, s: State, step: Step)
    requires SourceOk(c, s) && Enabled(c, s, step) && (step.Pass? || step.Commit?)
    ensures var s' := Apply(c, s, step);
            SourceOk(c, s') && s.clock <= s'.clock && s'.tick == s.tick
  {}

  lemma {:induction false} SourceRun(c: Config, s: State, steps: seq<Step>)
    requires SourceOk(c, s) && SourceOnly(steps) && Possible(c, s, steps)
    ensures var end := Run(c, s, steps);
            SourceOk(c, end) && s.clock <= end.clock && end.tick == s.tick
    decreases |steps|
  {
    if steps != [] {
      SourceStep(c, s, steps[0]);
      SourceRun(c, Apply(c, s, steps[0]), steps[1..]);
    }
  }

  /** A row version in the source at the end was there all the time, or it is stamped no earlier
      than the lag before the beginning. */
  lemma {:induction false} UnchangedOrRecent(c: Config, s: State, steps: seq<Step>, k: int)
    requires SourceOk(c, s) && SourceOnly(steps) && Possible(c, s, steps) && !c.kind.Integer?
    requires k in Run(c, s, steps).source && Run(c, s, steps).source[k].stamp.Some?
    ensures var r := Run(c, s, steps).source[k];
            Unchanged(c, s, steps, k, r) || Floor(c, s.clock) <= r.stamp.value
    decreases |steps|
  {
    if steps != [] {
      var step := steps[0];
      var s' := Apply(c, s, step);
      var r := Run(c, s, steps).source[k];
      SourceStep(c, s, step);
      UnchangedOrRecent(c, s', steps[1..], k);
      FloorGrows(c, s.clock, s'.clock);
      if Unchanged(c, s', steps[1..], k, r) {
        assert Seen(c, s', steps[1..], s'.source);
        if step.Commit? && k in step.writes {
          assert MayAppear(c, s, MarkOf(r));
        }
      }
    }
  }

  // ---------------------------------------------------------------- the handover

  /** The two answers of the seeding's queries, in order, somewhere in this run. */
  ghost predicate SeededDuring(c: Config, s: State, steps: seq<Step>, clock: int, m: Mark)
    requires Possible(c, s, steps)
  {
    exists first, second ::
      && Seen(c, s, steps, first) && Seen(c, s, steps, second)
      && SeedOf(first, second, m) && NoFutureStamps(c, clock, first)
  }

  /** `s` is where the incremental ticks take over: the bootstrap `b` of an empty table began at
      `s0`, planned at least one chunk on one snapshot and let every extraction read another one,
      until all its chunks were DONE; `delay` or less after the beginning the watermark was seeded
      from the source. Without a chunk nothing is seeded. */
  ghost predicate HandoverOf(c: Config, delay: nat, s: State, job: B.Job, b: B.State, planned: seq<Row>, s0: State, steps: seq<Step>) {
    && s0.tick.Idle? && SourceOk(c, s0) && SourceOnly(steps) && Possible(c, s0, steps)
    && job.plan != [] && B.Reached(job, b) && L.AllDone(job, b)
    && ReadDuring(c, s0, steps, planned)
    && (forall r :: r in planned ==> Hits(job.plan, r) == 1)
    && (forall a :: a in b.extracted ==> ReadDuring(c, s0, steps, a.read))
    && s.mark.Some? && SeededDuring(c, s0, steps, s.clock, s.mark.value)
    && s == Run(c, s0, steps).(lake := B.LakeRows(b), mark := s.mark)
    && s.clock - s0.clock <= delay
  }

  ghost predicate Handover(c: Config, delay: nat, s: State) {
    exists job, b, planned, s0, steps :: HandoverOf(c, delay, s, job, b, planned, s0, steps)
  }

  /** A row that never changed while the bootstrap ran is the only one of its key in the lake,
      whatever snapshots the extractions read, however often chunks were repeated and their objects
      overwritten. */
  lemma UnchangedIsCopied(c: Config, job: B.Job, b: B.State, planned: seq<Row>, s0: State, steps: seq<Step>, k: int, r: Row)
    requires Possible(c, s0, steps) && B.Reached(job, b) && L.AllDone(job, b)
    requires ReadDuring(c, s0, steps, planned) && forall x :: x in planned ==> Hits(job.plan, x) == 1
    requires forall a :: a in b.extracted ==> ReadDuring(c, s0, steps, a.read)
    requires r.id == Some(k) && Unchanged(c, s0, steps, k, r)
    ensures Holds(B.LakeRows(b), r)
  {
    hide B.Reached, L.AllDone, B.LakeRows, Seen, Hits, Unchanged, ReadDuring;
    UnchangedIsRead(c, s0, steps, planned, k, r);
    var w := L.HitsOnce(job.plan, r);
    DoneChunk(job, b, w);
    var a := L.DoneAttempt(job, b, w);
    UnchangedIsRead(c, s0, steps, b.attempts[a].read, k, r);
    ReadIsShown(job, b, w, a, r);
    forall x | x in B.LakeRows(b) && x.id == r.id
      ensures x == r
    {
      L.LakeRowWasRead(job, b, x);
      var v: nat :| L.ReadBySome(job, b, x, v);
      var e :| e in b.extracted && e.owner == v && x in e.read;
      UnchangedIsRead(c, s0, steps, e.read, k, r);
    }
  }

  lemma DoneChunk(job: B.Job, b: B.State, w: nat)
    requires L.AllDone(job, b) && w < |job.plan|
    ensures B.ChunkDone(job, b, w)
  {}

  /** What an attempt read is in the lake while its parts are what is stored. */
  lemma ReadIsShown(job: B.Job, b: B.State, w: nat, a: nat, r: Row)
    requires B.Reached(job, b) && L.HeldAttempt(b, w, a) && B.PartsOf(job, b.attempts[a])
    requires |b.table.calls| == |b.attempts| && L.OnlyChunk(job.plan, r, w) && r in b.attempts[a].read
    ensures r in B.LakeRows(b)
  {
    L.HeldWeight(job, b.objects, b.attempts[a], r);
    L.LakeIsWhatIsStored(job, b, r);
    B.SumAtLeast(b.table.calls, b.attempts, B.OfRow(b.objects, r), a);
    assert multiset(B.LakeRows(b))[r] > 0;
  }

  lemma UnchangedIsRead(c: Config, s0: State, steps: seq<Step>, rows: seq<Row>, k: int, r: Row)
    requires Possible(c, s0, steps) && ReadDuring(c, s0, steps, rows)
    requires r.id == Some(k) && Unchanged(c, s0, steps, k, r)
    ensures r in rows && forall x :: x in rows && x.id == Some(k) ==> x == r
  {
    var source :| Seen(c, s0, steps, source) && TableOf(rows, source);
    assert FromSnapshot(r, source);
  }

  /** The handed-over lake is a bootstrap snapshot in the sense of `NoRowLost`. */
  lemma HandoverIsBootstrapped(c: Config, delay: nat, s: State, job: B.Job, b: B.State, planned: seq<Row>, s0: State, steps: seq<Step>)
    returns (boot: map<int, Row>)
    requires !c.kind.Integer? && HandoverOf(c, delay, s, job, b, planned, s0, steps)
    ensures SeededWithin(c, s, boot, s0.clock, delay)
  {
    hide B.Reached, L.AllDone, B.LakeRows, Hits, ReadDuring, Run, SourceOnly, Seen, SeedOf;
    SourceRun(c, s0, steps);
    var end := Run(c, s0, steps);
    boot := map k | k in s.source && Unchanged(c, s0, steps, k, s.source[k]) :: s.source[k];
    forall k | k in boot
      ensures Holds(s.lake, boot[k])
    {
      UnchangedIsCopied(c, job, b, planned, s0, steps, k, s.source[k]);
    }
    forall k | k in s.source && s.source[k].stamp.Some?
      ensures (k in boot && boot[k] == s.source[k]) || Floor(c, s0.clock) <= s.source[k].stamp.value
    {
      UnchangedOrRecent(c, s0, steps, k);
    }
  }

  ghost predicate NeverLosesFromScratch(c: Config, delay: nat) {
    forall s, steps :: Handover(c, delay, s) && Possible(c, s, steps) ==> Covered(c, Run(c, s, steps))
  }

  /** MAIN: bootstrap an empty table while the source goes on, seed, then tick forever: no run ever
      loses a row exactly when the watermark is a time, the configuration is safe, and the overlap
      alone exceeds the lag plus the time the bootstrap took. An integer watermark is never safe:
      it has no overlap, so the seed passes over what was written meanwhile. */
  lemma NeverLosesFromScratchExactly(c: Config, delay: nat)
    ensures NeverLosesFromScratch(c, delay) <==> !c.kind.Integer? && Safe(c) && Safe(SeedConfig(c, delay))
  {
    if !c.kind.Integer? && Safe(c) && Safe(SeedConfig(c, delay)) {
      forall s, steps | Handover(c, delay, s) && Possible(c, s, steps)
        ensures Covered(c, Run(c, s, steps))
      {
        var job, b, planned, s0, before :| HandoverOf(c, delay, s, job, b, planned, s0, before);
        var boot := HandoverIsBootstrapped(c, delay, s, job, b, planned, s0, before);
        SeedNeverLosesExactly(c, delay);
      }
    } else {
      var s, steps := LostFromScratch(c, delay);
      assert !Covered(c, Run(c, s, steps));
    }
  }

  /** MAIN: the same in the settings' seconds and the clock's microseconds: the overlap must exceed
      lag plus `delay`; for a date, whose overlap counts whole days, lag plus `delay` may take all
      but one of them, and so may lag less zone less gap. */
  lemma NeverLosesFromScratchInSettings(c: Config, delay: nat)
    ensures NeverLosesFromScratch(c, delay) <==>
            match c.kind
            case TimestampTz => c.lag + delay < c.settings.overlap * 1_000_000
            case TimestampNaive => c.lag + delay < c.settings.overlap * 1_000_000
            case Date =>
              exists days: int :: OverlapDays(c.settings.overlap, days) &&
                                  c.lag + delay <= (days - 1) * 86_400_000_000 &&
                                  c.lag - c.zone - c.settings.gap * 1_000_000 <= (days - 1) * 86_400_000_000
            case Integer => false
  {
    NeverLosesFromScratchExactly(c, delay);
    SafeInSettings(c);
    SafeInSettings(SeedConfig(c, delay));
    forall a: int, b: int | OverlapDays(c.settings.overlap, a) && OverlapDays(c.settings.overlap, b)
      ensures a == b
    {
      OverlapDaysIs(c.settings.overlap, a);
      OverlapDaysIs(c.settings.overlap, b);
    }
  }

  // ---------------------------------------------------------------- the failing runs

  /** The bootstrap of a table that is still empty when it is copied: one chunk, no rows. */
  lemma EmptyBootstrap(c: Config, s0: State, steps: seq<Step>) returns (job: B.Job, b: B.State)
    requires s0.source == map[] && Possible(c, s0, steps)
    ensures job.plan != [] && B.Reached(job, b) && L.AllDone(job, b) && B.LakeRows(b) == []
    ensures ReadDuring(c, s0, steps, [])
    ensures forall a :: a in b.extracted ==> a.read == []
  {
    job := R.OneChunk();
    b := R.NothingToCopy();
    assert Seen(c, s0, steps, map[]) && TableOf([], map[]);
  }

  lemma LostFromScratch(c: Config, delay: nat) returns (s: State, steps: seq<Step>)
    requires c.kind.Integer? || !(Safe(c) && Safe(SeedConfig(c, delay)))
    ensures Handover(c, delay, s) && Possible(c, s, steps) && !Covered(c, Run(c, s, steps))
  {
    hide B.Reached, L.AllDone, B.LakeRows, Seen, SeedOf, ReadDuring, SourceOnly;
    var s0, before;
    if c.kind.Integer? {
      var row := RowAt(5, 0);
      s, steps := OneRow(0, row), [];
      s0, before := RowAppears(c, s, row);
      assert s.source[5] == row && AtOrBelow(c, Current(s.mark), row);
    } else if Safe(SeedConfig(c, delay)) {
      var seed;
      s, seed, steps := LostAfterSeed(c);
      s0, before := RowAppears(c, s, seed);
    } else {
      s := LostToSeed(c, delay);
      steps := [];
      s0, before := TwoRowsAppear(c, delay, s);
    }
    var job, b := EmptyBootstrap(c, s0, before);
    assert HandoverOf(c, delay, s, job, b, [], s0, before);
  }

  /** The source at the end of a run is among those seen, and so may be the seed's. */
  lemma {:induction false} EndIsSeen(c: Config, s: State, steps: seq<Step>)
    requires Possible(c, s, steps)
    ensures Seen(c, s, steps, Run(c, s, steps).source)
    decreases |steps|
  {
    if steps != [] {
      EndIsSeen(c, Apply(c, s, steps[0]), steps[1..]);
    }
  }

  lemma SeededAtEnd(c: Config, s0: State, steps: seq<Step>, s: State)
    requires Possible(c, s0, steps) && s.source == Run(c, s0, steps).source
    requires s.mark.Some? && IsSeed(s.source, s.mark.value) && NoFutureStamps(c, s.clock, s.source)
    ensures SeededDuring(c, s0, steps, s.clock, s.mark.value)
  {
    EndIsSeen(c, s0, steps);
    SeedOfOne(s.source, s.mark.value);
  }

  lemma RowAppears(c: Config, s: State, seed: Row) returns (s0: State, steps: seq<Step>)
    requires c.kind.Date? || c.kind.Integer?
    requires seed.stamp.Some? && seed.id.Some?
    requires s == OneRow(s.clock, seed) && Floor(c, s.clock) <= seed.stamp.value
    requires c.kind.Date? ==> seed.stamp.value <= Latest(c, s.clock)
    ensures s0.tick.Idle? && s0.source == map[] && s0.clock == s.clock && SourceOk(c, s0)
    ensures SourceOnly(steps) && Possible(c, s0, steps)
    ensures s == Run(c, s0, steps).(lake := [], mark := s.mark)
    ensures SeededDuring(c, s0, steps, s.clock, s.mark.value)
  {
    s0 := State(s.clock, map[], Mark(seed.stamp.value, seed.id.value - 1), [], None, Idle);
    var commit := Commit(map[seed.id.value := seed], {}, MarkOf(seed));
    assert commit.writes[seed.id.value] == seed;
    Follow(c, s0, commit, []);
    steps := [commit] + [];
    assert Apply(c, s0, commit).source == s.source;
    SeededAtEnd(c, s0, steps, s);
  }

  /** When the older of the two rows can become visible. */
  lemma AppearTime(c: Config, delay: nat, clock: int) returns (t: int)
    requires !c.kind.Integer? && Floor(c, clock - delay) <= Latest(c, clock) - WindowOverlap(c)
    ensures clock - delay <= t <= clock
    ensures Floor(c, t) <= Latest(c, clock) - WindowOverlap(c)
    ensures c.kind.TimestampNaive? ==> Latest(c, clock) - WindowOverlap(c) <= t + c.zone && Latest(c, clock) <= clock + c.zone
    ensures Floor(c, clock) <= Latest(c, clock)
  {
    t := if c.kind.TimestampNaive? then Max(clock - delay, clock - WindowOverlap(c)) else clock - delay;
    if c.kind.Date? {
      FloorDayGrows(clock + c.zone - c.lag, clock + c.zone);
    }
  }

  lemma TwoRowsAppear(c: Config, delay: nat, s: State) returns (s0: State, steps: seq<Step>)
    requires !c.kind.Integer? && s == TwoRows(c, s.clock)
    requires Floor(c, s.clock - delay) <= Latest(c, s.clock) - WindowOverlap(c)
    ensures s0.tick.Idle? && s0.source == map[] && s0.clock == s.clock - delay && SourceOk(c, s0)
    ensures SourceOnly(steps) && Possible(c, s0, steps)
    ensures s == Run(c, s0, steps).(lake := [], mark := s.mark)
    ensures SeededDuring(c, s0, steps, s.clock, s.mark.value)
  {
    TwoRowsSeed(c, s);
    hide IsSeed, NoFutureStamps, SeededDuring, SourceOnly;
    var old_, recent := s.source[1], s.source[2];
    var t := AppearTime(c, delay, s.clock);
    hide Floor, Latest, TwoRows;
    s0 := State(s.clock - delay, map[], Mark(old_.stamp.value, 0), [], None, Idle);
    var s1 := s0.(clock := t);
    OneCommit(c, s1, old_);
    var s2 := s1.(source := map[1 := old_], high := MarkOf(old_));
    assert s1.source[1 := old_] == s2.source;
    var s3 := s2.(clock := s.clock);
    OneCommit(c, s3, recent);
    assert s3.source[2 := recent] == s.source;
    hide Possible, Run, CommitAllowed, SourceOk;
    var first, second := Appears(old_), Appears(recent);
    NoSteps(c, Apply(c, s3, second));
    Follow(c, s3, second, []);
    Follow(c, s2, Pass(s.clock), [second] + []);
    Follow(c, s1, first, [Pass(s.clock)] + ([second] + []));
    steps := [Pass(t)] + ([first] + ([Pass(s.clock)] + ([second] + [])));
    Follow(c, s0, Pass(t), [first] + ([Pass(s.clock)] + ([second] + [])));
    assert forall i :: 0 <= i < |steps| ==> steps[i].Pass? || steps[i].Commit?;
    AllSource(steps);
    SeededAtEnd(c, s0, steps, s);
  }

  lemma AllSource(steps: seq<Step>)
    requires forall i :: 0 <= i < |steps| ==> steps[i].Pass? || steps[i].Commit?
    ensures SourceOnly(steps)
  {}

  lemma TwoRowsSeed(c: Config, s: State)
    requires !c.kind.Integer? && s == TwoRows(c, s.clock)
    ensures IsSeed(s.source, s.mark.value) && NoFutureStamps(c, s.clock, s.source)
  {}

  lemma NoSteps(c: Config, s: State)
    ensures Possible(c, s, []) && Run(c, s, []) == s
  {}

  /** The transaction that inserts one row. */
  function Appears(r: Row): Step
    requires r.id.Some? && r.stamp.Some?
  {
    Commit(map[r.id.value := r], {}, MarkOf(r))
  }

  lemma OneCommit(c: Config, s: State, r: Row)
    requires r.id.Some? && r.stamp.Some?
    requires MayAppear(c, s, MarkOf(r)) && Le(s.high, MarkOf(r))
    ensures Enabled(c, s, Appears(r))
    ensures Apply(c, s, Appears(r)) == s.(source := s.source[r.id.value := r], high := MarkOf(r))
  {
    var step := Appears(r);
    assert step.writes[r.id.value] == r;
    assert s.source - {} + step.writes == s.source[r.id.value := r];
  }
}
