/** Particular runs of the bootstrap protocol: an attempt that nothing disturbs, and a chunk that is
    committed twice. */
module BootstrapRuns {
  import opened Prelude
  import opened Rows
  import opened Chunker
  import opened CopyWorker
  import opened ChunkState
  import opened Bootstrap
  import opened BootstrapLake
  import Catalog = CatalogCommit

  // ---------------------------------------------------------------- one attempt as a run

  /** `end` is reached from `s` by steps of worker `w` alone. */
  ghost predicate ByWorker(job: Job, s: State, w: nat, end: State) {
    exists steps: seq<Step> :: Possible(job, s, steps) && Run(job, s, steps) == end && forall i :: 0 <= i < |steps| ==> steps[i].w == w
  }

  lemma NoSteps(job: Job, s: State)
    ensures Possible(job, s, []) && Run(job, s, []) == s
  {}

  lemma {:induction false} OneMoreStep(job: Job, s: State, steps: seq<Step>, step: Step)
    requires Possible(job, s, steps) && Enabled(job, Run(job, s, steps), step)
    ensures Possible(job, s, steps + [step])
    ensures Run(job, s, steps + [step]) == Apply(job, Run(job, s, steps), step)
    decreases |steps|
  {
    hide Apply, Enabled;
    if steps == [] {
      assert ([] + [step])[0] == step && ([] + [step])[1..] == [];
      NoSteps(job, Apply(job, s, step));
    } else {
      assert (steps + [step])[0] == steps[0] && (steps + [step])[1..] == steps[1..] + [step];
      OneMoreStep(job, Apply(job, s, steps[0]), steps[1..], step);
    }
  }

  lemma ByStep(job: Job, s: State, w: nat, mid: State, step: Step)
    requires ByWorker(job, s, w, mid) && Enabled(job, mid, step) && step.w == w
    ensures ByWorker(job, s, w, Apply(job, mid, step))
  {
    hide Possible, Run, Apply, Enabled;
    var steps: seq<Step> :| Possible(job, s, steps) && Run(job, s, steps) == mid && forall i :: 0 <= i < |steps| ==> steps[i].w == w;
    OneMoreStep(job, s, steps, step);
    assert forall i :: 0 <= i < |steps + [step]| ==> (steps + [step])[i].w == w;
  }

  /** All of the state but worker `w`'s phase and count of overwrites, and the objects. */
  ghost predicate UploadsOnly(s: State, end: State, w: nat) {
    && end.table == s.table && end.attempts == s.attempts && end.store == s.store
    && w < |s.workers| && |end.workers| == |s.workers| && end.workers[w].gapFailures == s.workers[w].gapFailures
  }

  /** The remaining uploads of an attempt. */
  lemma {:induction false} UploadAll(job: Job, start: State, s: State, w: nat) returns (end: State)
    requires ByWorker(job, start, w, s)
    requires w < |s.workers| && w < |job.plan| && s.workers[w].phase.Uploading?
    requires s.workers[w].phase.a.owner == w && Holding(s.objects, s.workers[w].phase.a, s.workers[w].phase.k)
    ensures ByWorker(job, start, w, end) && UploadsOnly(s, end, w)
    ensures var a := s.workers[w].phase.a;
            end.workers[w].phase == Uploading(a, |a.parts|) && Holding(end.objects, a, |a.parts|)
    decreases |s.workers[w].phase.a.parts| - s.workers[w].phase.k
  {
    hide ByWorker, AnyLanded;
    var phase := s.workers[w].phase;
    end := s;
    if phase.k < |phase.a.parts| {
      var s' := Apply(job, s, Upload(w));
      ByStep(job, start, w, s, Upload(w));
      end := UploadAll(job, start, s', w);
    }
  }

  /** Submit, load, commit. */
  lemma CommitAlone(job: Job, start: State, s: State, w: nat) returns (end: State)
    requires ByWorker(job, start, w, s)
    requires w < |s.workers| && w < |job.plan| && s.workers[w].phase.Uploading? && job.maxAttempts >= 1
    requires s.workers[w].phase.k == |s.workers[w].phase.a.parts| > 0
    ensures ByWorker(job, start, w, end) && end.objects == s.objects && end.store == s.store
    ensures end.table.files == s.table.files + Paths(s.workers[w].phase.a)
    ensures |end.workers| == |s.workers| && end.workers[w] == s.workers[w].(phase := Committing(|s.table.calls|))
    ensures end.attempts == s.attempts + [s.workers[w].phase.a] && |end.table.calls| == |s.table.calls| + 1
    ensures end.table.calls[..|s.table.calls|] == s.table.calls && end.table.calls[|s.table.calls|].phase.Returned?
  {
    hide ByWorker;
    var s1 := Apply(job, s, Submit(w));
    ByStep(job, start, w, s, Submit(w));
    var s2 := Apply(job, s1, Load(w));
    ByStep(job, start, w, s1, Load(w));
    end := Apply(job, s2, AddFiles(w));
    ByStep(job, start, w, s2, AddFiles(w));
  }

  lemma FinishAlone(job: Job, start: State, s: State, w: nat, uri: Option<string>) returns (end: State)
    requires ByWorker(job, start, w, s)
    requires w < |s.workers| && w < |job.plan| && s.workers[w].phase.Committing? && CallIn(s, s.workers[w].phase.call, true)
    ensures ByWorker(job, start, w, end) && end.table == s.table && end.objects == s.objects && end.extracted == s.extracted
    ensures ChunkDone(job, end, w)
    ensures |end.workers| == |s.workers| && end.workers[w] == s.workers[w].(phase := Finished)
  {
    hide ByWorker, ChunkKey, Put;
    end := Apply(job, s, MarkDone(w, uri));
    ByStep(job, start, w, s, MarkDone(w, uri));
    StoreFrame(job, s, w, Done, uri, w);
  }

  /** The guard, the RUNNING record and the COPY. */
  lemma ReadAlone(job: Job, start: State, s: State, w: nat, read: seq<Row>, parts: seq<File>) returns (end: State)
    requires ByWorker(job, start, w, s)
    requires w < |s.workers| && w < |job.plan| && s.workers[w].phase.Ready? && !ChunkDone(job, s, w)
    requires PartsOf(job, Attempt(w, read, parts))
    ensures ByWorker(job, start, w, end)
    ensures end.table == s.table && end.attempts == s.attempts && end.objects == s.objects
    ensures end.extracted == s.extracted + [Attempt(w, read, parts)]
    ensures |end.workers| == |s.workers| && end.workers[w] == s.workers[w].(phase := Uploading(Attempt(w, read, parts), 0))
  {
    hide ByWorker, PartsOf, ChunkKey, Put, ChunkDone;
    NotListed(job, s, w);
    var s1 := Apply(job, s, Start(w));
    ByStep(job, start, w, s, Start(w));
    end := Apply(job, s1, Extract(w, read, parts));
    ByStep(job, start, w, s1, Extract(w, read, parts));
  }

  lemma NotListed(job: Job, s: State, w: nat)
    requires !ChunkDone(job, s, w)
    ensures Key(job, w) !in ListDone(s.store, job.run)
  {
    ListDoneIsDone(s.store, job.run, Key(job, w));
  }

  /** An attempt that meets no conflict and no fault is a run of the machine, and does what the
      completed outcome of `BootstrapOp.ExtractChunkOp` promises: its parts are what is stored, its
      files are appended once and the chunk is DONE. */
  lemma UninterruptedAttempt(job: Job, s: State, w: nat, read: seq<Row>, parts: seq<File>, uri: Option<string>) returns (end: State)
    requires w < |s.workers| && w < |job.plan| && s.workers[w].phase.Ready? && !ChunkDone(job, s, w)
    requires PartsOf(job, Attempt(w, read, parts)) && parts != [] && job.maxAttempts >= 1
    requires |s.table.calls| == |s.attempts|
    ensures ByWorker(job, s, w, end)
    ensures end.table.files == s.table.files + Paths(Attempt(w, read, parts))
    ensures Holding(end.objects, Attempt(w, read, parts), |parts|) && ChunkDone(job, end, w)
    ensures w < |end.workers| && end.workers[w].phase.Finished? && end.workers[w].gapFailures == s.workers[w].gapFailures
  {
    NoSteps(job, s);
    hide PartsOf, Possible, Run, Paths, ChunkDone;
    var s1 := ReadAlone(job, s, s, w, read, parts);
    var s2 := UploadAll(job, s, s1, w);
    var s3 := CommitAlone(job, s, s2, w);
    end := FinishAlone(job, s, s3, w, uri);
  }

  // ---------------------------------------------------------------- a chunk committed twice

  /** A table of one chunk without a predicate. */
  function OneChunk(): Job {
    Job("run", "public.t", PlanFullChunk(), 10)
  }

  /** An attempt on a source of one row. */
  function Single(v: Row): Attempt {
    Attempt(0, [v], [[v]])
  }

  lemma SingleParts(v: Row)
    ensures PartsOf(OneChunk(), Single(v))
  {
    assert Matching([v], FULL) == [v] + Matching([], FULL);
    assert [[v]][1..] == [] && [v][1..] == [];
    assert Flatten([[v]]) == [v];
  }

  /** An empty source: nothing is stored, nothing is committed, the chunk is DONE. */
  lemma NothingToCopy() returns (done: State)
    ensures Reached(OneChunk(), done) && AllDone(OneChunk(), done) && LakeRows(done) == []
    ensures forall a :: a in done.extracted ==> a.read == []
  {
    var job, start := OneChunk(), Initial(OneChunk());
    StartsHere(job, 0);
    NotDoneYet();
    NoParts();
    hide ByWorker, PartsOf, ChunkDone, RowsAt, Reached, LakeRows, AllDone, Initial;
    var s1 := ReadAlone(job, start, start, 0, [], []);
    var s2 := SubmitNothing(s1);
    done := FinishAlone(job, start, s2, 0, None);
    ByWorkerReached(job, 0, done);
    OneChunkDone(done);
    NoFiles(done);
  }

  lemma OneChunkDone(s: State)
    requires ChunkDone(OneChunk(), s, 0)
    ensures AllDone(OneChunk(), s)
  {}

  lemma StartsHere(job: Job, w: nat)
    ensures ByWorker(job, Initial(job), w, Initial(job))
    ensures Initial(job).table.files == [] && Initial(job).extracted == [] && Initial(job).objects == map[]
    ensures Initial(job).table.calls == [] && Initial(job).attempts == []
    ensures |Initial(job).workers| == |job.plan| && forall v :: 0 <= v < |job.plan| ==> Initial(job).workers[v] == Worker(Ready, 0, 0)
  {
    NoSteps(job, Initial(job));
  }

  lemma NoParts()
    ensures PartsOf(OneChunk(), Attempt(0, [], []))
  {}

  lemma NoFiles(s: State)
    requires s.table.files == []
    ensures LakeRows(s) == []
  {}

  lemma SubmitNothing(s: State) returns (next: State)
    requires ByWorker(OneChunk(), Initial(OneChunk()), 0, s)
    requires |s.workers| == 1 && s.workers[0].phase == Uploading(Attempt(0, [], []), 0)
    ensures ByWorker(OneChunk(), Initial(OneChunk()), 0, next)
    ensures next.table.files == s.table.files && next.objects == s.objects && next.extracted == s.extracted
    ensures |next.workers| == 1 && next.workers[0].phase.Committing? && CallIn(next, next.workers[0].phase.call, true)
  {
    var job := OneChunk();
    assert Paths(Attempt(0, [], [])) == [];
    hide ByWorker;
    next := Apply(job, s, Submit(0));
    ByStep(job, Initial(job), 0, s, Submit(0));
  }

  /** Start, read the one row, store it. */
  lemma StoreOne(s: State, v: Row) returns (up: State)
    requires ByWorker(OneChunk(), Initial(OneChunk()), 0, s)
    requires |s.workers| == 1 && s.workers[0].phase.Ready? && !ChunkDone(OneChunk(), s, 0)
    ensures ByWorker(OneChunk(), Initial(OneChunk()), 0, up)
    ensures up.table == s.table && up.attempts == s.attempts && up.objects == s.objects[Path(0, 0) := [v]]
    ensures |up.workers| == 1 && up.workers[0].phase == Uploading(Single(v), 1) && up.workers[0].gapFailures == s.workers[0].gapFailures
  {
    var job, start := OneChunk(), Initial(OneChunk());
    SingleParts(v);
    hide ByWorker, PartsOf, AnyLanded, ChunkDone;
    var s1 := ReadAlone(job, start, s, 0, [v], [[v]]);
    up := Apply(job, s1, Upload(0));
    ByStep(job, start, 0, s1, Upload(0));
  }

  /** The attempt dies after its commit; the FAILED record is written. */
  lemma DieInGap(s: State) returns (dead: State)
    requires ByWorker(OneChunk(), Initial(OneChunk()), 0, s)
    requires |s.workers| == 1 && s.workers[0].phase.Committing? && CallIn(s, s.workers[0].phase.call, true)
    ensures ByWorker(OneChunk(), Initial(OneChunk()), 0, dead)
    ensures dead.table == s.table && dead.attempts == s.attempts && dead.objects == s.objects
    ensures |dead.workers| == 1 && dead.workers[0].phase.Ready? && dead.workers[0].gapFailures == s.workers[0].gapFailures + 1
    ensures !ChunkDone(OneChunk(), dead, 0)
  {
    var job := OneChunk();
    hide ByWorker, ChunkKey, Put;
    dead := Apply(job, s, Die(0, true));
    ByStep(job, Initial(job), 0, s, Die(0, true));
    StoreFrame(job, s, 0, Failed, None, 0);
  }

  lemma ByWorkerReached(job: Job, w: nat, s: State)
    requires ByWorker(job, Initial(job), w, s)
    ensures Reached(job, s)
  {}

  /** MAIN: a chunk whose first attempt dies between its commit and its DONE record. As soon as the
      second attempt stores what it read, the lake shows that instead, although nothing of it is
      committed: what the landed attempt read is then what the lake shows only if both read the
      same row. In the end all chunks are DONE and the row is there twice. */
  lemma CommittedTwice(v1: Row, v2: Row) returns (overwritten: State, done: State)
    ensures Reached(OneChunk(), overwritten) && LakeRows(overwritten) == [v2]
    ensures |overwritten.table.calls| == |overwritten.attempts|
    ensures (forall r :: multiset(LakeRows(overwritten))[r] ==
                         Sum(overwritten.table.calls, overwritten.attempts, OfRead(OneChunk().plan, r))) <==> v1 == v2
    ensures Reached(OneChunk(), done) && AllDone(OneChunk(), done) && LakeRows(done) == [v2, v2]
    ensures |done.workers| == 1 && done.workers[0].gapFailures == 1
  {
    var job, start := OneChunk(), Initial(OneChunk());
    var dead := FirstTry(v1);
    hide ByWorker, LakeRows, Sum, RowsAt, ChunkDone, Reached, AllDone;
    overwritten := StoreOne(dead, v2);
    OneLanded(overwritten, v1, v2);
    ByWorkerReached(job, 0, overwritten);
    done := SecondLanding(overwritten, v2);
    TwoFiles(done, v2);
    ByWorkerReached(job, 0, done);
  }

  /** The first attempt commits its one object and dies. */
  lemma FirstTry(v: Row) returns (dead: State)
    ensures ByWorker(OneChunk(), Initial(OneChunk()), 0, dead)
    ensures dead.table.files == [Path(0, 0)] && dead.objects == map[Path(0, 0) := [v]]
    ensures dead.attempts == [Single(v)] && |dead.table.calls| == 1 && dead.table.calls[0].phase.Returned?
    ensures |dead.workers| == 1 && dead.workers[0].phase.Ready? && dead.workers[0].gapFailures == 1
    ensures !ChunkDone(OneChunk(), dead, 0)
  {
    var job, start := OneChunk(), Initial(OneChunk());
    StartsHere(job, 0);
    NotDoneYet();
    hide ByWorker, ChunkDone;
    var up := StoreOne(start, v);
    var landed := CommitAlone(job, start, up, 0);
    SinglePaths(v);
    dead := DieInGap(landed);
  }

  lemma SecondLanding(s: State, v: Row) returns (done: State)
    requires ByWorker(OneChunk(), Initial(OneChunk()), 0, s) && |s.table.calls| == |s.attempts|
    requires |s.workers| == 1 && s.workers[0].phase == Uploading(Single(v), 1)
    ensures ByWorker(OneChunk(), Initial(OneChunk()), 0, done) && AllDone(OneChunk(), done)
    ensures done.table.files == s.table.files + [Path(0, 0)] && done.objects == s.objects
    ensures |done.workers| == 1 && done.workers[0].gapFailures == s.workers[0].gapFailures
  {
    var job, start := OneChunk(), Initial(OneChunk());
    hide ByWorker, ChunkDone;
    SinglePaths(v);
    var again := CommitAlone(job, start, s, 0);
    done := FinishAlone(job, start, again, 0, None);
  }

  lemma NotDoneYet()
    ensures !ChunkDone(OneChunk(), Initial(OneChunk()), 0)
  {}

  lemma SinglePaths(v: Row)
    ensures Paths(Single(v)) == [Path(0, 0)]
  {}

  lemma OneLanded(s: State, v1: Row, v2: Row)
    requires s.table.files == [Path(0, 0)] && s.objects == map[Path(0, 0) := [v2]]
    requires s.attempts == [Single(v1)] && |s.table.calls| == 1 && s.table.calls[0].phase.Returned?
    ensures LakeRows(s) == [v2]
    ensures (forall r :: multiset(LakeRows(s))[r] == Sum(s.table.calls, s.attempts, OfRead(OneChunk().plan, r))) <==> v1 == v2
  {
    assert s.table.files[1..] == [] && s.table.calls[..0] == [] && s.attempts[..0] == [];
    var p := Path(0, 0);
    assert p in s.objects && Object(s.objects, p) == [v2];
    assert RowsAt(s.objects, [p]) == [v2] + RowsAt(s.objects, [p][1..]);
    assert [v2] + [] == [v2];
    forall r
      ensures Sum(s.table.calls, s.attempts, OfRead(OneChunk().plan, r)) == multiset([v1])[r]
    {
      assert Weight(Single(v1), OfRead(OneChunk().plan, r)) == multiset([v1])[r];
    }
    assert multiset([v2])[v2] == 1;
  }

  lemma TwoFiles(s: State, v: Row)
    requires s.table.files == [Path(0, 0), Path(0, 0)] && Path(0, 0) in s.objects && s.objects[Path(0, 0)] == [v]
    ensures LakeRows(s) == [v, v]
  {
    var p := Path(0, 0);
    assert s.table.files[1..] == [p] && [p][1..] == [];
    assert RowsAt(s.objects, [p]) == [v] + [];
    assert LakeRows(s) == [v] + [v];
  }
}
