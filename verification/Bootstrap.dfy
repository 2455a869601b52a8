/** The bootstrap protocol: parallel chunk workers, each retried, uploading to one bucket and
    committing to one table. */
module Bootstrap {
  import opened Prelude
  import opened Rows
  import opened Chunker
  import opened CopyWorker
  import opened ChunkState
  import Catalog = CatalogCommit

  /** A parquet file is its rows. */
  type File = seq<Row>

  /** Object `part` of `chunk`: every attempt of a chunk uploads to the same objects. */
  datatype Path = Path(chunk: nat, part: nat)

  /** What is stored now. A table refers to objects, it does not hold their rows. */
  type Objects = map<Path, File>

  /** What stays fixed during a run. */
  datatype Job = Job(run: string, fqn: string, plan: seq<Chunk>, maxAttempts: int)

  /** One extraction: its chunk, the source snapshot its COPY read, and the parts it cut. The
      exporter's snapshot is released before the first chunk starts, so every attempt may read
      another one. */
  datatype Attempt = Attempt(owner: nat, read: seq<Row>, parts: seq<File>)

  /** `Ready` also stands for "between two attempts"; `Uploading` has stored `k` parts. */
  datatype Phase = Ready | Extracting | Uploading(a: Attempt, k: nat) | Committing(call: nat) | Finished

  /** `gapFailures` counts attempts that died after their files reached the table and before
      their DONE record, `overwrites` uploads made after an attempt of the chunk reached it. */
  datatype Worker = Worker(phase: Phase, gapFailures: nat, overwrites: nat)

  /** `attempts[c]` is the extraction whose objects catalog call `c` commits; `extracted` are all
      extractions, those that never came to a commit included. */
  datatype State = State(table: Catalog.Table<Path>, attempts: seq<Attempt>, extracted: seq<Attempt>,
                         objects: Objects, store: Store, workers: seq<Worker>)

  datatype Step =
    | Start(w: nat)                                          // list_done guard, then RUNNING
    | Extract(w: nat, read: seq<Row>, parts: seq<File>)      // COPY from one snapshot
    | Upload(w: nat)                                         // store the next part
    | Submit(w: nat)                                         // enter the commit loop
    | Load(w: nat)                                           // a commit attempt loads the table
    | AddFiles(w: nat)                                       // and tries to commit
    | AddFilesUnseen(w: nat)                                 // or commits, but sees an exception
    | MarkDone(w: nat, uri: Option<string>)                  // DONE record
    | Die(w: nat, recorded: bool)                            // the attempt fails; the FAILED record may not be written
    | Again(w: nat)                                          // the op is executed once more after finishing

  /** Chunk ids are positions in the plan (`OneDayPerChunk`, `RangePlanArithmetic`). */
  function Key(job: Job, w: nat): string {
    ChunkKey(job.fqn, w)
  }

  /** The object key behind a path. */
  function ObjectKey(job: Job, p: Path): string {
    PartKey(BootstrapPrefix(job.run, job.fqn), p.chunk, p.part)
  }

  lemma ObjectKeysDiffer(job: Job, p: Path, q: Path)
    requires ObjectKey(job, p) == ObjectKey(job, q)
    ensures p == q
  {
    var prefix := BootstrapPrefix(job.run, job.fqn);
    PartKeysDiffer(prefix, p.chunk, p.part, prefix, q.chunk, q.part);
  }

  /** Nor do objects of different runs or tables, run ids holding no `=`. */
  lemma RunsKeepApart(job: Job, p: Path, other: Job, q: Path)
    requires ObjectKey(job, p) == ObjectKey(other, q)
    requires '=' !in job.run && '=' !in other.run
    ensures p == q && job.run == other.run && job.fqn == other.fqn
  {
    PartKeysDiffer(BootstrapPrefix(job.run, job.fqn), p.chunk, p.part, BootstrapPrefix(other.run, other.fqn), q.chunk, q.part);
    PrefixesDiffer(job.run, job.fqn, other.run, other.fqn);
  }

  /** The parts of one extraction: together the chunk's rows of the snapshot that was read, in any
      order and cut, none empty. */
  ghost predicate PartsOf(job: Job, a: Attempt) {
    && a.owner < |job.plan|
    && multiset(Flatten(a.parts)) == multiset(Matching(a.read, job.plan[a.owner]))
    && forall f :: f in a.parts ==> f != []
  }

  function Paths(a: Attempt): seq<Path> {
    seq(|a.parts|, i requires 0 <= i => Path(a.owner, i))
  }

  function Object(objects: Objects, p: Path): File {
    if p in objects then objects[p] else []
  }

  /** The rows that readers of these files see. */
  function RowsAt(objects: Objects, files: seq<Path>): seq<Row> {
    if files == [] then [] else Object(objects, files[0]) + RowsAt(objects, files[1..])
  }

  /** The first `k` objects of the attempt's chunk are its own parts. */
  ghost predicate Holding(objects: Objects, a: Attempt, k: nat) {
    k <= |a.parts| && forall i: nat :: i < k ==> Path(a.owner, i) in objects && objects[Path(a.owner, i)] == a.parts[i]
  }

  predicate CallIn(s: State, call: nat, returned: bool) {
    call < |s.table.calls| && if returned then s.table.calls[call].phase.Returned? else Catalog.Landed(s.table.calls[call].phase)
  }

  ghost predicate LandedAttempt(s: State, c: nat) {
    c < |s.attempts| && CallIn(s, c, false)
  }

  ghost predicate AnyLanded(s: State, w: nat) {
    exists c: nat :: LandedAttempt(s, c) && s.attempts[c].owner == w
  }

  predicate InFlight(s: State, w: nat)
    requires w < |s.workers|
  {
    !s.workers[w].phase.Ready? && !s.workers[w].phase.Finished?
  }

  predicate InGap(s: State, w: nat)
    requires w < |s.workers|
  {
    s.workers[w].phase.Committing? && CallIn(s, s.workers[w].phase.call, false)
  }

  ghost predicate Enabled(job: Job, s: State, step: Step) {
    && step.w < |s.workers| && step.w < |job.plan|
    && var phase := s.workers[step.w].phase;
       match step
       case Start(w) => phase.Ready?
       case Extract(w, read, parts) => phase.Extracting? && PartsOf(job, Attempt(w, read, parts))
       case Upload(w) => phase.Uploading? && phase.k < |phase.a.parts|
       case Submit(w) => phase.Uploading? && phase.k == |phase.a.parts|
       case Load(w) => phase.Committing? && Catalog.Enabled(s.table, Catalog.Load(phase.call))
       case AddFiles(w) => phase.Committing? && Catalog.Enabled(s.table, Catalog.AddFiles(phase.call))
       case AddFilesUnseen(w) => phase.Committing? && Catalog.Enabled(s.table, Catalog.AddFilesUnseen(phase.call))
       case MarkDone(w, _) => phase.Committing? && CallIn(s, phase.call, true)
       case Die(w, _) => InFlight(s, w)
       case Again(w) => phase.Finished?
  }

  function At(s: State, w: nat, phase: Phase): State
    requires w < |s.workers|
  {
    s.(workers := s.workers[w := s.workers[w].(phase := phase)])
  }

  function Recorded(job: Job, s: State, w: nat, status: Status, uri: Option<string>): State {
    s.(store := Put(s.store, job.run, Key(job, w), Record(status, uri, None, None)))
  }

  /** The catalog's step behind a step of a worker. */
  function Inner(step: Step, call: nat): Catalog.Step<Path>
    requires step.Load? || step.AddFiles? || step.AddFilesUnseen?
  {
    if step.Load? then Catalog.Load(call) else if step.AddFiles? then Catalog.AddFiles(call) else Catalog.AddFilesUnseen(call)
  }

  ghost function Apply(job: Job, s: State, step: Step): State
    requires Enabled(job, s, step)
  {
    var worker := s.workers[step.w];
    var phase := worker.phase;
    match step
    case Start(w) =>
      if Key(job, w) in ListDone(s.store, job.run) then At(s, w, Finished)
      else At(Recorded(job, s, w, Running, None), w, Extracting)
    case Extract(w, read, parts) =>
      At(s.(extracted := s.extracted + [Attempt(w, read, parts)]), w, Uploading(Attempt(w, read, parts), 0))
    case Upload(w) =>
      s.(objects := s.objects[Path(w, phase.k) := phase.a.parts[phase.k]],
         workers := s.workers[w := Worker(Uploading(phase.a, phase.k + 1), worker.gapFailures,
                                          worker.overwrites + if AnyLanded(s, w) then 1 else 0)])
    case Submit(w) =>
      At(s.(table := Catalog.Apply(s.table, Catalog.Open(Paths(phase.a), job.maxAttempts)), attempts := s.attempts + [phase.a]),
         w, Committing(|s.table.calls|))
    case MarkDone(w, uri) => At(Recorded(job, s, w, Done, uri), w, Finished)
    case Die(w, recorded) =>
      var gap := if InGap(s, w) then 1 else 0;
      var aborted :=
        if phase.Committing? && Catalog.Active(s.table, phase.call)
        then s.(table := Catalog.Apply(s.table, Catalog.Abort(phase.call))) else s;
      var noted := if recorded then Recorded(job, aborted, w, Failed, None) else aborted;
      noted.(workers := s.workers[w := Worker(Ready, worker.gapFailures + gap, worker.overwrites)])
    case Again(w) => At(s, w, Ready)
    case _ => s.(table := Catalog.Apply(s.table, Inner(step, phase.call)))
  }

  ghost predicate Possible(job: Job, s: State, steps: seq<Step>)
    decreases |steps|
  {
    steps != [] ==> Enabled(job, s, steps[0]) && Possible(job, Apply(job, s, steps[0]), steps[1..])
  }

  ghost function Run(job: Job, s: State, steps: seq<Step>): State
    requires Possible(job, s, steps)
    decreases |steps|
  {
    if steps == [] then s else Run(job, Apply(job, s, steps[0]), steps[1..])
  }

  /** An empty table, no objects and no records of this run, every worker waiting. */
  function Initial(job: Job): State {
    State(Catalog.Table([], [], []), [], [], map[], map[], seq(|job.plan|, i => Worker(Ready, 0, 0)))
  }

  /** The rows a reader of the table sees: its files as they are stored now. */
  function LakeRows(s: State): seq<Row> {
    RowsAt(s.objects, s.table.files)
  }

  // ---------------------------------------------------------------- sums over landed attempts

  /** What is summed over the landed attempts: the attempts of a chunk; the copies of a row in the
      objects they refer to; the copies of a row they read and select. */
  datatype Query = OfChunk(w: nat) | OfRow(objects: Objects, r: Row) | OfRead(plan: seq<Chunk>, r: Row)

  function Weight(a: Attempt, q: Query): nat {
    match q
    case OfChunk(w) => if a.owner == w then 1 else 0
    case OfRow(objects, r) => multiset(RowsAt(objects, Paths(a)))[r]
    case OfRead(plan, r) => if a.owner < |plan| && Satisfies(r, plan[a.owner]) then multiset(a.read)[r] else 0
  }

  function Sum(calls: seq<Catalog.Call<Path>>, attempts: seq<Attempt>, q: Query): nat
    requires |calls| == |attempts|
  {
    if calls == [] then 0
    else
      var n := |calls| - 1;
      Sum(calls[..n], attempts[..n], q) + (if Catalog.Landed(calls[n].phase) then Weight(attempts[n], q) else 0)
  }

  lemma {:induction false} SumUpdate(calls: seq<Catalog.Call<Path>>, attempts: seq<Attempt>, c: nat, call: Catalog.Call<Path>, q: Query)
    requires |calls| == |attempts| && c < |calls| && !Catalog.Landed(calls[c].phase)
    ensures Sum(calls[c := call], attempts, q) ==
            Sum(calls, attempts, q) + if Catalog.Landed(call.phase) then Weight(attempts[c], q) else 0
  {
    hide Weight;
    var n := |calls| - 1;
    if c == n {
      assert calls[c := call][..n] == calls[..n];
    } else {
      assert calls[c := call][..n] == calls[..n][c := call];
      SumUpdate(calls[..n], attempts[..n], c, call, q);
    }
  }

  lemma SumSnoc(calls: seq<Catalog.Call<Path>>, attempts: seq<Attempt>, call: Catalog.Call<Path>, a: Attempt, q: Query)
    requires |calls| == |attempts|
    ensures Sum(calls + [call], attempts + [a], q) ==
            Sum(calls, attempts, q) + if Catalog.Landed(call.phase) then Weight(a, q) else 0
  {
    assert (calls + [call])[..|calls|] == calls && (attempts + [a])[..|attempts|] == attempts;
  }

  /** A sum is positive exactly when some landed attempt contributes. */
  lemma {:induction false} SumPositive(calls: seq<Catalog.Call<Path>>, attempts: seq<Attempt>, q: Query)
    requires |calls| == |attempts|
    ensures Sum(calls, attempts, q) > 0 <==>
            exists c :: 0 <= c < |calls| && Catalog.Landed(calls[c].phase) && Weight(attempts[c], q) > 0
  {
    hide Weight;
    if calls != [] {
      var n := |calls| - 1;
      SumPositive(calls[..n], attempts[..n], q);
      if Sum(calls[..n], attempts[..n], q) > 0 {
        var c :| 0 <= c < n && Catalog.Landed(calls[..n][c].phase) && Weight(attempts[..n][c], q) > 0;
        assert Catalog.Landed(calls[c].phase) && Weight(attempts[c], q) > 0;
      }
      if c :| 0 <= c < |calls| && Catalog.Landed(calls[c].phase) && Weight(attempts[c], q) > 0 && c != n {
        assert Catalog.Landed(calls[..n][c].phase) && Weight(attempts[..n][c], q) > 0;
      }
    }
  }

  /** When every landed attempt of chunk `w` weighs `m` and every other one nothing. */
  lemma {:induction false} SumOfOneChunk(calls: seq<Catalog.Call<Path>>, attempts: seq<Attempt>, q: Query, w: nat, m: nat)
    requires |calls| == |attempts|
    requires forall c :: 0 <= c < |calls| && Catalog.Landed(calls[c].phase) ==>
                           Weight(attempts[c], q) == if attempts[c].owner == w then m else 0
    ensures Sum(calls, attempts, q) == m * Sum(calls, attempts, OfChunk(w))
  {
    hide Weight;
    if calls != [] {
      var n := |calls| - 1;
      WeightOfChunk(attempts[n], w);
      SumOfOneChunk(calls[..n], attempts[..n], q, w, m);
      OneMore(m, Sum(calls[..n], attempts[..n], OfChunk(w)));
    }
  }

  lemma WeightOfChunk(a: Attempt, w: nat)
    ensures Weight(a, OfChunk(w)) == if a.owner == w then 1 else 0
  {}

  lemma OneMore(m: nat, n: nat)
    ensures m * (n + 1) == m * n + m
  {}

  /** Two questions with the same answer for every landed attempt have the same sum. */
  lemma {:induction false} SumSame(calls: seq<Catalog.Call<Path>>, attempts: seq<Attempt>, q: Query, p: Query)
    requires |calls| == |attempts|
    requires forall c :: 0 <= c < |calls| && Catalog.Landed(calls[c].phase) ==> Weight(attempts[c], q) == Weight(attempts[c], p)
    ensures Sum(calls, attempts, q) == Sum(calls, attempts, p)
  {
    hide Weight;
    if calls != [] {
      SumSame(calls[..|calls| - 1], attempts[..|calls| - 1], q, p);
    }
  }

  lemma {:induction false} SumAtLeast(calls: seq<Catalog.Call<Path>>, attempts: seq<Attempt>, q: Query, c: nat)
    requires |calls| == |attempts| && c < |calls| && Catalog.Landed(calls[c].phase)
    ensures Sum(calls, attempts, q) >= Weight(attempts[c], q)
  {
    hide Weight;
    var n := |calls| - 1;
    if c < n {
      SumAtLeast(calls[..n], attempts[..n], q, c);
    }
  }

  lemma {:induction false} SumAtLeastTwo(calls: seq<Catalog.Call<Path>>, attempts: seq<Attempt>, q: Query, c: nat, d: nat)
    requires |calls| == |attempts| && c < |calls| && d < |calls| && c != d
    requires Catalog.Landed(calls[c].phase) && Catalog.Landed(calls[d].phase)
    ensures Sum(calls, attempts, q) >= Weight(attempts[c], q) + Weight(attempts[d], q)
  {
    hide Weight;
    var n := |calls| - 1;
    if c == n {
      SumAtLeast(calls[..n], attempts[..n], q, d);
    } else if d == n {
      SumAtLeast(calls[..n], attempts[..n], q, c);
    } else {
      SumAtLeastTwo(calls[..n], attempts[..n], q, c, d);
    }
  }

  /** How many attempts of chunk `w` reached the table (an empty chunk's as soon as it returns). */
  function Landings(s: State, w: nat): nat
    requires |s.table.calls| == |s.attempts|
  {
    Sum(s.table.calls, s.attempts, OfChunk(w))
  }

  // ---------------------------------------------------------------- invariant

  predicate ChunkDone(job: Job, s: State, w: nat) {
    IsDone(s.store, job.run, Key(job, w))
  }

  function Accounted(job: Job, s: State, w: nat): nat
    requires w < |s.workers|
  {
    (if ChunkDone(job, s, w) then 1 else 0) + (if InGap(s, w) then 1 else 0) + s.workers[w].gapFailures
  }

  /** A landed attempt of the chunk whose own parts are what is stored. */
  ghost predicate LastIsHeld(s: State, w: nat) {
    exists c: nat :: LandedAttempt(s, c) && s.attempts[c].owner == w && Holding(s.objects, s.attempts[c], |s.attempts[c].parts|)
  }

  ghost predicate StorageInv(job: Job, s: State, w: nat)
    requires w < |s.workers|
  {
    var phase := s.workers[w].phase;
    && (phase.Uploading? ==> phase.a in s.extracted && phase.a.owner == w && Holding(s.objects, phase.a, phase.k))
    && (phase.Committing? ==>
          && phase.call < |s.attempts| && s.attempts[phase.call].owner == w
          && Holding(s.objects, s.attempts[phase.call], |s.attempts[phase.call].parts|))
    && (ChunkDone(job, s, w) ==> LastIsHeld(s, w))
    && (s.workers[w].overwrites == 0 ==>
          forall c: nat :: LandedAttempt(s, c) && s.attempts[c].owner == w ==>
                             Holding(s.objects, s.attempts[c], |s.attempts[c].parts|))
  }

  ghost predicate WorkerInv(job: Job, s: State, w: nat)
    requires w < |s.workers| && |s.attempts| == |s.table.calls|
  {
    && (InFlight(s, w) ==> !ChunkDone(job, s, w))
    && (s.workers[w].phase.Finished? ==> ChunkDone(job, s, w))
    && StorageInv(job, s, w)
    && Landings(s, w) == Accounted(job, s, w)
  }

  ghost predicate CallOf(s: State, c: nat)
    requires c < |s.attempts| && c < |s.table.calls|
  {
    s.table.calls[c].files == Paths(s.attempts[c]) && s.attempts[c] in s.extracted
  }

  /** A stored object is a part of some extraction of its chunk. */
  ghost predicate FromExtraction(s: State, p: Path) {
    p in s.objects ==>
      exists a :: a in s.extracted && a.owner == p.chunk && p.part < |a.parts| && s.objects[p] == a.parts[p.part]
  }

  /** Whatever is stored, the table shows the landed attempts' objects, once for each of them. */
  ghost predicate TableInv(s: State)
    requires |s.attempts| == |s.table.calls|
  {
    forall objects, r :: multiset(RowsAt(objects, s.table.files))[r] == Sum(s.table.calls, s.attempts, OfRow(objects, r))
  }

  ghost predicate Inv(job: Job, s: State) {
    && |s.workers| == |job.plan|
    && |s.attempts| == |s.table.calls|
    && (forall c :: 0 <= c < |s.attempts| ==> CallOf(s, c))
    && (forall a :: a in s.extracted ==> PartsOf(job, a))
    && (forall p :: FromExtraction(s, p))
    && (forall w :: 0 <= w < |s.workers| ==> WorkerInv(job, s, w))
    && TableInv(s)
  }

  lemma {:induction false} RowsAtAppend(objects: Objects, a: seq<Path>, b: seq<Path>)
    ensures RowsAt(objects, a + b) == RowsAt(objects, a) + RowsAt(objects, b)
  {
    if a == [] {
      assert a + b == b;
    } else {
      assert (a + b)[1..] == a[1..] + b;
      RowsAtAppend(objects, a[1..], b);
    }
  }

  lemma StoreFrame(job: Job, s: State, w: nat, status: Status, uri: Option<string>, v: nat)
    ensures ChunkDone(job, Recorded(job, s, w, status, uri), v) == if v == w then status.Done? else ChunkDone(job, s, v)
  {
    PutStatus(s.store, job.run, Key(job, w), Record(status, uri, None, None), job.run, Key(job, v));
    if v != w && Key(job, v) == Key(job, w) {
      ChunkKeysDiffer(job.fqn, v, job.fqn, w);
    }
  }

  /** What a step leaves alone for chunk `v`: calls and attempts are kept, new ones are of another
      chunk, no call of the chunk lands, its objects stay. */
  ghost predicate Apart(s: State, s': State, v: nat) {
    && |s.attempts| == |s.table.calls| && |s'.attempts| == |s'.table.calls|
    && s.attempts <= s'.attempts
    && (forall a :: a in s.extracted ==> a in s'.extracted)
    && (forall c: nat :: c < |s'.attempts| && s'.attempts[c].owner == v ==>
                           c < |s.attempts| && s'.table.calls[c].phase == s.table.calls[c].phase)
    && (forall i: nat :: var p := Path(v, i); (p in s'.objects <==> p in s.objects) && (p in s.objects ==> s'.objects[p] == s.objects[p]))
  }

  lemma ApartHolding(s: State, s': State, v: nat, a: Attempt, k: nat)
    requires Apart(s, s', v) && a.owner == v && Holding(s.objects, a, k)
    ensures Holding(s'.objects, a, k)
  {
    assert forall i: nat :: i < k ==> Path(v, i) in s.objects;
  }

  lemma ApartLanded(s: State, s': State, v: nat, c: nat)
    requires Apart(s, s', v)
    ensures LandedAttempt(s', c) && s'.attempts[c].owner == v <==> LandedAttempt(s, c) && s.attempts[c].owner == v
  {}

  /** A step of one worker leaves another worker's invariant alone. */
  lemma OtherWorker(job: Job, s: State, s': State, v: nat)
    requires v < |s.workers| && v < |s'.workers| && s'.workers[v] == s.workers[v]
    requires Apart(s, s', v) && WorkerInv(job, s, v)
    requires ChunkDone(job, s', v) == ChunkDone(job, s, v)
    requires Landings(s', v) == Landings(s, v)
    ensures WorkerInv(job, s', v)
  {
    hide Landings, ChunkDone, Holding;
    forall c: nat
      ensures LandedAttempt(s', c) && s'.attempts[c].owner == v <==> LandedAttempt(s, c) && s.attempts[c].owner == v
    {
      ApartLanded(s, s', v, c);
    }
    forall c: nat | c < |s.attempts| && s.attempts[c].owner == v && Holding(s.objects, s.attempts[c], |s.attempts[c].parts|)
      ensures s'.attempts[c] == s.attempts[c] && Holding(s'.objects, s'.attempts[c], |s'.attempts[c].parts|)
    {
      ApartHolding(s, s', v, s.attempts[c], |s.attempts[c].parts|);
    }
    var phase := s.workers[v].phase;
    if phase.Uploading? {
      ApartHolding(s, s', v, phase.a, phase.k);
    }
    if LastIsHeld(s, v) {
      var c: nat :| LandedAttempt(s, c) && s.attempts[c].owner == v && Holding(s.objects, s.attempts[c], |s.attempts[c].parts|);
      assert LandedAttempt(s', c);
    }
  }

  /** Steps that touch neither the bucket nor the table nor the extractions. */
  ghost predicate SameStorage(s: State, s': State) {
    s'.table == s.table && s'.attempts == s.attempts && s'.extracted == s.extracted && s'.objects == s.objects
  }

  lemma SameStorageInv(job: Job, s: State, s': State)
    requires Inv(job, s) && SameStorage(s, s') && |s'.workers| == |s.workers|
    ensures (forall c :: 0 <= c < |s'.attempts| ==> CallOf(s', c)) && (forall p :: FromExtraction(s', p)) && TableInv(s')
    ensures forall v :: Apart(s, s', v) && Landings(s', v) == Landings(s, v) && (LastIsHeld(s', v) <==> LastIsHeld(s, v))
  {
    hide Sum, RowsAt, PartsOf, WorkerInv;
    assert forall c :: 0 <= c < |s.attempts| && CallOf(s, c) ==> CallOf(s', c);
    forall p
      ensures FromExtraction(s', p)
    {
      assert FromExtraction(s, p);
    }
    forall v
      ensures LastIsHeld(s', v) <==> LastIsHeld(s, v)
    {
      assert forall c: nat :: LandedAttempt(s', c) <==> LandedAttempt(s, c);
    }
  }

  lemma RecordStepKeepsInv(job: Job, s: State, step: Step)
    requires Inv(job, s) && Enabled(job, s, step)
    requires step.Start? || step.MarkDone? || step.Again?
    ensures Inv(job, Apply(job, s, step))
  {
    var s' := Apply(job, s, step);
    var w := step.w;
    SameStorageInv(job, s, s');
    assert WorkerInv(job, s, w);
    ListDoneIsDone(s.store, job.run, Key(job, w));
    hide PartsOf, Sum, TableInv, Landings, Holding, FromExtraction;
    forall v | 0 <= v < |s.workers|
      ensures WorkerInv(job, s', v)
    {
      StoreFrame(job, s, w, Running, None, v);
      if step.MarkDone? {
        StoreFrame(job, s, w, Done, step.uri, v);
      }
      assert WorkerInv(job, s, v);
      if v != w {
        OtherWorker(job, s, s', v);
      } else {
        RecordedOwn(job, s, s', step);
      }
    }
  }

  lemma RecordedOwn(job: Job, s: State, s': State, step: Step)
    requires Inv(job, s) && Enabled(job, s, step)
    requires step.Start? || step.MarkDone? || step.Again?
    requires s' == Apply(job, s, step)
    ensures WorkerInv(job, s', step.w)
  {
    var w := step.w;
    SameStorageInv(job, s, s');
    assert WorkerInv(job, s, w);
    ListDoneIsDone(s.store, job.run, Key(job, w));
    StoreFrame(job, s, w, Running, None, w);
    StoreFrame(job, s, w, Done, if step.MarkDone? then step.uri else None, w);
    hide PartsOf, Sum, TableInv, Landings, Holding, FromExtraction, ChunkDone, Put;
    assert forall c: nat :: LandedAttempt(s', c) <==> LandedAttempt(s, c);
    if step.MarkDone? {
      assert LandedAttempt(s, s.workers[w].phase.call);
    }
  }

  lemma ExtractKeepsInv(job: Job, s: State, step: Step)
    requires Inv(job, s) && Enabled(job, s, step) && step.Extract?
    ensures Inv(job, Apply(job, s, step))
  {
    hide PartsOf, Sum, TableInv, Landings, ChunkDone, RowsAt;
    var s' := Apply(job, s, step);
    var w := step.w;
    assert WorkerInv(job, s, w);
    assert forall a :: a in s.extracted ==> a in s'.extracted;
    assert forall c :: 0 <= c < |s.attempts| && CallOf(s, c) ==> CallOf(s', c);
    assert Attempt(w, step.read, step.parts) in s'.extracted;
    SameTable(s, s');
    forall p
      ensures FromExtraction(s', p)
    {
      assert FromExtraction(s, p);
    }
    forall v | 0 <= v < |s.workers|
      ensures WorkerInv(job, s', v)
    {
      assert WorkerInv(job, s, v);
      StoreSame(job, s, s', v);
      if v != w {
        OtherWorker(job, s, s', v);
      } else {
        assert forall c: nat :: LandedAttempt(s', c) <==> LandedAttempt(s, c);
      }
    }
  }

  lemma StoreSame(job: Job, s: State, s': State, v: nat)
    requires s'.store == s.store
    ensures ChunkDone(job, s', v) == ChunkDone(job, s, v)
  {}

  lemma SameTable(s: State, s': State)
    requires |s.attempts| == |s.table.calls| && s'.table == s.table && s'.attempts == s.attempts && TableInv(s)
    ensures TableInv(s')
    ensures forall v :: Landings(s', v) == Landings(s, v)
  {}

  lemma UploadKeepsInv(job: Job, s: State, step: Step)
    requires Inv(job, s) && Enabled(job, s, step) && step.Upload?
    ensures Inv(job, Apply(job, s, step))
  {
    hide PartsOf, Sum, TableInv, Landings, ChunkDone, RowsAt;
    var s' := Apply(job, s, step);
    var w := step.w;
    var phase := s.workers[w].phase;
    assert WorkerInv(job, s, w);
    assert forall c :: 0 <= c < |s.attempts| && CallOf(s, c) ==> CallOf(s', c);
    SameTable(s, s');
    forall p
      ensures FromExtraction(s', p)
    {
      assert FromExtraction(s, p);
    }
    forall v | 0 <= v < |s.workers|
      ensures WorkerInv(job, s', v)
    {
      assert WorkerInv(job, s, v);
      StoreSame(job, s, s', v);
      if v != w {
        OtherWorker(job, s, s', v);
      } else {
        assert forall c: nat :: LandedAttempt(s', c) <==> LandedAttempt(s, c);
        assert !AnyLanded(s, w) || s'.workers[w].overwrites > 0;
      }
    }
  }

  /** What entering the commit loop changes. */
  ghost predicate Submitted(s: State, s': State, w: nat, a: Attempt, call: Catalog.Call<Path>)
    requires w < |s.workers|
  {
    && s'.attempts == s.attempts + [a] && s'.table.calls == s.table.calls + [call] && s'.table.files == s.table.files
    && call.files == Paths(a) && (Catalog.Landed(call.phase) ==> call.files == [])
    && s'.extracted == s.extracted && s'.objects == s.objects && s'.store == s.store
    && s'.workers == s.workers[w := s.workers[w].(phase := Committing(|s.table.calls|))]
  }

  lemma SubmittedApart(s: State, s': State, w: nat, a: Attempt, call: Catalog.Call<Path>, v: nat)
    requires w < |s.workers| && |s.attempts| == |s.table.calls| && Submitted(s, s', w, a, call)
    requires a.owner == w && v != w
    ensures Apart(s, s', v)
  {}

  lemma SubmitKeepsInv(job: Job, s: State, step: Step)
    requires Inv(job, s) && Enabled(job, s, step) && step.Submit?
    ensures Inv(job, Apply(job, s, step))
  {
    var s' := Apply(job, s, step);
    var w := step.w;
    var a := s.workers[w].phase.a;
    var call := s'.table.calls[|s.table.calls|];
    assert WorkerInv(job, s, w);
    assert Submitted(s, s', w, a, call);
    SubmittedTable(s, s', a, call);
    SubmittedCalls(job, s, s', a, call);
    hide Apply, Enabled, PartsOf, Sum, TableInv, Landings, ChunkDone, RowsAt, Weight, Holding, CallOf, FromExtraction;
    forall v | 0 <= v < |s.workers|
      ensures WorkerInv(job, s', v)
    {
      assert WorkerInv(job, s, v);
      StoreSame(job, s, s', v);
      if v != w {
        SubmittedApart(s, s', w, a, call, v);
        OtherWorker(job, s, s', v);
      } else {
        SubmittedOwn(job, s, s', w);
      }
    }
  }

  lemma SubmittedCalls(job: Job, s: State, s': State, a: Attempt, call: Catalog.Call<Path>)
    requires Inv(job, s) && a in s.extracted && call.files == Paths(a)
    requires s'.attempts == s.attempts + [a] && s'.table.calls == s.table.calls + [call]
    requires s'.extracted == s.extracted && s'.objects == s.objects
    ensures (forall c :: 0 <= c < |s'.attempts| ==> CallOf(s', c)) && (forall p :: FromExtraction(s', p))
  {
    hide PartsOf, WorkerInv, TableInv;
    forall c | 0 <= c < |s'.attempts|
      ensures CallOf(s', c)
    {
      if c < |s.attempts| {
        assert CallOf(s, c);
      }
    }
    forall p
      ensures FromExtraction(s', p)
    {
      assert FromExtraction(s, p);
    }
  }

  lemma SubmittedOwn(job: Job, s: State, s': State, w: nat)
    requires w < |s.workers| && w < |s'.workers| && |s.attempts| == |s.table.calls| && WorkerInv(job, s, w)
    requires s.workers[w].phase.Uploading? && s.workers[w].phase.k == |s.workers[w].phase.a.parts|
    requires s'.workers[w] == s.workers[w].(phase := Committing(|s.table.calls|))
    requires s'.attempts == s.attempts + [s.workers[w].phase.a]
    requires |s'.table.calls| == |s.table.calls| + 1 && s'.table.calls[..|s.table.calls|] == s.table.calls
    requires s'.objects == s.objects && s'.store == s.store
    requires Landings(s', w) == Landings(s, w) + if Catalog.Landed(s'.table.calls[|s.table.calls|].phase) then 1 else 0
    ensures WorkerInv(job, s', w)
  {
    hide Landings, ChunkDone, Holding, AnyLanded;
    StoreSame(job, s, s', w);
    forall c: nat | c < |s.attempts|
      ensures LandedAttempt(s', c) <==> LandedAttempt(s, c)
    {
      assert s'.table.calls[c] == s'.table.calls[..|s.table.calls|][c];
    }
  }

  lemma SubmittedTable(s: State, s': State, a: Attempt, call: Catalog.Call<Path>)
    requires |s.attempts| == |s.table.calls| && TableInv(s)
    requires s'.attempts == s.attempts + [a] && s'.table.calls == s.table.calls + [call] && s'.table.files == s.table.files
    requires call.files == Paths(a) && (Catalog.Landed(call.phase) ==> call.files == [])
    ensures TableInv(s')
    ensures forall v :: Landings(s', v) == Landings(s, v) + if Catalog.Landed(call.phase) && a.owner == v then 1 else 0
  {
    forall objects, r
      ensures multiset(RowsAt(objects, s'.table.files))[r] == Sum(s'.table.calls, s'.attempts, OfRow(objects, r))
    {
      SumSnoc(s.table.calls, s.attempts, call, a, OfRow(objects, r));
      assert multiset(RowsAt(objects, s.table.files))[r] == Sum(s.table.calls, s.attempts, OfRow(objects, r));
    }
    forall v
      ensures Landings(s', v) == Landings(s, v) + if Catalog.Landed(call.phase) && a.owner == v then 1 else 0
    {
      SumSnoc(s.table.calls, s.attempts, call, a, OfChunk(v));
    }
  }

  /** A call in the catalog changes its phase; its files are appended exactly if it lands. */
  ghost predicate CallMoves(s: State, s': State, c: nat)
    requires c < |s.table.calls|
  {
    && !Catalog.Landed(s.table.calls[c].phase)
    && |s'.table.calls| == |s.table.calls|
    && s'.table.calls == s.table.calls[c := s'.table.calls[c]]
    && s'.table.calls[c].files == s.table.calls[c].files
    && s'.attempts == s.attempts && s'.extracted == s.extracted && s'.objects == s.objects
    && s'.table.files == s.table.files + (if Catalog.Landed(s'.table.calls[c].phase) then s.table.calls[c].files else [])
  }

  /** The table goes on showing the objects of the landed attempts. */
  lemma MovedTable(job: Job, s: State, s': State, c: nat)
    requires Inv(job, s) && c < |s.table.calls| && CallMoves(s, s', c)
    ensures TableInv(s') && (forall p :: FromExtraction(s', p))
    ensures forall d :: 0 <= d < |s'.attempts| ==> CallOf(s', d)
  {
    hide Sum, PartsOf, WorkerInv;
    assert CallOf(s, c);
    forall d | 0 <= d < |s'.attempts|
      ensures CallOf(s', d)
    {
      assert CallOf(s, d);
    }
    forall p
      ensures FromExtraction(s', p)
    {
      assert FromExtraction(s, p);
    }
    assert s.table.files + [] == s.table.files;
    forall objects, r
      ensures multiset(RowsAt(objects, s'.table.files))[r] == Sum(s'.table.calls, s'.attempts, OfRow(objects, r))
    {
      SumUpdate(s.table.calls, s.attempts, c, s'.table.calls[c], OfRow(objects, r));
      RowsAtAppend(objects, s.table.files, s.table.calls[c].files);
      assert multiset(RowsAt(objects, s.table.files))[r] == Sum(s.table.calls, s.attempts, OfRow(objects, r));
    }
  }

  lemma MovedLandings(s: State, s': State, c: nat, v: nat)
    requires |s.attempts| == |s.table.calls| && c < |s.table.calls| && CallMoves(s, s', c)
    ensures Landings(s', v) ==
            Landings(s, v) + if Catalog.Landed(s'.table.calls[c].phase) && s.attempts[c].owner == v then 1 else 0
  {
    SumUpdate(s.table.calls, s.attempts, c, s'.table.calls[c], OfChunk(v));
  }

  lemma InnerMoves(job: Job, s: State, step: Step)
    requires Inv(job, s) && Enabled(job, s, step) && (step.Load? || step.AddFiles? || step.AddFilesUnseen?)
    ensures s.workers[step.w].phase.call < |s.table.calls|
    ensures CallMoves(s, Apply(job, s, step), s.workers[step.w].phase.call)
    ensures Apply(job, s, step).workers == s.workers && Apply(job, s, step).store == s.store
  {
    hide Inv, PartsOf;
    assert s.table.files + [] == s.table.files;
  }

  lemma MovedOwn(job: Job, s: State, s': State, w: nat)
    requires Inv(job, s) && w < |s.workers| && s.workers[w].phase.Committing?
    requires s.workers[w].phase.call < |s.table.calls| && CallMoves(s, s', s.workers[w].phase.call)
    requires s'.store == s.store && s'.workers == s.workers
    ensures WorkerInv(job, s', w)
  {
    assert WorkerInv(job, s, w);
    MovedLandings(s, s', s.workers[w].phase.call, w);
    hide Landings, Holding, PartsOf, TableInv, FromExtraction, CallOf;
    StoreSame(job, s, s', w);
    forall c: nat | LandedAttempt(s', c) && c != s.workers[w].phase.call
      ensures LandedAttempt(s, c)
    {}
    forall c: nat | LandedAttempt(s, c)
      ensures LandedAttempt(s', c)
    {}
  }

  /** A catalog step on the worker's own call. */
  lemma CatalogStepKeepsInv(job: Job, s: State, step: Step)
    requires Inv(job, s) && Enabled(job, s, step) && (step.Load? || step.AddFiles? || step.AddFilesUnseen?)
    ensures Inv(job, Apply(job, s, step))
  {
    var s' := Apply(job, s, step);
    var w := step.w;
    var call := s.workers[w].phase.call;
    assert WorkerInv(job, s, w);
    InnerMoves(job, s, step);
    MovedTable(job, s, s', call);
    hide PartsOf, Sum, Apply, Landings, TableInv, FromExtraction, CallOf, ChunkDone, Holding;
    forall v | 0 <= v < |s.workers|
      ensures WorkerInv(job, s', v)
    {
      assert WorkerInv(job, s, v);
      MovedLandings(s, s', call, v);
      StoreSame(job, s, s', v);
      if v != w {
        OtherWorker(job, s, s', v);
      } else {
        MovedOwn(job, s, s', w);
      }
    }
  }

  lemma DieMoves(job: Job, s: State, step: Step)
    requires Inv(job, s) && Enabled(job, s, step) && step.Die?
    ensures var s', worker := Apply(job, s, step), s.workers[step.w];
            var phase := worker.phase;
            && s'.workers == s.workers[step.w := Worker(Ready, worker.gapFailures + (if InGap(s, step.w) then 1 else 0), worker.overwrites)]
            && s'.store == (if step.recorded then Recorded(job, s, step.w, Failed, None).store else s.store)
            && (phase.Committing? && Catalog.Active(s.table, phase.call) ==>
                  CallMoves(s, s', phase.call) && !Catalog.Landed(s'.table.calls[phase.call].phase))
            && (!(phase.Committing? && Catalog.Active(s.table, phase.call)) ==> SameStorage(s, s'))
  {
    hide Inv;
    assert s.table.files + [] == s.table.files;
  }

  lemma DieKeepsInv(job: Job, s: State, step: Step)
    requires Inv(job, s) && Enabled(job, s, step) && step.Die?
    ensures Inv(job, Apply(job, s, step))
  {
    var s' := Apply(job, s, step);
    var w := step.w;
    var phase := s.workers[w].phase;
    var active := phase.Committing? && Catalog.Active(s.table, phase.call);
    assert WorkerInv(job, s, w);
    DieMoves(job, s, step);
    hide PartsOf, Sum, Apply, Landings, TableInv, FromExtraction, CallOf, Holding;
    if active {
      MovedTable(job, s, s', phase.call);
    } else {
      SameStorageInv(job, s, s');
    }
    forall v | 0 <= v < |s.workers|
      ensures WorkerInv(job, s', v)
    {
      assert WorkerInv(job, s, v);
      DiedRecord(job, s, s', step, v);
      if active {
        MovedLandings(s, s', phase.call, v);
      }
      if v != w {
        OtherWorker(job, s, s', v);
      } else {
        DiedOwn(job, s, s', w);
      }
    }
  }

  /** Nothing of the dead attempt's chunk changes but the worker's own phase. */
  lemma DiedOwn(job: Job, s: State, s': State, w: nat)
    requires Inv(job, s) && w < |s.workers| && InFlight(s, w) && w < |s'.workers|
    requires s'.workers[w] == Worker(Ready, s.workers[w].gapFailures + (if InGap(s, w) then 1 else 0), s.workers[w].overwrites)
    requires s'.attempts == s.attempts && s'.objects == s.objects && |s'.table.calls| == |s.table.calls|
    requires forall c: nat :: LandedAttempt(s', c) <==> LandedAttempt(s, c)
    requires ChunkDone(job, s', w) == ChunkDone(job, s, w) && Landings(s', w) == Landings(s, w)
    ensures WorkerInv(job, s', w)
  {
    hide Landings, Holding, PartsOf, TableInv, FromExtraction, CallOf, ChunkDone;
    assert WorkerInv(job, s, w);
  }

  lemma DiedRecord(job: Job, s: State, s': State, step: Step, v: nat)
    requires step.Die? && !ChunkDone(job, s, step.w)
    requires s'.store == if step.recorded then Recorded(job, s, step.w, Failed, None).store else s.store
    ensures ChunkDone(job, s', v) == ChunkDone(job, s, v)
  {
    StoreFrame(job, s, step.w, Failed, None, v);
  }

  lemma StepKeepsInv(job: Job, s: State, step: Step)
    requires Inv(job, s) && Enabled(job, s, step)
    ensures Inv(job, Apply(job, s, step))
  {
    hide Inv, Apply, Enabled;
    match step
    case Extract(_, _, _) => ExtractKeepsInv(job, s, step);
    case Upload(_) => UploadKeepsInv(job, s, step);
    case Submit(_) => SubmitKeepsInv(job, s, step);
    case Load(_) => CatalogStepKeepsInv(job, s, step);
    case AddFiles(_) => CatalogStepKeepsInv(job, s, step);
    case AddFilesUnseen(_) => CatalogStepKeepsInv(job, s, step);
    case Die(_, _) => DieKeepsInv(job, s, step);
    case _ => RecordStepKeepsInv(job, s, step);
  }

  lemma InitialInv(job: Job)
    ensures Inv(job, Initial(job))
  {}

  lemma {:induction false} RunKeepsInv(job: Job, s: State, steps: seq<Step>)
    requires Inv(job, s) && Possible(job, s, steps)
    ensures Inv(job, Run(job, s, steps))
    decreases |steps|
  {
    hide Inv;
    if steps != [] {
      StepKeepsInv(job, s, steps[0]);
      RunKeepsInv(job, Apply(job, s, steps[0]), steps[1..]);
    }
  }

  /** The end of a run from the empty table. */
  ghost predicate Reached(job: Job, s: State) {
    exists steps :: Possible(job, Initial(job), steps) && s == Run(job, Initial(job), steps)
  }

  lemma ReachedInv(job: Job, s: State)
    requires Reached(job, s)
    ensures Inv(job, s)
  {
    hide Inv;
    var steps :| Possible(job, Initial(job), steps) && s == Run(job, Initial(job), steps);
    InitialInv(job);
    RunKeepsInv(job, Initial(job), steps);
  }

  // ---------------------------------------------------------------- the catalog's part

  /** What a step of a worker does in the catalog, if anything. */
  function CatalogSteps(job: Job, s: State, step: Step): seq<Catalog.Step<Path>>
    requires step.w < |s.workers|
  {
    var phase := s.workers[step.w].phase;
    match step
    case Submit(_) => if phase.Uploading? then [Catalog.Open(Paths(phase.a), job.maxAttempts)] else []
    case Die(_, _) => if phase.Committing? && Catalog.Active(s.table, phase.call) then [Catalog.Abort(phase.call)] else []
    case Load(_) => if phase.Committing? then [Inner(step, phase.call)] else []
    case AddFiles(_) => if phase.Committing? then [Inner(step, phase.call)] else []
    case AddFilesUnseen(_) => if phase.Committing? then [Inner(step, phase.call)] else []
    case _ => []
  }

  /** The table of a bootstrap is a table of racing commits: what `CatalogCommit` proves of any
      interleaving of calls holds of the calls the workers make. */
  lemma {:induction false} TableIsCatalogRun(job: Job, s: State, steps: seq<Step>) returns (inner: seq<Catalog.Step<Path>>)
    requires Possible(job, s, steps)
    ensures Catalog.Possible(s.table, inner)
    ensures Catalog.Run(s.table, inner) == Run(job, s, steps).table
    decreases |steps|
  {
    inner := [];
    if steps != [] {
      var s' := Apply(job, s, steps[0]);
      var first := CatalogSteps(job, s, steps[0]);
      var rest := TableIsCatalogRun(job, s', steps[1..]);
      inner := first + rest;
      assert first == [] ==> s'.table == s.table && inner == rest;
      assert first != [] ==> inner[0] == first[0] && inner[1..] == rest && s'.table == Catalog.Apply(s.table, first[0]);
    }
  }

  /** So an attempt that gives up was refused each time because of another attempt's commit. */
  lemma GivingUpMeansContention(job: Job, s: State, c: nat)
    requires Reached(job, s) && c < |s.table.calls| && s.table.calls[c].phase.GaveUp?
    ensures Catalog.Charged(s.table, c, s.table.calls[c].phase.version)
    ensures |s.table.calls[c].conflicts| == Max(0, s.table.calls[c].maxAttempts) && c !in s.table.log
  {
    var steps :| Possible(job, Initial(job), steps) && s == Run(job, Initial(job), steps);
    var inner := TableIsCatalogRun(job, Initial(job), steps);
    Catalog.GivingUpNeedsContention([], inner, c);
  }

  // ---------------------------------------------------------------- accounting

  /** MAIN: in every reachable state the attempts of a chunk that reached the table are one if it
      is DONE, one if its attempt stands between commit and DONE, and one per attempt that died
      there; so a DONE chunk has been committed. */
  lemma CommitAccounting(job: Job, s: State, w: nat)
    requires Reached(job, s) && w < |job.plan|
    ensures |s.table.calls| == |s.attempts| && w < |s.workers|
    ensures Landings(s, w) == Accounted(job, s, w)
    ensures ChunkDone(job, s, w) ==> Landings(s, w) >= 1
  {
    ReachedInv(job, s);
    assert WorkerInv(job, s, w);
  }

  /** The chunk's objects are the same in both states. */
  ghost predicate SameObjects(s: State, s': State, w: nat) {
    forall i: nat :: var p := Path(w, i); (p in s'.objects <==> p in s.objects) && (p in s.objects ==> s'.objects[p] == s.objects[p])
  }

  /** MAIN: once a chunk is DONE it stays DONE, is never committed again, and its objects are never
      written again, whatever is executed afterwards. */
  lemma {:induction false} DoneIsFinal(job: Job, s: State, steps: seq<Step>, w: nat)
    requires Inv(job, s) && Possible(job, s, steps)
    requires w < |s.workers| && ChunkDone(job, s, w)
    ensures var s' := Run(job, s, steps);
            && ChunkDone(job, s', w) && SameObjects(s, s', w)
            && |s'.table.calls| == |s'.attempts|
            && Landings(s', w) == Landings(s, w)
    decreases |steps|
  {
    hide Apply, Enabled, Landings, ChunkDone;
    if steps != [] {
      DoneStep(job, s, steps[0], w);
      StepKeepsInv(job, s, steps[0]);
      DoneIsFinal(job, Apply(job, s, steps[0]), steps[1..], w);
    }
  }

  lemma DoneStep(job: Job, s: State, step: Step, w: nat)
    requires Inv(job, s) && Enabled(job, s, step)
    requires w < |s.workers| && ChunkDone(job, s, w)
    ensures var s' := Apply(job, s, step);
            && ChunkDone(job, s', w) && SameObjects(s, s', w)
            && |s'.table.calls| == |s'.attempts| && Landings(s', w) == Landings(s, w)
  {
    var s' := Apply(job, s, step);
    StepKeepsInv(job, s, step);
    assert WorkerInv(job, s, w) && WorkerInv(job, s', w) && WorkerInv(job, s, step.w);
    DoneObjects(job, s, step, w);
    hide Landings, Sum, PartsOf, TableInv, StorageInv, FromExtraction, CallOf, SameObjects;
    ListDoneIsDone(s.store, job.run, Key(job, step.w));
    StoreFrame(job, s, step.w, Running, None, w);
    StoreFrame(job, s, step.w, Failed, None, w);
    StoreFrame(job, s, step.w, Done, if step.MarkDone? then step.uri else None, w);
  }

  lemma DoneObjects(job: Job, s: State, step: Step, w: nat)
    requires Enabled(job, s, step) && w < |s.workers| && ChunkDone(job, s, w)
    requires InFlight(s, step.w) ==> !ChunkDone(job, s, step.w)
    ensures SameObjects(s, Apply(job, s, step), w)
  {
    hide ChunkDone, PartsOf;
  }
}
