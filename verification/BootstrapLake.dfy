/** What the lake holds after any run of the bootstrap protocol. */
module BootstrapLake {
  import opened Prelude
  import opened Rows
  import opened Chunker
  import opened CopyWorker
  import opened ChunkState
  import opened Bootstrap
  import Catalog = CatalogCommit

  // ---------------------------------------------------------------- stored rows

  /** MAIN: at any moment the lake holds a row as often as it stands in the stored objects of the
      landed attempts, an object counting once for every landed attempt that listed it. */
  lemma LakeIsWhatIsStored(job: Job, s: State, r: Row)
    requires Reached(job, s)
    ensures |s.table.calls| == |s.attempts|
    ensures multiset(LakeRows(s))[r] == Sum(s.table.calls, s.attempts, OfRow(s.objects, r))
  {
    ReachedInv(job, s);
  }

  lemma {:induction false} RowsAtMember(objects: Objects, files: seq<Path>, r: Row)
    ensures r in RowsAt(objects, files) <==> exists p :: p in files && r in Object(objects, p)
  {
    if files != [] {
      RowsAtMember(objects, files[1..], r);
      assert files == [files[0]] + files[1..];
    }
  }

  lemma {:induction false} FlattenMember(parts: seq<File>, i: nat, r: Row)
    requires i < |parts| && r in parts[i]
    ensures r in Flatten(parts)
  {
    if i > 0 {
      FlattenMember(parts[1..], i - 1, r);
    }
  }

  lemma PartRow(job: Job, a: Attempt, i: nat, r: Row)
    requires PartsOf(job, a) && i < |a.parts| && r in a.parts[i]
    ensures r in a.read && Satisfies(r, job.plan[a.owner])
  {
    FlattenMember(a.parts, i, r);
    assert r in multiset(Flatten(a.parts));
    MatchingCount(a.read, job.plan[a.owner], r);
    assert multiset(Matching(a.read, job.plan[a.owner]))[r] > 0;
  }

  /** Some extraction of a chunk that selects the row read it. */
  ghost predicate ReadBySome(job: Job, s: State, r: Row, w: nat) {
    w < |job.plan| && Satisfies(r, job.plan[w]) && exists a :: a in s.extracted && a.owner == w && r in a.read
  }

  /** A stored row was read by an extraction of the chunk under whose key it is stored. */
  lemma StoredRow(job: Job, s: State, p: Path, r: Row)
    requires Inv(job, s) && r in Object(s.objects, p)
    ensures ReadBySome(job, s, r, p.chunk)
  {
    assert FromExtraction(s, p);
    var a :| a in s.extracted && a.owner == p.chunk && p.part < |a.parts| && s.objects[p] == a.parts[p.part];
    PartRow(job, a, p.part, r);
  }

  lemma AttemptRow(job: Job, s: State, a: Attempt, r: Row)
    requires Inv(job, s) && r in RowsAt(s.objects, Paths(a))
    ensures ReadBySome(job, s, r, a.owner)
  {
    RowsAtMember(s.objects, Paths(a), r);
    var p :| p in Paths(a) && r in Object(s.objects, p);
    StoredRow(job, s, p, r);
  }

  /** A row in the lake was read by some extraction of a chunk that selects it: by one that landed,
      or by one that stored its parts under the keys of one that landed. */
  lemma LakeRowWasRead(job: Job, s: State, r: Row)
    requires Reached(job, s) && r in LakeRows(s)
    ensures exists w: nat :: ReadBySome(job, s, r, w)
  {
    ReachedInv(job, s);
    LakeIsWhatIsStored(job, s, r);
    hide Inv, Reached;
    assert multiset(LakeRows(s))[r] > 0;
    SumPositive(s.table.calls, s.attempts, OfRow(s.objects, r));
    var c :| 0 <= c < |s.table.calls| && Catalog.Landed(s.table.calls[c].phase) && Weight(s.attempts[c], OfRow(s.objects, r)) > 0;
    AttemptRow(job, s, s.attempts[c], r);
  }

  // ---------------------------------------------------------------- attempts that are still stored

  lemma {:induction false} HeldRows(objects: Objects, a: Attempt, k: nat)
    requires Holding(objects, a, |a.parts|) && k <= |a.parts|
    ensures RowsAt(objects, Paths(a)[..k]) == Flatten(a.parts[..k])
  {
    if k > 0 {
      HeldRows(objects, a, k - 1);
      var p := Path(a.owner, k - 1);
      assert Paths(a)[..k] == Paths(a)[..k - 1] + [p];
      assert a.parts[..k] == a.parts[..k - 1] + [a.parts[k - 1]];
      RowsAtAppend(objects, Paths(a)[..k - 1], [p]);
      FlattenSnoc(a.parts[..k - 1], a.parts[k - 1]);
      assert [p][1..] == [];
    }
  }

  /** While an attempt's parts are what is stored, its objects show the rows it read. */
  lemma HeldWeight(job: Job, objects: Objects, a: Attempt, r: Row)
    requires PartsOf(job, a) && Holding(objects, a, |a.parts|)
    ensures Weight(a, OfRow(objects, r)) == Weight(a, OfRead(job.plan, r))
  {
    HeldRows(objects, a, |a.parts|);
    assert Paths(a)[..|a.parts|] == Paths(a) && a.parts[..|a.parts|] == a.parts;
    MatchingCount(a.read, job.plan[a.owner], r);
  }

  /** An attempt of another chunk shows nothing of a row its chunk does not select. */
  lemma ForeignWeight(job: Job, s: State, a: Attempt, r: Row)
    requires Inv(job, s) && a.owner < |job.plan| && !Satisfies(r, job.plan[a.owner])
    ensures Weight(a, OfRow(s.objects, r)) == 0
  {
    hide Inv;
    if r in RowsAt(s.objects, Paths(a)) {
      AttemptRow(job, s, a, r);
    }
  }

  lemma AttemptParts(job: Job, s: State, c: nat)
    requires Inv(job, s) && c < |s.attempts|
    ensures PartsOf(job, s.attempts[c]) && s.attempts[c] in s.extracted
  {
    assert CallOf(s, c);
  }

  /** MAIN: as long as no attempt of any chunk uploads after one of it landed, a row is in the lake
      as often as the landed attempts of the chunks that select it read it. */
  lemma LakeIsWhatWasRead(job: Job, s: State, r: Row)
    requires Reached(job, s)
    requires forall w :: 0 <= w < |s.workers| ==> s.workers[w].overwrites == 0
    ensures |s.table.calls| == |s.attempts|
    ensures multiset(LakeRows(s))[r] == Sum(s.table.calls, s.attempts, OfRead(job.plan, r))
  {
    ReachedInv(job, s);
    LakeIsWhatIsStored(job, s, r);
    forall c | 0 <= c < |s.table.calls| && Catalog.Landed(s.table.calls[c].phase)
      ensures Weight(s.attempts[c], OfRow(s.objects, r)) == Weight(s.attempts[c], OfRead(job.plan, r))
    {
      AttemptParts(job, s, c);
      assert WorkerInv(job, s, s.attempts[c].owner);
      assert LandedAttempt(s, c);
      HeldWeight(job, s.objects, s.attempts[c], r);
    }
    SumSame(s.table.calls, s.attempts, OfRow(s.objects, r), OfRead(job.plan, r));
  }

  // ---------------------------------------------------------------- chunks that are DONE

  lemma {:induction false} HitsNone(plan: seq<Chunk>, r: Row)
    requires Hits(plan, r) == 0
    ensures forall v :: 0 <= v < |plan| ==> !Satisfies(r, plan[v])
  {
    if plan != [] {
      HitsNone(plan[1..], r);
      assert forall v :: 0 < v < |plan| ==> plan[v] == plan[1..][v - 1];
    }
  }

  /** The one chunk that selects the row. */
  ghost predicate OnlyChunk(plan: seq<Chunk>, r: Row, w: nat) {
    w < |plan| && forall v :: 0 <= v < |plan| ==> (Satisfies(r, plan[v]) <==> v == w)
  }

  lemma {:induction false} HitsOnce(plan: seq<Chunk>, r: Row) returns (w: nat)
    requires Hits(plan, r) == 1
    ensures OnlyChunk(plan, r, w)
  {
    assert forall v :: 0 < v < |plan| ==> plan[v] == plan[1..][v - 1];
    if Satisfies(r, plan[0]) {
      w := 0;
      HitsNone(plan[1..], r);
    } else {
      var u := HitsOnce(plan[1..], r);
      w := u + 1;
    }
  }

  ghost predicate AllDone(job: Job, s: State) {
    forall w :: 0 <= w < |job.plan| ==> ChunkDone(job, s, w)
  }

  /** No attempt of chunk `w` died between its commit and its DONE record. */
  predicate NoGapDeath(s: State, w: nat) {
    w < |s.workers| && s.workers[w].gapFailures == 0
  }

  /** A landed attempt of the chunk whose parts are what is stored. */
  ghost predicate HeldAttempt(s: State, w: nat, c: nat) {
    LandedAttempt(s, c) && s.attempts[c].owner == w && Holding(s.objects, s.attempts[c], |s.attempts[c].parts|)
  }

  /** A DONE chunk shows the attempt that finished it, in full. */
  lemma DoneAttempt(job: Job, s: State, w: nat) returns (c: nat)
    requires Reached(job, s) && w < |job.plan| && ChunkDone(job, s, w)
    ensures HeldAttempt(s, w, c) && PartsOf(job, s.attempts[c]) && s.attempts[c] in s.extracted
    ensures |s.table.calls| == |s.attempts| && w < |s.workers| && Landings(s, w) == 1 + s.workers[w].gapFailures
  {
    ReachedInv(job, s);
    assert WorkerInv(job, s, w);
    c :| LandedAttempt(s, c) && s.attempts[c].owner == w && Holding(s.objects, s.attempts[c], |s.attempts[c].parts|);
    AttemptParts(job, s, c);
  }

  /** The lake's copies of a row of one chunk, when every landed attempt of it shows `m`. */
  lemma OneChunkCopies(job: Job, s: State, w: nat, r: Row, m: nat)
    requires Reached(job, s) && OnlyChunk(job.plan, r, w)
    requires forall c: nat :: LandedAttempt(s, c) && s.attempts[c].owner == w ==> Weight(s.attempts[c], OfRow(s.objects, r)) == m
    ensures |s.table.calls| == |s.attempts|
    ensures multiset(LakeRows(s))[r] == m * Landings(s, w)
  {
    ReachedInv(job, s);
    LakeIsWhatIsStored(job, s, r);
    forall c | 0 <= c < |s.table.calls| && Catalog.Landed(s.table.calls[c].phase)
      ensures Weight(s.attempts[c], OfRow(s.objects, r)) == if s.attempts[c].owner == w then m else 0
    {
      assert LandedAttempt(s, c);
      AttemptParts(job, s, c);
      if s.attempts[c].owner != w {
        ForeignWeight(job, s, s.attempts[c], r);
      }
    }
    SumOfOneChunk(s.table.calls, s.attempts, OfRow(s.objects, r), w, m);
  }

  /** MAIN: whatever changed between the attempts' snapshots, once chunk `w` is DONE without a
      death in the gap its rows in the lake are exactly those one single attempt read. */
  lemma OneAttemptPerChunk(job: Job, s: State, w: nat) returns (c: nat)
    requires Reached(job, s) && w < |job.plan| && ChunkDone(job, s, w) && NoGapDeath(s, w)
    ensures LandedAttempt(s, c) && s.attempts[c].owner == w && s.attempts[c] in s.extracted
    ensures forall r :: OnlyChunk(job.plan, r, w) ==> multiset(LakeRows(s))[r] == multiset(s.attempts[c].read)[r]
  {
    c := DoneAttempt(job, s, w);
    hide Reached, LakeRows;
    forall r | OnlyChunk(job.plan, r, w)
      ensures multiset(LakeRows(s))[r] == multiset(s.attempts[c].read)[r]
    {
      HeldWeight(job, s.objects, s.attempts[c], r);
      forall d: nat | LandedAttempt(s, d) && s.attempts[d].owner == w
        ensures d == c
      {
        SoleLanding(s.table.calls, s.attempts, w, c, d);
      }
      OneChunkCopies(job, s, w, r, multiset(s.attempts[c].read)[r]);
    }
  }

  lemma SoleLanding(calls: seq<Catalog.Call<Path>>, attempts: seq<Attempt>, w: nat, c: nat, d: nat)
    requires |calls| == |attempts| && Sum(calls, attempts, OfChunk(w)) == 1
    requires c < |calls| && Catalog.Landed(calls[c].phase) && attempts[c].owner == w
    requires d < |calls| && Catalog.Landed(calls[d].phase) && attempts[d].owner == w
    ensures c == d
  {
    if c != d {
      SumAtLeastTwo(calls, attempts, OfChunk(w), c, d);
    }
  }

  /** All extractions of the chunk cut their rows into as many parts. */
  ghost predicate SameCut(s: State, w: nat) {
    forall a, b :: a in s.extracted && b in s.extracted && a.owner == w && b.owner == w ==> |a.parts| == |b.parts|
  }

  /** MAIN: with deaths in the gap, a DONE chunk whose attempts were all cut into as many parts shows
      the last attempt's rows once per landing: the earlier commits refer to the same objects. */
  lemma RepeatedChunk(job: Job, s: State, w: nat) returns (c: nat)
    requires Reached(job, s) && w < |job.plan| && ChunkDone(job, s, w) && SameCut(s, w)
    ensures HeldAttempt(s, w, c) && w < |s.workers| && s.attempts[c] in s.extracted
    ensures forall r :: OnlyChunk(job.plan, r, w) ==>
                          multiset(LakeRows(s))[r] == multiset(s.attempts[c].read)[r] * (1 + s.workers[w].gapFailures)
  {
    c := DoneAttempt(job, s, w);
    ReachedInv(job, s);
    hide Reached, LakeRows, Inv;
    forall r | OnlyChunk(job.plan, r, w)
      ensures multiset(LakeRows(s))[r] == multiset(s.attempts[c].read)[r] * (1 + s.workers[w].gapFailures)
    {
      HeldWeight(job, s.objects, s.attempts[c], r);
      forall d: nat | LandedAttempt(s, d) && s.attempts[d].owner == w
        ensures Weight(s.attempts[d], OfRow(s.objects, r)) == multiset(s.attempts[c].read)[r]
      {
        AttemptParts(job, s, d);
        assert Paths(s.attempts[d]) == Paths(s.attempts[c]);
      }
      OneChunkCopies(job, s, w, r, multiset(s.attempts[c].read)[r]);
    }
  }

  /** Every extraction saw the row `m` times. */
  ghost predicate SeenTimes(s: State, r: Row, m: nat) {
    forall a :: a in s.extracted ==> multiset(a.read)[r] == m
  }

  lemma UnseenRow(job: Job, s: State, r: Row)
    requires Reached(job, s) && SeenTimes(s, r, 0)
    ensures r !in LakeRows(s)
  {
    if r in LakeRows(s) {
      LakeRowWasRead(job, s, r);
    }
  }

  /** MAIN: when all chunks are DONE, a row that every extraction saw `m` times and one chunk
      selects is in the lake at least `m` times, and a row that none of them saw is not there. The
      extractions may have read as many snapshots as there are. */
  lemma CompleteRow(job: Job, s: State, r: Row, m: nat)
    requires Reached(job, s) && AllDone(job, s) && SeenTimes(s, r, m)
    requires m > 0 ==> Hits(job.plan, r) == 1
    ensures m == 0 ==> r !in LakeRows(s)
    ensures multiset(LakeRows(s))[r] >= m
    ensures m > 0 ==> exists w: nat ::
                        && OnlyChunk(job.plan, r, w) && w < |s.workers|
                        && (NoGapDeath(s, w) ==> multiset(LakeRows(s))[r] == m)
                        && (SameCut(s, w) ==> multiset(LakeRows(s))[r] == m * (1 + s.workers[w].gapFailures))
  {
    hide Reached, LakeRows, Hits, PartsOf, Satisfies;
    if m == 0 {
      UnseenRow(job, s, r);
    } else {
      var w := HitsOnce(job.plan, r);
      DoneChunkRow(job, s, r, m, w);
    }
  }

  lemma DoneChunkRow(job: Job, s: State, r: Row, m: nat, w: nat)
    requires Reached(job, s) && AllDone(job, s) && SeenTimes(s, r, m) && OnlyChunk(job.plan, r, w)
    ensures w < |s.workers| && multiset(LakeRows(s))[r] >= m
    ensures NoGapDeath(s, w) ==> multiset(LakeRows(s))[r] == m
    ensures SameCut(s, w) ==> multiset(LakeRows(s))[r] == m * (1 + s.workers[w].gapFailures)
  {
    hide Reached, LakeRows, PartsOf, Satisfies;
    var c := DoneAttempt(job, s, w);
    LakeIsWhatIsStored(job, s, r);
    HeldWeight(job, s.objects, s.attempts[c], r);
    SumAtLeast(s.table.calls, s.attempts, OfRow(s.objects, r), c);
    if NoGapDeath(s, w) {
      var d := OneAttemptPerChunk(job, s, w);
    }
    if SameCut(s, w) {
      var d := RepeatedChunk(job, s, w);
    }
  }

  // ---------------------------------------------------------------- one shared snapshot

  /** All extractions read the same snapshot: a source that stands still, or attempts that attach
      to the exporter's snapshot in time. */
  ghost predicate OneSnapshot(s: State, snapshot: seq<Row>) {
    forall a :: a in s.extracted ==> a.read == snapshot
  }

  ghost predicate Exact(s: State, snapshot: seq<Row>) {
    forall r :: multiset(LakeRows(s))[r] == multiset(snapshot)[r]
  }

  /** MAIN: under one snapshot and an exactly covering plan, a lake with all chunks DONE holds
      exactly the snapshot if and only if no attempt of a chunk with rows died in the gap. */
  lemma BootstrapCopiesSnapshot(job: Job, s: State, snapshot: seq<Row>)
    requires Reached(job, s) && AllDone(job, s) && OneSnapshot(s, snapshot)
    requires forall r :: r in snapshot ==> Hits(job.plan, r) == 1
    ensures Exact(s, snapshot) <==>
            forall w :: 0 <= w < |job.plan| && Matching(snapshot, job.plan[w]) != [] ==> NoGapDeath(s, w)
    ensures Exact(s, snapshot) ==> multiset(LakeRows(s)) == multiset(snapshot)
  {
    hide Reached, LakeRows, Hits, Matching, AllDone, OneSnapshot;
    if forall w :: 0 <= w < |job.plan| && Matching(snapshot, job.plan[w]) != [] ==> NoGapDeath(s, w) {
      forall r
        ensures multiset(LakeRows(s))[r] == multiset(snapshot)[r]
      {
        SnapshotRow(job, s, snapshot, r);
      }
    }
    if Exact(s, snapshot) {
      forall w | 0 <= w < |job.plan| && Matching(snapshot, job.plan[w]) != []
        ensures NoGapDeath(s, w)
      {
        if !NoGapDeath(s, w) {
          ExtraCopies(job, s, snapshot, w);
        }
      }
    }
  }

  lemma ChunkHasRow(snapshot: seq<Row>, chunk: Chunk, r: Row)
    requires r in snapshot && Satisfies(r, chunk)
    ensures Matching(snapshot, chunk) != []
  {
    MatchingCount(snapshot, chunk, r);
    assert multiset(Matching(snapshot, chunk))[r] > 0;
  }

  lemma SnapshotRow(job: Job, s: State, snapshot: seq<Row>, r: Row)
    requires Reached(job, s) && AllDone(job, s) && OneSnapshot(s, snapshot)
    requires r in snapshot ==> Hits(job.plan, r) == 1
    requires forall w :: 0 <= w < |job.plan| && Matching(snapshot, job.plan[w]) != [] ==> NoGapDeath(s, w)
    ensures multiset(LakeRows(s))[r] == multiset(snapshot)[r]
  {
    hide Reached, LakeRows, Hits, AllDone, Matching, Satisfies;
    if r in snapshot {
      var w := HitsOnce(job.plan, r);
      ChunkHasRow(snapshot, job.plan[w], r);
      DoneChunkRow(job, s, r, multiset(snapshot)[r], w);
    } else {
      UnseenRow(job, s, r);
    }
  }

  /** After a death in the gap a row of the chunk's first object shows more often than it should. */
  lemma ExtraCopies(job: Job, s: State, snapshot: seq<Row>, w: nat)
    requires Reached(job, s) && AllDone(job, s) && OneSnapshot(s, snapshot)
    requires w < |job.plan| && Matching(snapshot, job.plan[w]) != [] && !NoGapDeath(s, w)
    ensures !Exact(s, snapshot)
  {
    var c := DoneAttempt(job, s, w);
    ReachedInv(job, s);
    var d := OtherLanding(s.table.calls, s.attempts, w, c);
    AttemptParts(job, s, d);
    var a, b := s.attempts[c], s.attempts[d];
    hide Reached, LakeRows, Inv, AllDone;
    NonEmptyParts(job, a);
    NonEmptyParts(job, b);
    var r := a.parts[0][0];
    FirstPartShown(s.objects, a, b, r);
    PartRow(job, a, 0, r);
    HeldWeight(job, s.objects, a, r);
    LakeIsWhatIsStored(job, s, r);
    SumAtLeastTwo(s.table.calls, s.attempts, OfRow(s.objects, r), c, d);
    assert multiset(LakeRows(s))[r] != multiset(snapshot)[r];
  }

  lemma NonEmptyParts(job: Job, a: Attempt)
    requires PartsOf(job, a) && Matching(a.read, job.plan[a.owner]) != []
    ensures |a.parts| > 0 && a.parts[0] != []
  {
    var rows := Matching(a.read, job.plan[a.owner]);
    assert |multiset(rows)| == |rows|;
    assert a.parts != [] ==> a.parts[0] in a.parts;
  }

  /** Both attempts list the chunk's first object. */
  lemma FirstPartShown(objects: Objects, a: Attempt, b: Attempt, r: Row)
    requires a.owner == b.owner && |a.parts| > 0 && |b.parts| > 0 && r in a.parts[0]
    requires Holding(objects, a, |a.parts|)
    ensures Weight(b, OfRow(objects, r)) > 0
  {
    var p := Path(a.owner, 0);
    assert p in objects && objects[p] == a.parts[0];
    assert Paths(b)[0] == p;
    assert p in Paths(b) && r in Object(objects, p);
    RowsAtMember(objects, Paths(b), r);
    assert r in multiset(RowsAt(objects, Paths(b)));
  }

  lemma {:induction false} OtherLanding(calls: seq<Catalog.Call<Path>>, attempts: seq<Attempt>, w: nat, c: nat) returns (d: nat)
    requires |calls| == |attempts| && Sum(calls, attempts, OfChunk(w)) >= 2
    ensures d < |calls| && d != c && Catalog.Landed(calls[d].phase) && attempts[d].owner == w
  {
    var n := |calls| - 1;
    if Catalog.Landed(calls[n].phase) && attempts[n].owner == w && n != c {
      d := n;
    } else if n == c {
      SumPositive(calls[..n], attempts[..n], OfChunk(w));
      d :| d < n && Catalog.Landed(calls[..n][d].phase) && Weight(attempts[..n][d], OfChunk(w)) > 0;
    } else {
      d := OtherLanding(calls[..n], attempts[..n], w, c);
    }
  }

  // ---------------------------------------------------------------- with the planners

  /** MAIN: plan by day and id on what the planning query saw, run the plan to the end without a
      death in the gap, each attempt on a snapshot of its own: a row that planning saw and all
      extractions saw `m` times is in the lake `m` times, and a row none of them saw is not. */
  lemma PartitionedRow(job: Job, s: State, planned: seq<Row>, groups: seq<DayGroup>, target: nat, numericId: bool, r: Row, m: nat)
    requires target >= 1 && GroupsOf(groups, planned)
    requires job.plan == PartitionPlan(groups, 0, target, numericId)
    requires Reached(job, s) && AllDone(job, s) && SeenTimes(s, r, m)
    requires m > 0 ==> r in planned && Reachable(r, numericId)
    requires forall w :: 0 <= w < |job.plan| ==> NoGapDeath(s, w)
    ensures multiset(LakeRows(s))[r] == m
  {
    hide Reached, LakeRows, AllDone, Hits;
    if m > 0 {
      PartitionPlanCovers(groups, planned, target, numericId, r);
    }
    CleanRow(job, s, r, m);
  }

  /** MAIN: the same for an unpartitioned table with a numeric key. */
  lemma RangedRow(job: Job, s: State, lo: int, hi: int, approxRows: int, target: nat, r: Row, m: nat)
    requires target >= 1
    requires job.plan == RangePlan(Some(lo), Some(hi), approxRows, target)
    requires Reached(job, s) && AllDone(job, s) && SeenTimes(s, r, m)
    requires m > 0 ==> r.id.Some? && lo <= r.id.value <= hi
    requires forall w :: 0 <= w < |job.plan| ==> NoGapDeath(s, w)
    ensures multiset(LakeRows(s))[r] == m
  {
    hide Reached, LakeRows, AllDone, Hits;
    if m > 0 {
      RangePlanCovers(lo, hi, approxRows, target, r);
    }
    CleanRow(job, s, r, m);
  }

  lemma CleanRow(job: Job, s: State, r: Row, m: nat)
    requires Reached(job, s) && AllDone(job, s) && SeenTimes(s, r, m)
    requires m > 0 ==> Hits(job.plan, r) == 1
    requires forall w :: 0 <= w < |job.plan| ==> NoGapDeath(s, w)
    ensures multiset(LakeRows(s))[r] == m
  {
    hide Reached, LakeRows, AllDone, Hits;
    if m > 0 {
      var w := HitsOnce(job.plan, r);
      DoneChunkRow(job, s, r, m, w);
    } else {
      UnseenRow(job, s, r);
    }
  }

  /** So when planning and all attempts read one snapshot, the table is copied. */
  lemma PartitionedBootstrap(job: Job, s: State, snapshot: seq<Row>, groups: seq<DayGroup>, target: nat, numericId: bool)
    requires target >= 1 && GroupsOf(groups, snapshot)
    requires job.plan == PartitionPlan(groups, 0, target, numericId)
    requires forall r :: r in snapshot ==> Reachable(r, numericId)
    requires Reached(job, s) && AllDone(job, s) && OneSnapshot(s, snapshot)
    requires forall w :: 0 <= w < |job.plan| ==> NoGapDeath(s, w)
    ensures multiset(LakeRows(s)) == multiset(snapshot)
  {
    hide Reached, LakeRows, AllDone;
    forall r
      ensures multiset(LakeRows(s))[r] == multiset(snapshot)[r]
    {
      PartitionedRow(job, s, snapshot, groups, target, numericId, r, multiset(snapshot)[r]);
    }
  }

  lemma RangedBootstrap(job: Job, s: State, snapshot: seq<Row>, lo: int, hi: int, approxRows: int, target: nat)
    requires target >= 1
    requires job.plan == RangePlan(Some(lo), Some(hi), approxRows, target)
    requires forall r :: r in snapshot ==> r.id.Some? && lo <= r.id.value <= hi
    requires Reached(job, s) && AllDone(job, s) && OneSnapshot(s, snapshot)
    requires forall w :: 0 <= w < |job.plan| ==> NoGapDeath(s, w)
    ensures multiset(LakeRows(s)) == multiset(snapshot)
  {
    hide Reached, LakeRows, AllDone;
    forall r
      ensures multiset(LakeRows(s))[r] == multiset(snapshot)[r]
    {
      RangedRow(job, s, lo, hi, approxRows, target, r, multiset(snapshot)[r]);
    }
  }
}
