/** The bootstrap ops as they are written: the resume filter and one attempt of a chunk op. */
module BootstrapOp {
  import opened Prelude
  import opened Rows
  import opened Chunker
  import opened CopyWorker
  import opened ChunkState
  import opened CatalogCommit

  const MAX_ATTEMPTS: nat := 10

  ghost predicate Increasing(index: seq<nat>) {
    forall i, j :: 0 <= i < j < |index| ==> index[i] < index[j]
  }

  /** MAIN: the fan-out loop of `plan_bootstrap` hands out exactly the chunks whose key is not DONE
      in this run, in plan order, each as often as the plan has it: `index` says from where. */
  method PlanBootstrap(table: ChunkTable, run: string, fqn: string, chunks: seq<Chunk>)
    returns (out: seq<Chunk>, ghost index: seq<nat>)
    ensures forall c :: c in out <==> c in chunks && !IsDone(table.store, run, ChunkKey(fqn, c.chunkId))
    ensures Increasing(index) && |index| == |out|
    ensures forall i :: 0 <= i < |out| ==> index[i] < |chunks| && out[i] == chunks[index[i]]
    ensures forall j :: 0 <= j < |chunks| && !IsDone(table.store, run, ChunkKey(fqn, chunks[j].chunkId)) ==> j in index
    ensures forall c :: multiset(out)[c] == if IsDone(table.store, run, ChunkKey(fqn, c.chunkId)) then 0 else multiset(chunks)[c]
    ensures (forall k :: k in table.store ==> !table.store[k].status.Done?) ==> out == chunks
  {
    var alreadyDone := ListDone(table.store, run);
    out, index := [], [];
    hide ChunkKey, Left;
    NothingLeft(table.store, run, fqn);
    for i := 0 to |chunks|
      invariant Left(out, index, chunks[..i], table.store, run, fqn)
    {
      assert chunks[..i + 1] == chunks[..i] + [chunks[i]];
      var key := ChunkKey(fqn, chunks[i].chunkId);
      ListDoneIsDone(table.store, run, key);
      LeftSnoc(out, index, chunks[..i], chunks[i], table.store, run, fqn);
      if key !in alreadyDone {
        out, index := out + [chunks[i]], index + [i];
      }
    }
    assert chunks[..|chunks|] == chunks;
    LeftMeans(out, index, chunks, table.store, run, fqn);
  }

  ghost predicate DoneChunk(store: Store, run: string, fqn: string, c: Chunk) {
    IsDone(store, run, ChunkKey(fqn, c.chunkId))
  }

  /** `out` are the chunks that are not DONE, at positions `index`. */
  ghost predicate Left(out: seq<Chunk>, index: seq<nat>, chunks: seq<Chunk>, store: Store, run: string, fqn: string) {
    LeftAt(out, index, chunks, store, run, fqn) && LeftCounts(out, chunks, store, run, fqn)
  }

  ghost predicate LeftAt(out: seq<Chunk>, index: seq<nat>, chunks: seq<Chunk>, store: Store, run: string, fqn: string) {
    && Increasing(index) && |index| == |out|
    && (forall i :: 0 <= i < |out| ==> index[i] < |chunks| && out[i] == chunks[index[i]])
    && (forall j :: 0 <= j < |chunks| && !DoneChunk(store, run, fqn, chunks[j]) ==> j in index)
  }

  ghost predicate LeftCounts(out: seq<Chunk>, chunks: seq<Chunk>, store: Store, run: string, fqn: string) {
    && (forall c :: multiset(out)[c] == if DoneChunk(store, run, fqn, c) then 0 else multiset(chunks)[c])
    && ((forall k :: k in store ==> !store[k].status.Done?) ==> out == chunks)
  }

  lemma NothingLeft(store: Store, run: string, fqn: string)
    ensures Left([], [], [], store, run, fqn)
  {}

  lemma LeftSnoc(out: seq<Chunk>, index: seq<nat>, chunks: seq<Chunk>, c: Chunk, store: Store, run: string, fqn: string)
    requires Left(out, index, chunks, store, run, fqn)
    ensures IsDone(store, run, ChunkKey(fqn, c.chunkId)) ==> Left(out, index, chunks + [c], store, run, fqn)
    ensures !IsDone(store, run, ChunkKey(fqn, c.chunkId)) ==> Left(out + [c], index + [|chunks|], chunks + [c], store, run, fqn)
  {
    hide ChunkKey, LeftAt, LeftCounts;
    LeftAtSnoc(out, index, chunks, c, store, run, fqn);
    LeftCountsSnoc(out, chunks, c, store, run, fqn);
  }

  lemma LeftAtSnoc(out: seq<Chunk>, index: seq<nat>, chunks: seq<Chunk>, c: Chunk, store: Store, run: string, fqn: string)
    requires LeftAt(out, index, chunks, store, run, fqn)
    ensures DoneChunk(store, run, fqn, c) ==> LeftAt(out, index, chunks + [c], store, run, fqn)
    ensures !DoneChunk(store, run, fqn, c) ==> LeftAt(out + [c], index + [|chunks|], chunks + [c], store, run, fqn)
  {
    hide DoneChunk;
    var n, more := |chunks|, index + [|chunks|];
    assert forall i :: 0 <= i < |index| ==> index[i] in index;
    forall j | 0 <= j < |chunks + [c]| && !DoneChunk(store, run, fqn, (chunks + [c])[j])
      ensures j in more && (DoneChunk(store, run, fqn, c) ==> j in index)
    {
      if j == n {
        assert more[|index|] == j;
      } else {
        assert (chunks + [c])[j] == chunks[j];
      }
    }
  }

  lemma LeftCountsSnoc(out: seq<Chunk>, chunks: seq<Chunk>, c: Chunk, store: Store, run: string, fqn: string)
    requires LeftCounts(out, chunks, store, run, fqn)
    ensures DoneChunk(store, run, fqn, c) ==> LeftCounts(out, chunks + [c], store, run, fqn)
    ensures !DoneChunk(store, run, fqn, c) ==> LeftCounts(out + [c], chunks + [c], store, run, fqn)
  {
    assert DoneChunk(store, run, fqn, c) ==> (run, ChunkKey(fqn, c.chunkId)) in store && store[(run, ChunkKey(fqn, c.chunkId))].status.Done?;
    hide DoneChunk, ChunkKey;
    forall d
      ensures multiset(chunks + [c])[d] == multiset(chunks)[d] + if d == c then 1 else 0
      ensures multiset(out + [c])[d] == multiset(out)[d] + if d == c then 1 else 0
    {}
  }

  lemma LeftMeans(out: seq<Chunk>, index: seq<nat>, chunks: seq<Chunk>, store: Store, run: string, fqn: string)
    requires Left(out, index, chunks, store, run, fqn)
    ensures forall c :: c in out <==> c in chunks && !IsDone(store, run, ChunkKey(fqn, c.chunkId))
    ensures Increasing(index) && |index| == |out|
    ensures forall i :: 0 <= i < |out| ==> index[i] < |chunks| && out[i] == chunks[index[i]]
    ensures forall j :: 0 <= j < |chunks| && !IsDone(store, run, ChunkKey(fqn, chunks[j].chunkId)) ==> j in index
    ensures forall c :: multiset(out)[c] == if IsDone(store, run, ChunkKey(fqn, c.chunkId)) then 0 else multiset(chunks)[c]
    ensures (forall k :: k in store ==> !store[k].status.Done?) ==> out == chunks
  {
    hide ChunkKey;
    forall c
      ensures c in out <==> c in chunks && !IsDone(store, run, ChunkKey(fqn, c.chunkId))
      ensures multiset(out)[c] == if IsDone(store, run, ChunkKey(fqn, c.chunkId)) then 0 else multiset(chunks)[c]
    {
      assert DoneChunk(store, run, fqn, c) == IsDone(store, run, ChunkKey(fqn, c.chunkId));
      assert c in out <==> multiset(out)[c] > 0;
      assert c in chunks <==> multiset(chunks)[c] > 0;
    }
    forall j | 0 <= j < |chunks| && !IsDone(store, run, ChunkKey(fqn, chunks[j].chunkId))
      ensures j in index
    {
      assert !DoneChunk(store, run, fqn, chunks[j]);
    }
  }

  /** What goes wrong in an attempt: each of its three record writes can fail, so can the COPY and
      the upload of part `upload`; at commit attempt `commit` an exception other than a conflict
      comes up, with `unseen` although the files have reached the table. */
  datatype Faults = Faults(runningWrite: bool, copy: bool, upload: Option<nat>, commit: Option<nat>, unseen: bool,
                           doneWrite: bool, failedWrite: bool)

  datatype Outcome = Skipped | Completed(rows: nat) | Raised

  /** The stream's parts go up: the number of the failing upload, if any, is none of them. */
  predicate Uploads(stream: seq<Row>, groupSetting: int, chunkSetting: int, upload: Option<nat>) {
    var group := Max(1, groupSetting);
    upload.None? || upload.value >= CeilDiv(|stream|, PartRows(group, Max(group, chunkSetting)))
  }

  /** The commit goes through: there is nothing to commit, or one of the ten attempts meets no foreign
      commit between its load and its swap before anything else breaks the call. */
  predicate Commits(stream: seq<Row>, others: seq<(seq<seq<string>>, seq<seq<string>>)>, breakAt: Option<nat>) {
    stream == [] || exists i :: 0 <= i < |others| && others[i].1 == [] && (breakAt.None? || i < breakAt.value)
  }

  /** One attempt of `extract_chunk_op`. It is skipped exactly when the chunk was DONE, it completes
      exactly when nothing it needs fails, and it raises otherwise. `mine` are the files this attempt appended to the table,
      `theirs` what other workers appended meanwhile, `parts` the parts it stored. The files reach
      the table at most once and only when the whole stream is stored under their keys, DONE is
      recorded only after that, and a raised attempt appended something only when the DONE record
      could not be written or the commit's answer was lost. */
  method ExtractChunkOp(table: ChunkTable, catalog: Catalog<string>, bucket: Bucket, run: string, fqn: string, chunkId: nat,
                        stream: seq<Row>, groupSetting: int, chunkSetting: int,
                        others: seq<(seq<seq<string>>, seq<seq<string>>)>, faults: Faults)
    returns (outcome: Outcome, mine: seq<string>, theirs: seq<string>, ghost parts: seq<seq<Row>>)
    requires |others| == 10
    modifies table, catalog, bucket
    ensures outcome.Completed? <==>
              && !IsDone(old(table.store), run, ChunkKey(fqn, chunkId))
              && !faults.runningWrite && !faults.copy && Uploads(stream, groupSetting, chunkSetting, faults.upload)
              && Commits(stream, others, faults.commit) && !faults.doneWrite
    ensures IsDone(old(table.store), run, ChunkKey(fqn, chunkId)) <==> outcome.Skipped?
    ensures catalog.files == old(catalog.files) + theirs + mine
    ensures bucket.objects == Stored(old(bucket.objects), BootstrapPrefix(run, fqn), chunkId, parts)
    ensures outcome.Skipped? || (outcome.Raised? && faults.runningWrite) ==>
              mine == [] && theirs == [] && parts == [] && table.store == old(table.store)
    ensures outcome.Completed? || mine != [] ==> Flatten(parts) == stream && mine == Keys(BootstrapPrefix(run, fqn), chunkId, |parts|)
    ensures outcome.Completed? ==> outcome.rows == |stream|
    ensures outcome.Raised? && mine != [] ==> faults.doneWrite || (faults.commit.Some? && faults.unseen)
    ensures IsDone(table.store, run, ChunkKey(fqn, chunkId)) <==> !outcome.Raised?
    ensures outcome.Completed? ==> table.store[(run, ChunkKey(fqn, chunkId))].rows == Some(outcome.rows)
    ensures outcome.Completed? && mine != [] ==> table.store[(run, ChunkKey(fqn, chunkId))].s3Uri == Some(mine[0])
    ensures outcome.Raised? && !faults.runningWrite ==>
              && (run, ChunkKey(fqn, chunkId)) in table.store
              && table.store[(run, ChunkKey(fqn, chunkId))].status == if faults.failedWrite then Status.Running else Status.Failed
    ensures table.store - {(run, ChunkKey(fqn, chunkId))} == old(table.store) - {(run, ChunkKey(fqn, chunkId))}
  {
    hide ChunkKey, CutInto, PartRows, PartKey, Flatten, Stored, CeilDiv, Commits, Undisturbed;
    var key := ChunkKey(fqn, chunkId);
    outcome, mine, theirs, parts := Raised, [], [], [];
    NothingStored(bucket.objects, BootstrapPrefix(run, fqn), chunkId);
    ListDoneIsDone(table.store, run, key);
    if key in ListDone(table.store, run) {
      outcome := Skipped;
      return;
    }
    if faults.runningWrite {
      return;
    }
    table.PutRecord(run, key, Record(Status.Running, None, None, None));
    if !faults.copy {
      var ok, stored, uris, rows := ExtractChunkToS3(bucket, stream, BootstrapPrefix(run, fqn), chunkId, groupSetting, chunkSetting, faults.upload);
      parts := stored;
      if ok {
        CutIsWhole(parts, stream, PartRows(Max(1, groupSetting), Max(Max(1, groupSetting), chunkSetting)));
        assert uris == Keys(BootstrapPrefix(run, fqn), chunkId, |parts|);
        NoRowsNoParts(parts, stream);
        CommitsIs(stream, others, faults.commit);
        ok, mine, theirs := Commit(catalog, uris, others, faults.commit, faults.unseen);
      }
      if ok && !faults.doneWrite {
        table.PutRecord(run, key, Record(Status.Done, if |uris| > 0 then Some(uris[0]) else None, Some(rows), None));
        outcome := Completed(rows);
        return;
      }
    }
    if !faults.failedWrite {
      table.PutRecord(run, key, Record(Status.Failed, None, None, Some("error")));
    }
  }

  /** The keys of a chunk's first `n` parts. */
  function Keys(prefix: string, chunkId: nat, n: nat): seq<string> {
    seq(n, i requires 0 <= i => PartKey(prefix, chunkId, i))
  }

  lemma NothingStored(objects: map<string, seq<Row>>, prefix: string, chunkId: nat)
    ensures Stored(objects, prefix, chunkId, []) == objects
  {}

  /** The commit of an attempt, told apart into its own and the other workers' files. */
  method Commit(catalog: Catalog<string>, uris: seq<string>,
                others: seq<(seq<seq<string>>, seq<seq<string>>)>, breakAt: Option<nat>, unseen: bool)
    returns (ok: bool, mine: seq<string>, theirs: seq<string>)
    requires |others| == MAX_ATTEMPTS
    modifies catalog
    ensures catalog.files == old(catalog.files) + theirs + mine
    ensures mine == [] || mine == uris
    ensures ok ==> mine == uris
    ensures ok <==> uris == [] || exists i :: 0 <= i < MAX_ATTEMPTS && Undisturbed(others, breakAt, i)
    ensures !ok && mine != [] ==> breakAt.Some? && unseen
  {
    var result, conflicts := catalog.CommitFilesWithRetry(uris, MAX_ATTEMPTS, others, breakAt, unseen);
    ok := result.Done?;
    mine := if ok || (result.Broke? && result.landed) then uris else [];
    theirs := if uris == [] then [] else if result.Exhausted? then Interference(others) else Interference(others[..conflicts + 1]);
  }

  lemma CutIsWhole(parts: seq<seq<Row>>, stream: seq<Row>, k: int)
    requires CutInto(parts, stream, k)
    ensures Flatten(parts) == stream && forall i :: 0 <= i < |parts| ==> parts[i] != []
  {}

  lemma CommitsIs(stream: seq<Row>, others: seq<(seq<seq<string>>, seq<seq<string>>)>, breakAt: Option<nat>)
    requires |others| == 10
    ensures Commits(stream, others, breakAt) <==> stream == [] || exists i :: 0 <= i < MAX_ATTEMPTS && Undisturbed(others, breakAt, i)
  {
    if i :| 0 <= i < |others| && others[i].1 == [] && (breakAt.None? || i < breakAt.value) {
      assert Undisturbed(others, breakAt, i);
    }
  }

  lemma NoRowsNoParts(parts: seq<seq<Row>>, stream: seq<Row>)
    requires Flatten(parts) == stream && forall i :: 0 <= i < |parts| ==> parts[i] != []
    ensures parts == [] <==> stream == []
  {}
}
