/** The per-chunk progress records of a bootstrap run. */
module ChunkState {
  import opened Prelude
  import opened Digits

  datatype Status = Pending | Running | Done | Failed

  datatype Record = Record(status: Status, s3Uri: Option<string>, rows: Option<nat>, error: Option<string>)

  /** `pipeline_chunk_state`, keyed by (run_id, chunk_key). */
  type Store = map<(string, string), Record>

  /** `f"{table_fqn}#{chunk_id:06d}"` */
  function ChunkKey(fqn: string, chunkId: nat): string {
    fqn + "#" + ZeroFill(chunkId, 6)
  }

  /** MAIN: a key names one chunk of one table, whatever characters the table name holds. */
  lemma ChunkKeysDiffer(f: string, c: nat, g: string, d: nat)
    requires ChunkKey(f, c) == ChunkKey(g, d)
    ensures f == g && c == d
  {
    ZeroFillRoundTrip(c, 6);
    ZeroFillRoundTrip(d, 6);
    var x, y := ZeroFill(c, 6), ZeroFill(d, 6);
    assert forall k :: 0 <= k < |x| ==> IsDigit(x[k]);
    assert forall k :: 0 <= k < |y| ==> IsDigit(y[k]);
    SplitAtLast(f, x, g, y, '#');
  }

  /** The key: the table, `#`, and the chunk in six digits or as many as it needs. */
  lemma ChunkKeyForm(fqn: string, chunkId: nat)
    ensures var key := ChunkKey(fqn, chunkId);
            && |key| >= |fqn| + 7 && key[..|fqn|] == fqn && key[|fqn|] == '#'
            && AllDigits(key[|fqn| + 1..]) && Number(key[|fqn| + 1..]) == chunkId
            && (chunkId < 1_000_000 ==> |key| == |fqn| + 7)
  {
    ZeroFillForm(chunkId, 6);
    assert Pow10(6) == 1_000_000 by {
      assert Pow10(4) == 10 * Pow10(3) && Pow10(3) == 1000;
    }
    hide ZeroFill;
    assert ChunkKey(fqn, chunkId)[|fqn| + 1..] == ZeroFill(chunkId, 6);
  }

  function Coalesce<T>(a: Option<T>, b: Option<T>): Option<T> {
    if a.Some? then a else b
  }

  /** At most 2000 characters of a non-empty message. */
  function Clip(error: Option<string>): Option<string> {
    if error.None? || error.value == "" then None
    else Some(if |error.value| > 2000 then error.value[..2000] else error.value)
  }

  /** The upsert of `put`: status and error are replaced, uri and row count only when given. */
  function Put(store: Store, run: string, key: string, rec: Record): Store {
    var new_ := rec.(error := Clip(rec.error));
    if (run, key) in store then
      var old_ := store[(run, key)];
      store[(run, key) := new_.(s3Uri := Coalesce(rec.s3Uri, old_.s3Uri), rows := Coalesce(rec.rows, old_.rows))]
    else store[(run, key) := new_]
  }

  function ListDone(store: Store, run: string): set<string> {
    set k | k in store && k.0 == run && store[k].status.Done? :: k.1
  }

  predicate IsDone(store: Store, run: string, key: string) {
    (run, key) in store && store[(run, key)].status.Done?
  }

  lemma ListDoneIsDone(store: Store, run: string, key: string)
    ensures key in ListDone(store, run) <==> IsDone(store, run, key)
  {
    if IsDone(store, run, key) {
      assert (run, key).1 in ListDone(store, run);
    }
  }

  /** A put decides the status of its own key and of no other. */
  lemma PutStatus(store: Store, run: string, key: string, rec: Record, run2: string, key2: string)
    ensures IsDone(Put(store, run, key, rec), run2, key2) <==>
            if (run2, key2) == (run, key) then rec.status.Done? else IsDone(store, run2, key2)
  {}

  /** MAIN: what a put leaves: status as given, the error at most 2000 characters of it and NULL when
      empty, uri and row count as given or, without one, as they were; every other record untouched. */
  lemma PutKeeps(store: Store, run: string, key: string, rec: Record)
    ensures var after := Put(store, run, key, rec);
            && after.Keys == store.Keys + {(run, key)}
            && (forall k :: k in store && k != (run, key) ==> after[k] == store[k])
            && var new_ := after[(run, key)];
               && new_.status == rec.status
               && (rec.s3Uri.Some? ==> new_.s3Uri == rec.s3Uri)
               && (rec.rows.Some? ==> new_.rows == rec.rows)
               && (rec.s3Uri.None? ==> new_.s3Uri == if (run, key) in store then store[(run, key)].s3Uri else None)
               && (rec.rows.None? ==> new_.rows == if (run, key) in store then store[(run, key)].rows else None)
               && (new_.error.None? <==> rec.error.None? || rec.error.value == "")
               && (new_.error.Some? ==> new_.error.value == rec.error.value[..Min(2000, |rec.error.value|)])
  {}

  class ChunkTable {
    var store: Store

    constructor ()
      ensures store == map[]
    {
      store := map[];
    }

    method PutRecord(run: string, key: string, rec: Record)
      modifies this
      ensures store == Put(old(store), run, key, rec)
    {
      store := Put(store, run, key, rec);
    }
  }
}
