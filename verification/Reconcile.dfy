/** Primary-key reconciliation, and what a whole life of merges and reconciles keeps. */
module Reconcile {
  import opened Prelude
  import opened Rows
  import opened Merge
  import opened CopyWorker

  const DELETE_BATCH := 5000
  const INSERT_BATCH := 10_000

  // ---------------------------------------------------------------- key lists

  /** The key column of a table without NULL keys. */
  function IdList(s: seq<Row>): seq<int>
    requires Keyed(s)
  {
    if s == [] then [] else [s[0].id.value] + IdList(s[1..])
  }

  function AsSet(ids: seq<int>): set<int> {
    set k | k in ids
  }

  /** `filter(ids, invert(is_in(ids, value_set)))` */
  function NotIn(ids: seq<int>, values: set<int>): seq<int> {
    if ids == [] then [] else (if ids[0] in values then [] else [ids[0]]) + NotIn(ids[1..], values)
  }

  lemma {:induction false} IdListKeys(s: seq<Row>)
    requires Keyed(s)
    ensures AsSet(IdList(s)) == Keys(s) && |IdList(s)| == |s|
    ensures forall i :: 0 <= i < |s| ==> IdList(s)[i] == s[i].id.value
  {
    if s != [] {
      IdListKeys(s[1..]);
      assert s == [s[0]] + s[1..];
      KeysAppend([s[0]], s[1..]);
      assert forall k :: k in IdList(s) <==> k == s[0].id.value || k in IdList(s[1..]);
    }
  }

  lemma {:induction false} NotInMembers(ids: seq<int>, values: set<int>)
    ensures forall k :: k in NotIn(ids, values) <==> k in ids && k !in values
  {
    if ids != [] {
      NotInMembers(ids[1..], values);
      assert forall k :: k in ids <==> k == ids[0] || k in ids[1..];
    }
  }

  ghost predicate NoRepeats(ids: seq<int>) {
    forall i, j :: 0 <= i < j < |ids| ==> ids[i] != ids[j]
  }

  lemma {:induction false} NotInDistinct(ids: seq<int>, values: set<int>)
    requires NoRepeats(ids)
    ensures NoRepeats(NotIn(ids, values))
  {
    if ids != [] {
      NotInDistinct(ids[1..], values);
      NotInMembers(ids[1..], values);
      assert forall k :: k in ids[1..] ==> k != ids[0];
    }
  }

  lemma NotInKeys(s: seq<Row>, values: set<int>)
    requires Keyed(s)
    ensures AsSet(NotIn(IdList(s), values)) == Keys(s) - values
  {
    IdListKeys(s);
    NotInMembers(IdList(s), values);
    forall k
      ensures k in AsSet(NotIn(IdList(s), values)) <==> k in Keys(s) - values
    {
      assert k in IdList(s) <==> k in AsSet(IdList(s));
    }
  }

  /** Deleting by key removes one row per listed key of the lake's own key column. */
  lemma {:induction false} DeletedRows(s: seq<Row>, values: set<int>)
    requires Keyed(s)
    ensures |Without(s, Keys(s) - values)| + |NotIn(IdList(s), values)| == |s|
  {
    DeletedRowsWith(s, values, Keys(s) - values);
  }

  lemma {:induction false} DeletedRowsWith(s: seq<Row>, values: set<int>, gone: set<int>)
    requires Keyed(s)
    requires forall k :: k in Keys(s) ==> (k in gone <==> k !in values)
    ensures |Without(s, gone)| + |NotIn(IdList(s), values)| == |s|
  {
    if s != [] {
      assert s == [s[0]] + s[1..];
      KeysAppend([s[0]], s[1..]);
      assert s[0].id.value in Keys([s[0]]);
      assert Keys(s[1..]) <= Keys(s) && s[0].id.value in Keys(s);
      var k := s[0].id.value;
      assert k in Keys(s) && HasKeyIn(s[0], gone) == (k !in values);
      assert IdList(s)[0] == k && IdList(s)[1..] == IdList(s[1..]);
      DeletedRowsWith(s[1..], values, gone);
    }
  }

  lemma {:induction false} WithoutTwice(s: seq<Row>, a: set<int>, b: set<int>)
    ensures Without(Without(s, a), b) == Without(s, a + b)
  {
    if s != [] {
      WithoutTwice(s[1..], a, b);
      var rest := Without(s[1..], a);
      if HasKeyIn(s[0], a) {
        assert [] + rest == rest && [] + Without(s[1..], a + b) == Without(s[1..], a + b);
      } else {
        assert ([s[0]] + rest)[1..] == rest;
      }
    }
  }

  lemma {:induction false} WithoutNothing(s: seq<Row>)
    ensures Without(s, {}) == s
  {
    if s != [] {
      WithoutNothing(s[1..]);
    }
  }

  // ---------------------------------------------------------------- fetching missing rows

  /** `SELECT * FROM source WHERE pk IN (keys)`, in table order. */
  function Select(source: seq<Row>, keys: set<int>): seq<Row> {
    if source == [] then [] else (if HasKeyIn(source[0], keys) then [source[0]] else []) + Select(source[1..], keys)
  }

  lemma {:induction false} SelectProperties(source: seq<Row>, keys: set<int>)
    requires DistinctKeys(source)
    ensures DistinctKeys(Select(source, keys))
    ensures forall r :: r in Select(source, keys) <==> r in source && HasKeyIn(r, keys)
  {
    if source != [] {
      SelectProperties(source[1..], keys);
      assert source == [source[0]] + source[1..];
      assert forall x :: x in source[1..] ==> x.id != source[0].id;
    }
  }

  /** A part list that fetches exactly the source rows with a key outside `present`. */
  ghost predicate FetchOf(parts: seq<seq<Row>>, source: seq<Row>, keys: set<int>) {
    && DistinctKeys(Flatten(parts))
    && Keyed(Flatten(parts))
    && forall r :: r in Flatten(parts) <==> r in source && HasKeyIn(r, keys)
  }

  lemma ConcatDistinct(x: seq<Row>, y: seq<Row>)
    requires DistinctKeys(x) && DistinctKeys(y)
    requires forall p, q :: p in x && q in y ==> p.id != q.id
    ensures DistinctKeys(x + y)
  {
    var z := x + y;
    forall i, j | 0 <= i < j < |z|
      ensures z[i].id != z[j].id
    {
      if i < |x| <= j {
        assert z[i] in x && z[j] in y;
      }
    }
  }

  lemma FetchMore(parts: seq<seq<Row>>, more: seq<seq<Row>>, source: seq<Row>, a: set<int>, b: set<int>)
    requires FetchOf(parts, source, a) && Flatten(more) == Select(source, b)
    requires DistinctKeys(source) && a * b == {}
    ensures FetchOf(parts + more, source, a + b)
  {
    FlattenAppend(parts, more);
    SelectProperties(source, b);
    var x, y := Flatten(parts), Flatten(more);
    hide Flatten, Select;
    forall p, q | p in x && q in y
      ensures p.id != q.id
    {
      assert HasKeyIn(p, a) && HasKeyIn(q, b);
      assert p.id.value !in a * b;
    }
    ConcatDistinct(x, y);
    forall r
      ensures r in x + y <==> r in source && HasKeyIn(r, a + b)
    {
      assert r in x + y <==> r in x || r in y;
    }
  }

  lemma {:induction false} UpsertAllAppend(lake: seq<Row>, a: seq<seq<Row>>, b: seq<seq<Row>>, dedupe: bool)
    ensures UpsertAll(lake, a + b, dedupe) == UpsertAll(UpsertAll(lake, a, dedupe), b, dedupe)
    decreases |a|
  {
    if a == [] {
      assert a + b == b;
    } else {
      assert (a + b)[1..] == a[1..] + b;
      UpsertAllAppend(Upsert(lake, a[0], dedupe), a[1..], b, dedupe);
    }
  }

  // ---------------------------------------------------------------- the effect

  /** One pass: drop the keys the source does not have, upsert the fetched parts. */
  function ReconcileEffect(lake: seq<Row>, source: seq<Row>, parts: seq<seq<Row>>, dedupe: bool): seq<Row> {
    UpsertAll(Without(lake, Keys(lake) - Keys(source)), parts, dedupe)
  }

  /** Rows of keys on both sides are as in the lake, other rows exactly as in the source. */
  ghost predicate Reconciled(lake: seq<Row>, source: seq<Row>, after: seq<Row>) {
    forall r :: multiset(after)[r] == if HasKeyIn(r, Keys(lake) * Keys(source)) then multiset(lake)[r] else multiset(source)[r]
  }

  lemma DistinctUpsert(lake: seq<Row>, a: seq<Row>, dedupe: bool, r: Row)
    requires DistinctKeys(a) && Keyed(a)
    ensures multiset(Upsert(lake, a, dedupe))[r] == if HasKeyIn(r, Keys(a)) then multiset(a)[r] else multiset(lake)[r]
  {
    DistinctIsNewest(a);
    UpsertMerges(lake, a, dedupe);
    DistinctKeysOnce(a, r);
  }

  /** The parts name each key once, so their order and cut do not matter. */
  lemma {:induction false} DistinctPartsMerge(lake: seq<Row>, parts: seq<seq<Row>>, dedupe: bool, r: Row)
    requires DistinctKeys(Flatten(parts)) && Keyed(Flatten(parts))
    ensures multiset(UpsertAll(lake, parts, dedupe))[r] ==
            if HasKeyIn(r, Keys(Flatten(parts))) then multiset(Flatten(parts))[r] else multiset(lake)[r]
    decreases |parts|
  {
    hide Upsert;
    if parts != [] {
      var a, b := parts[0], Flatten(parts[1..]);
      assert Flatten(parts) == a + b;
      DistinctSplit(a, b);
      KeysAppend(a, b);
      DistinctUpsert(lake, a, dedupe, r);
      DistinctPartsMerge(Upsert(lake, a, dedupe), parts[1..], dedupe, r);
      assert multiset(a + b)[r] == multiset(a)[r] + multiset(b)[r];
      assert HasKeyIn(r, Keys(a)) ==> r.id.value !in Keys(a) * Keys(b);
      assert r in a && r.id.Some? ==> r.id.value in Keys(a);
      assert r in b && r.id.Some? ==> r.id.value in Keys(b);
    }
  }

  lemma DistinctSplit(a: seq<Row>, b: seq<Row>)
    requires DistinctKeys(a + b) && Keyed(a + b)
    ensures DistinctKeys(a) && DistinctKeys(b) && Keyed(a) && Keyed(b)
    ensures Keys(a) * Keys(b) == {}
  {
    assert forall i :: 0 <= i < |a| ==> (a + b)[i] == a[i];
    assert forall i :: 0 <= i < |b| ==> (a + b)[|a| + i] == b[i];
    assert forall r :: r in a + b <==> r in a || r in b;
    forall k | k in Keys(a)
      ensures k !in Keys(b)
    {
      var i :| 0 <= i < |a| && a[i].id == Some(k);
      forall j | 0 <= j < |b|
        ensures b[j].id != Some(k)
      {
        assert (a + b)[|a| + j] == b[j] && (a + b)[i] == a[i];
      }
    }
  }

  /** MAIN: a pass over a static source with unique keys reconciles the lake. */
  lemma EffectReconciles(lake: seq<Row>, source: seq<Row>, parts: seq<seq<Row>>, dedupe: bool)
    requires Keyed(lake) && Keyed(source) && DistinctKeys(source)
    requires FetchOf(parts, source, Keys(source) - Keys(lake))
    ensures Reconciled(lake, source, ReconcileEffect(lake, source, parts, dedupe))
  {
    var gone := Keys(lake) - Keys(source);
    var fetched := Flatten(parts);
    forall r
      ensures multiset(ReconcileEffect(lake, source, parts, dedupe))[r] ==
              if HasKeyIn(r, Keys(lake) * Keys(source)) then multiset(lake)[r] else multiset(source)[r]
    {
      DistinctPartsMerge(Without(lake, gone), parts, dedupe, r);
      WithoutCount(lake, gone, r);
      DistinctKeysOnce(fetched, r);
      DistinctKeysOnce(source, r);
      FetchedKey(parts, source, Keys(source) - Keys(lake), r);
      assert r in lake && r.id.Some? ==> r.id.value in Keys(lake);
      assert r in source && r.id.Some? ==> r.id.value in Keys(source);
    }
  }

  lemma FetchedKey(parts: seq<seq<Row>>, source: seq<Row>, keys: set<int>, r: Row)
    requires FetchOf(parts, source, keys) && keys <= Keys(source)
    ensures HasKeyIn(r, Keys(Flatten(parts))) <==> HasKeyIn(r, keys)
  {
    var fetched := Flatten(parts);
    if HasKeyIn(r, keys) {
      var x :| x in source && x.id == r.id;
      assert x in fetched;
    }
    if HasKeyIn(r, Keys(fetched)) {
      var x :| x in fetched && x.id == r.id;
    }
  }

  /** MAIN: afterwards the two key sets agree. */
  lemma KeySetsAgree(lake: seq<Row>, source: seq<Row>, after: seq<Row>)
    requires Keyed(source) && Reconciled(lake, source, after)
    ensures Keys(after) == Keys(source)
  {
    forall k
      ensures k in Keys(after) <==> k in Keys(source)
    {
      if k in Keys(after) {
        var r :| r in after && r.id == Some(k);
        assert multiset(after)[r] > 0;
        if !HasKeyIn(r, Keys(lake) * Keys(source)) {
          assert r in source;
        }
      }
      if k in Keys(source) {
        var r: Row;
        if k in Keys(lake) {
          r :| r in lake && r.id == Some(k);
        } else {
          r :| r in source && r.id == Some(k);
        }
        assert multiset(after)[r] > 0;
        assert r in after;
      }
    }
  }

  /** MAIN: when the key sets already agree a pass fetches nothing and changes nothing. */
  lemma SecondPassIsIdle(lake: seq<Row>, source: seq<Row>, parts: seq<seq<Row>>, dedupe: bool)
    requires Keyed(lake) && Keys(lake) == Keys(source)
    requires forall p :: p in parts ==> p != []
    requires FetchOf(parts, source, Keys(source) - Keys(lake))
    ensures NotIn(IdList(lake), Keys(source)) == [] && parts == []
    ensures ReconcileEffect(lake, source, parts, dedupe) == lake
  {
    IdListKeys(lake);
    NotInMembers(IdList(lake), Keys(source));
    assert Keys(lake) - Keys(source) == {};
    assert forall k :: k in IdList(lake) ==> k in AsSet(IdList(lake));
    EmptyOrMember(NotIn(IdList(lake), Keys(source)));
    if parts != [] {
      assert parts[0] in parts;
      assert Flatten(parts)[0] in Flatten(parts);
    }
    WithoutNothing(lake);
  }

  lemma EmptyOrMember(ids: seq<int>)
    ensures ids == [] || exists k :: k in ids
  {
    if ids != [] {
      var k := ids[0];
      assert k in ids;
    }
  }

  /** The lake grows by what was fetched and shrinks by what was deleted. */
  lemma EffectSize(lake: seq<Row>, source: seq<Row>, parts: seq<seq<Row>>, dedupe: bool)
    requires Keyed(lake) && Keyed(source) && DistinctKeys(source)
    requires FetchOf(parts, source, Keys(source) - Keys(lake))
    ensures |ReconcileEffect(lake, source, parts, dedupe)| ==
            |lake| - |NotIn(IdList(lake), Keys(source))| + |Flatten(parts)|
  {
    var kept := Without(lake, Keys(lake) - Keys(source));
    var after := ReconcileEffect(lake, source, parts, dedupe);
    var fetched := Flatten(parts);
    DeletedRows(lake, Keys(source));
    forall r
      ensures multiset(after)[r] == multiset(kept)[r] + multiset(fetched)[r]
    {
      DistinctPartsMerge(kept, parts, dedupe, r);
      FetchedKey(parts, source, Keys(source) - Keys(lake), r);
      WithoutCount(lake, Keys(lake) - Keys(source), r);
      assert r in lake && r.id.Some? ==> r.id.value in Keys(lake);
    }
    assert multiset(after) == multiset(kept) + multiset(fetched);
    assert |multiset(after)| == |multiset(kept)| + |multiset(fetched)|;
  }

  // ---------------------------------------------------------------- the op

  /** The first loop of `reconcile_table`. */
  method DeleteGone(table: LakeTable, goneIds: seq<int>) returns (deleted: nat)
    modifies table
    ensures table.rows == Without(old(table.rows), AsSet(goneIds))
    ensures deleted == |goneIds|
  {
    deleted := 0;
    var i := 0;
    WithoutNothing(table.rows);
    assert AsSet(goneIds[..0]) == {};
    while i < |goneIds|
      invariant 0 <= i <= |goneIds| && deleted == i
      invariant table.rows == Without(old(table.rows), AsSet(goneIds[..i]))
    {
      var j := Min(i + DELETE_BATCH, |goneIds|);
      var chunk := goneIds[i..j];
      WithoutTwice(old(table.rows), AsSet(goneIds[..i]), AsSet(chunk));
      assert goneIds[..j] == goneIds[..i] + chunk;
      assert AsSet(goneIds[..j]) == AsSet(goneIds[..i]) + AsSet(chunk);
      table.Delete(chunk);
      deleted := deleted + |chunk|;
      i := j;
    }
    assert goneIds[..|goneIds|] == goneIds;
  }

  /** `_add_missing_rows`. */
  method AddMissingRows(table: LakeTable, bucket: Bucket, prefix: string, source: seq<Row>, missing: seq<int>,
                        groupSetting: int, chunkSetting: int, dedupe: bool)
    returns (added: nat, ghost parts: seq<seq<Row>>)
    requires Keyed(source) && DistinctKeys(source)
    requires NoRepeats(missing)
    modifies table, bucket
    ensures FetchOf(parts, source, AsSet(missing)) && (forall p :: p in parts ==> p != [])
    ensures table.rows == UpsertAll(old(table.rows), parts, dedupe)
    ensures added == |Flatten(parts)|
  {
    hide PartRows, PartKey, CutInto, Stored;
    added, parts := 0, [];
    var i := 0;
    while i < |missing|
      invariant 0 <= i <= |missing|
      invariant FetchOf(parts, source, AsSet(missing[..i])) && (forall p :: p in parts ==> p != [])
      invariant table.rows == UpsertAll(old(table.rows), parts, dedupe)
      invariant added == |Flatten(parts)|
    {
      var j := Min(i + INSERT_BATCH, |missing|);
      var batch := missing[i..j];
      var ok, staged, uris, rows :=
        ExtractChunkToS3(bucket, Select(source, AsSet(batch)), prefix, i / INSERT_BATCH, groupSetting, chunkSetting, None);
      CutParts(staged, Select(source, AsSet(batch)), groupSetting, chunkSetting);
      SlicesApart(missing, i, j);
      FetchMore(parts, staged, source, AsSet(missing[..i]), AsSet(batch));
      FlattenAppend(parts, staged);
      MergeParts(table, staged, dedupe);
      UpsertAllAppend(old(table.rows), parts, staged, dedupe);
      parts := parts + staged;
      added := added + rows;
      i := j;
    }
    assert missing[..|missing|] == missing;
  }

  lemma CutParts(parts: seq<seq<Row>>, stream: seq<Row>, groupSetting: int, chunkSetting: int)
    requires CutInto(parts, stream, PartRows(Max(1, groupSetting), Max(Max(1, groupSetting), chunkSetting)))
    ensures Flatten(parts) == stream && forall p :: p in parts ==> p != []
  {}

  lemma SlicesApart(ids: seq<int>, i: nat, j: nat)
    requires i <= j <= |ids|
    requires NoRepeats(ids)
    ensures AsSet(ids[..i]) * AsSet(ids[i..j]) == {}
    ensures AsSet(ids[..j]) == AsSet(ids[..i]) + AsSet(ids[i..j])
  {
    assert ids[..j] == ids[..i] + ids[i..j];
  }

  method MergeParts(table: LakeTable, parts: seq<seq<Row>>, dedupe: bool)
    modifies table
    ensures table.rows == UpsertAll(old(table.rows), parts, dedupe)
  {
    for i := 0 to |parts|
      invariant table.rows == UpsertAll(old(table.rows), parts[..i], dedupe)
    {
      assert parts[..i + 1] == parts[..i] + [parts[i]];
      UpsertAllAppend(old(table.rows), parts[..i], [parts[i]], dedupe);
      assert [parts[i]][1..] == [];
      var n := MergeArrowTable(table, parts[i], dedupe);
    }
    assert parts[..|parts|] == parts;
  }

  /** `reconcile_table` on a source that does not change meanwhile. */
  method ReconcileTable(table: LakeTable, bucket: Bucket, prefix: string, source: seq<Row>, groupSetting: int, chunkSetting: int,
                        dedupe: bool)
    returns (deleted: nat, added: nat, ghost parts: seq<seq<Row>>)
    requires Keyed(table.rows) && Keyed(source) && DistinctKeys(source)
    modifies table, bucket
    ensures FetchOf(parts, source, Keys(source) - Keys(old(table.rows)))
    ensures table.rows == ReconcileEffect(old(table.rows), source, parts, dedupe)
    ensures Reconciled(old(table.rows), source, table.rows)
    ensures Keys(table.rows) == Keys(source)
    ensures deleted == |old(table.rows)| - |Without(old(table.rows), Keys(old(table.rows)) - Keys(source))|
    ensures added == |Flatten(parts)|
    ensures |table.rows| == |old(table.rows)| - deleted + added
    ensures Keys(old(table.rows)) == Keys(source) ==> deleted == 0 && added == 0 && table.rows == old(table.rows)
  {
    hide UpsertAll, Without, NotIn, IdList, Select, Reconciled;
    ghost var lake := table.rows;
    var lakeIds, sourceIds := IdList(table.rows), IdList(source);
    IdListKeys(table.rows);
    IdListKeys(source);
    var goneIds := NotIn(lakeIds, AsSet(sourceIds));
    var missing := NotIn(sourceIds, AsSet(lakeIds));
    NotInKeys(lake, Keys(source));
    NotInKeys(source, Keys(lake));
    NotInDistinct(sourceIds, Keys(lake));
    deleted := DeleteGone(table, goneIds);
    added, parts := AddMissingRows(table, bucket, prefix, source, missing, groupSetting, chunkSetting, dedupe);
    EffectReconciles(lake, source, parts, dedupe);
    KeySetsAgree(lake, source, table.rows);
    EffectSize(lake, source, parts, dedupe);
    DeletedRows(lake, Keys(source));
    if Keys(lake) == Keys(source) {
      SecondPassIsIdle(lake, source, parts, dedupe);
    }
  }

  // ---------------------------------------------------------------- runs of merges and reconciles

  datatype Op = MergeOp(batches: seq<seq<Row>>) | ReconcileOp(source: seq<Row>, parts: seq<seq<Row>>)

  function Effect(lake: seq<Row>, op: Op, dedupe: bool): seq<Row> {
    match op
    case MergeOp(batches) => UpsertAll(lake, batches, dedupe)
    case ReconcileOp(source, parts) => ReconcileEffect(lake, source, parts, dedupe)
  }

  ghost predicate OpOk(op: Op, dedupe: bool) {
    var lists := if op.MergeOp? then op.batches else op.parts;
    forall b :: b in lists ==> Keyed(b) && (dedupe || DistinctKeys(b))
  }

  function RunOps(lake: seq<Row>, ops: seq<Op>, dedupe: bool): seq<Row> {
    if ops == [] then lake
    else Effect(RunOps(lake, ops[..|ops| - 1], dedupe), ops[|ops| - 1], dedupe)
  }

  /** Several upserts: a key they mention ends with one row, any other keeps its count. */
  lemma {:induction false} UpsertAllKeyCount(lake: seq<Row>, batches: seq<seq<Row>>, dedupe: bool, k: int)
    requires forall b :: b in batches ==> Keyed(b) && (dedupe || DistinctKeys(b))
    ensures KeyCount(UpsertAll(lake, batches, dedupe), k) == if k in Keys(Flatten(batches)) then 1 else KeyCount(lake, k)
    decreases |batches|
  {
    if batches != [] {
      assert batches[0] in batches && forall b :: b in batches[1..] ==> b in batches;
      UpsertKeyCount(lake, batches[0], dedupe, k);
      UpsertAllKeyCount(Upsert(lake, batches[0], dedupe), batches[1..], dedupe, k);
      KeysAppend(batches[0], Flatten(batches[1..]));
    }
  }

  /** MAIN: no run of merges and reconciles ever duplicates a key that was not duplicated, and
      the first merge that touches a key a bootstrap duplicated leaves one row of it. */
  lemma {:induction false} KeysStayUnique(lake: seq<Row>, ops: seq<Op>, dedupe: bool, k: int)
    requires forall op :: op in ops ==> OpOk(op, dedupe)
    ensures KeyCount(RunOps(lake, ops, dedupe), k) <= Max(1, KeyCount(lake, k))
    ensures (exists op :: op in ops && op.MergeOp? && k in Keys(Flatten(op.batches))) ==> KeyCount(RunOps(lake, ops, dedupe), k) <= 1
  {
    if ops != [] {
      var n := |ops| - 1;
      var op := ops[n];
      assert op in ops && forall o :: o in ops[..n] ==> o in ops;
      assert ops == ops[..n] + [op];
      KeysStayUnique(lake, ops[..n], dedupe, k);
      var before := RunOps(lake, ops[..n], dedupe);
      match op
      case MergeOp(batches) => UpsertAllKeyCount(before, batches, dedupe, k);
      case ReconcileOp(source, parts) =>
        WithoutKeyCount(before, Keys(before) - Keys(source), k);
        UpsertAllKeyCount(Without(before, Keys(before) - Keys(source)), parts, dedupe, k);
    }
  }
}
