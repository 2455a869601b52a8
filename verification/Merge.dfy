/** The upsert of a staged row list into a lake table, and the batched merge built on it. */
module Merge {
  import opened Prelude
  import opened Rows

  // ---------------------------------------------------------------- de-duplication

  /** Order on nullable values with NULL lowest (NULLs go last in a descending sort). */
  predicate Below(a: Option<int>, b: Option<int>) {
    b.Some? && (a.None? || a.value < b.value)
  }

  /** `a` sorts strictly before `b` under (updated_at descending, id descending). */
  predicate Before(a: Row, b: Row) {
    Below(b.stamp, a.stamp) || (a.stamp == b.stamp && Below(b.id, a.id))
  }

  function Insert(r: Row, s: seq<Row>): seq<Row> {
    if s == [] || !Before(s[0], r) then [r] + s else [s[0]] + Insert(r, s[1..])
  }

  /** Arrow's `sort_indices` followed by `take`: a stable sort. */
  function StableSort(s: seq<Row>): seq<Row> {
    if s == [] then [] else Insert(s[0], StableSort(s[1..]))
  }

  ghost predicate Sorted(s: seq<Row>) {
    forall i, j :: 0 <= i < j < |s| ==> !Before(s[j], s[i])
  }

  lemma {:induction false} InsertMultiset(r: Row, s: seq<Row>)
    ensures multiset(Insert(r, s)) == multiset{r} + multiset(s)
  {
    if s != [] && Before(s[0], r) {
      InsertMultiset(r, s[1..]);
      assert s == [s[0]] + s[1..];
    }
  }

  lemma SortedCons(x: Row, s: seq<Row>)
    requires Sorted(s)
    requires forall y :: y in s ==> !Before(y, x)
    ensures Sorted([x] + s)
  {
    var t := [x] + s;
    forall i, j | 0 <= i < j < |t|
      ensures !Before(t[j], t[i])
    {
      assert t[j] == s[j - 1];
      if i > 0 {
        assert t[i] == s[i - 1];
      }
    }
  }

  lemma {:induction false} InsertSorted(r: Row, s: seq<Row>)
    requires Sorted(s)
    ensures Sorted(Insert(r, s))
  {
    if s == [] {
    } else if !Before(s[0], r) {
      forall y | y in s
        ensures !Before(y, r)
      {
        var j :| 0 <= j < |s| && s[j] == y;
        assert j == 0 || !Before(s[j], s[0]);
      }
      SortedCons(r, s);
    } else {
      InsertSorted(r, s[1..]);
      InsertMultiset(r, s[1..]);
      var rest := Insert(r, s[1..]);
      forall y | y in rest
        ensures !Before(y, s[0])
      {
        assert y in multiset(rest);
        if y != r {
          assert y in s[1..];
        }
      }
      SortedCons(s[0], rest);
    }
  }

  lemma {:induction false} StableSortProperties(s: seq<Row>)
    ensures Sorted(StableSort(s))
    ensures multiset(StableSort(s)) == multiset(s)
  {
    if s != [] {
      StableSortProperties(s[1..]);
      InsertSorted(s[0], StableSort(s[1..]));
      InsertMultiset(s[0], StableSort(s[1..]));
      assert s == [s[0]] + s[1..];
    }
  }

  /** The keys already seen (NULL counts as a key here). */
  function Ids(s: seq<Row>): set<Option<int>> {
    set r | r in s :: r.id
  }

  /** The rows kept when only the first occurrence of each key survives. */
  function FirstPerKey(s: seq<Row>): seq<Row> {
    if s == [] then []
    else
      var n := |s| - 1;
      FirstPerKey(s[..n]) + (if s[n].id in Ids(s[..n]) then [] else [s[n]])
  }

  function Dedupe(batch: seq<Row>): seq<Row> {
    FirstPerKey(StableSort(batch))
  }

  /** `r` is the newest row of its key in `w`. */
  ghost predicate Newest(w: seq<Row>, r: Row) {
    r in w && forall x :: x in w && x.id == r.id ==> !Below(r.stamp, x.stamp)
  }

  /** No row of the key has a later stamp, and none has a stamp if this one has none. */
  lemma NewestMeans(w: seq<Row>, r: Row)
    ensures Newest(w, r) <==>
            r in w && forall x :: x in w && x.id == r.id && x.stamp.Some? ==> r.stamp.Some? && x.stamp.value <= r.stamp.value
  {}

  /** No two different rows of `w` share key and timestamp. */
  ghost predicate NoTies(w: seq<Row>) {
    forall x, y :: x in w && y in w && x.id == y.id && x.stamp == y.stamp ==> x == y
  }

  lemma {:induction false} FirstPerKeyIds(s: seq<Row>)
    ensures Ids(FirstPerKey(s)) == Ids(s)
    ensures forall r :: r in FirstPerKey(s) ==> r in s
  {
    if s != [] {
      var n := |s| - 1;
      FirstPerKeyIds(s[..n]);
      assert s == s[..n] + [s[n]];
      var f, g := FirstPerKey(s[..n]), if s[n].id in Ids(s[..n]) then [] else [s[n]];
      assert Ids(f + g) == Ids(f) + Ids(g);
      assert Ids(s) == Ids(s[..n]) + {s[n].id};
    }
  }

  lemma {:induction false} FirstPerKeyDistinct(s: seq<Row>)
    ensures DistinctKeys(FirstPerKey(s))
  {
    if s != [] {
      var n := |s| - 1;
      FirstPerKeyDistinct(s[..n]);
      FirstPerKeyIds(s[..n]);
      var f := FirstPerKey(s[..n]);
      forall i | 0 <= i < |f|
        ensures f[i].id in Ids(s[..n])
      {
        assert f[i].id in Ids(f);
      }
    }
  }

  lemma {:induction false} FirstPerKeyNewest(s: seq<Row>, r: Row)
    requires Sorted(s) && r in FirstPerKey(s)
    ensures Newest(s, r)
  {
    var n := |s| - 1;
    var p := s[..n];
    assert s == p + [s[n]];
    if r in FirstPerKey(p) {
      FirstPerKeyNewest(p, r);
      var i :| 0 <= i < n && s[i] == r;
      assert !Before(s[n], s[i]);
    } else {
      assert forall x :: x in p ==> x.id in Ids(p);
    }
  }

  /** Dedupe keeps one row per key of the batch, and that row is the newest of its key. */
  lemma DedupeKeepsNewest(batch: seq<Row>)
    ensures DistinctKeys(Dedupe(batch))
    ensures Ids(Dedupe(batch)) == Ids(batch)
    ensures forall r :: r in Dedupe(batch) ==> Newest(batch, r)
  {
    var s := StableSort(batch);
    StableSortProperties(batch);
    assert forall r :: r in s <==> r in multiset(s);
    assert forall r :: r in batch <==> r in multiset(batch);
    FirstPerKeyIds(s);
    FirstPerKeyDistinct(s);
    forall r | r in Dedupe(batch)
      ensures Newest(batch, r)
    {
      FirstPerKeyNewest(s, r);
    }
    assert Ids(s) == Ids(batch);
  }

  function Masked(s: seq<Row>, keep: seq<bool>): seq<Row>
    requires |s| == |keep|
  {
    if s == [] then []
    else
      var n := |s| - 1;
      Masked(s[..n], keep[..n]) + (if keep[n] then [s[n]] else [])
  }

  /** Keep only the newest row per key: sort, mark first occurrences, filter by the mask. */
  method DedupeLatest(tbl: seq<Row>) returns (out: seq<Row>)
    ensures out == Dedupe(tbl)
  {
    var sorted := StableSort(tbl);
    var seen: set<Option<int>> := {};
    var keep: seq<bool> := [];
    for i := 0 to |sorted|
      invariant |keep| == i
      invariant seen == Ids(sorted[..i])
      invariant Masked(sorted[..i], keep) == FirstPerKey(sorted[..i])
    {
      var v := sorted[i].id;
      assert sorted[..i + 1][..i] == sorted[..i];
      assert sorted[..i + 1] == sorted[..i] + [sorted[i]];
      ghost var before := keep;
      if v in seen {
        keep := keep + [false];
      } else {
        seen := seen + {v};
        keep := keep + [true];
      }
      assert keep[..i] == before;
    }
    assert sorted[..|sorted|] == sorted;
    out := Masked(sorted, keep);
  }

  // ---------------------------------------------------------------- upsert

  /** The rows handed to the overwrite. De-duplication needs both columns to exist. */
  function Staged(batch: seq<Row>, dedupe: bool): seq<Row> {
    if dedupe then Dedupe(batch) else batch
  }

  /** One upsert: delete the rows being replaced and append the new ones, atomically;
      a batch without any non-NULL key is only appended. */
  function Upsert(lake: seq<Row>, batch: seq<Row>, dedupe: bool): seq<Row> {
    var staged := Staged(batch, dedupe);
    if Keys(staged) != {} then Without(lake, Keys(staged)) + staged else lake + staged
  }

  /** What a batch must satisfy for one upsert to have one meaning. */
  ghost predicate Clean(w: seq<Row>, dedupe: bool) {
    Keyed(w) && if dedupe then NoTies(w) else DistinctKeys(w)
  }

  /** `after` is `before` with every key of `w` replaced by exactly its newest row in `w`
      and all other rows untouched. */
  ghost predicate MergeOf(before: seq<Row>, w: seq<Row>, after: seq<Row>) {
    forall r :: multiset(after)[r] ==
                if HasKeyIn(r, Keys(w)) then (if Newest(w, r) then 1 else 0)
                else multiset(before)[r]
  }

  lemma DistinctIsNewest(w: seq<Row>)
    requires DistinctKeys(w)
    ensures NoTies(w)
    ensures forall r :: r in w ==> Newest(w, r)
  {
    forall x, y | x in w && y in w && x.id == y.id
      ensures x == y
    {
      var i :| 0 <= i < |w| && w[i] == x;
      var j :| 0 <= j < |w| && w[j] == y;
      assert i == j;
    }
  }

  /** The staged rows: exactly the newest row of each key, once. */
  lemma StagedIsNewest(w: seq<Row>, dedupe: bool)
    requires Clean(w, dedupe)
    ensures Keyed(Staged(w, dedupe))
    ensures Keys(Staged(w, dedupe)) == Keys(w)
    ensures DistinctKeys(Staged(w, dedupe))
    ensures forall r :: r in Staged(w, dedupe) <==> Newest(w, r)
  {
    if dedupe {
      DedupeKeepsNewest(w);
      var d := Dedupe(w);
      forall r | Newest(w, r)
        ensures r in d
      {
        assert r.id in Ids(w);
        var x :| x in d && x.id == r.id;
        assert Newest(w, x);
        assert x.stamp == r.stamp;
      }
      forall k
        ensures k in Keys(d) <==> k in Keys(w)
      {
        assert k in Keys(d) <==> Some(k) in Ids(d);
        assert k in Keys(w) <==> Some(k) in Ids(w);
      }
    } else {
      DistinctIsNewest(w);
    }
  }

  /** One upsert means exactly `MergeOf`. */
  lemma UpsertMerges(lake: seq<Row>, w: seq<Row>, dedupe: bool)
    requires Clean(w, dedupe)
    ensures MergeOf(lake, w, Upsert(lake, w, dedupe))
  {
    StagedIsNewest(w, dedupe);
    var staged := Staged(w, dedupe);
    forall r
      ensures multiset(Upsert(lake, w, dedupe))[r] ==
              if HasKeyIn(r, Keys(w)) then (if Newest(w, r) then 1 else 0)
              else multiset(lake)[r]
    {
      DistinctKeysOnce(staged, r);
      WithoutCount(lake, Keys(staged), r);
      if staged != [] {
        KeyOf(staged, staged[0]);
      }
      if r in staged {
        KeyOf(staged, r);
      }
    }
  }

  /** Key multiplicities after an upsert: one row per key of the batch, others as before.
      A key that was duplicated in the lake is back to one row. */
  lemma UpsertKeyCount(lake: seq<Row>, w: seq<Row>, dedupe: bool, k: int)
    requires Keyed(w) && (dedupe || DistinctKeys(w))
    ensures KeyCount(Upsert(lake, w, dedupe), k) == if k in Keys(w) then 1 else KeyCount(lake, k)
  {
    var staged := Staged(w, dedupe);
    if dedupe {
      DedupeKeepsNewest(w);
    }
    assert k in Keys(staged) <==> Some(k) in Ids(staged);
    assert k in Keys(w) <==> Some(k) in Ids(w);
    DistinctKeysCount(staged, k);
    WithoutKeyCount(lake, Keys(staged), k);
    KeyCountAppend(Without(lake, Keys(staged)), staged, k);
    KeyCountAppend(lake, staged, k);
  }

  // ---------------------------------------------------------------- batches

  /** Consecutive batches of `n` rows (`ParquetFile.iter_batches`). */
  function Batches(w: seq<Row>, n: nat): seq<seq<Row>>
    requires n >= 1
    decreases |w|
  {
    if w == [] then []
    else if |w| <= n then [w]
    else [w[..n]] + Batches(w[n..], n)
  }

  function UpsertAll(lake: seq<Row>, batches: seq<seq<Row>>, dedupe: bool): seq<Row>
    decreases |batches|
  {
    if batches == [] then lake
    else UpsertAll(Upsert(lake, batches[0], dedupe), batches[1..], dedupe)
  }

  /** Rows are ordered by (updated_at, id), as the extract writes them. */
  ghost predicate Ordered(w: seq<Row>) {
    forall i, j :: 0 <= i < j < |w| ==> Before(w[j], w[i]) || (w[i].stamp == w[j].stamp && w[i].id == w[j].id)
  }

  lemma {:induction false} BatchesFlatten(w: seq<Row>, n: nat)
    requires n >= 1
    ensures Flatten(Batches(w, n)) == w
    ensures |Batches(w, n)| == CeilDiv(|w|, n)
    decreases |w|
  {
    var bs := Batches(w, n);
    CeilDivStep(|w|, n);
    if w == [] {
    } else if |w| <= n {
      assert bs[1..] == [];
      assert w + [] == w;
    } else {
      BatchesFlatten(w[n..], n);
      assert bs[1..] == Batches(w[n..], n);
      assert w[..n] + w[n..] == w;
    }
  }

  lemma CleanSplit(a: seq<Row>, b: seq<Row>, dedupe: bool)
    requires Clean(a + b, dedupe)
    ensures Clean(a, dedupe) && Clean(b, dedupe)
  {
    assert forall r :: r in a + b <==> r in a || r in b;
    if !dedupe {
      assert forall i :: 0 <= i < |a| ==> (a + b)[i] == a[i];
      assert forall i :: 0 <= i < |b| ==> (a + b)[|a| + i] == b[i];
    }
  }

  /** Nothing in the later part is older than anything in the earlier part. */
  lemma NothingOlderLater(a: seq<Row>, b: seq<Row>, x: Row, y: Row)
    requires Ordered(a + b) && x in a && y in b
    ensures !Below(y.stamp, x.stamp)
  {
    var i :| 0 <= i < |a| && a[i] == x;
    var j :| 0 <= j < |b| && b[j] == y;
    assert (a + b)[i] == x && (a + b)[|a| + j] == y;
  }

  /** Merging `a` and then `b` is merging `a + b`, when the rows come in order. */
  lemma MergeInSequence(l0: seq<Row>, a: seq<Row>, l1: seq<Row>, b: seq<Row>, l2: seq<Row>)
    requires NoTies(a + b) && Ordered(a + b)
    requires MergeOf(l0, a, l1) && MergeOf(l1, b, l2)
    ensures MergeOf(l0, a + b, l2)
  {
    KeysAppend(a, b);
    forall r
      ensures multiset(l2)[r] ==
              if HasKeyIn(r, Keys(a + b)) then (if Newest(a + b, r) then 1 else 0)
              else multiset(l0)[r]
    {
      if HasKeyIn(r, Keys(b)) {
        NewestInSuffix(a, b, r);
      } else if HasKeyIn(r, Keys(a)) {
        NewestInPrefix(a, b, r);
      }
    }
  }

  /** For a key that the later part does not repeat, the earlier part decides. */
  lemma NewestInPrefix(a: seq<Row>, b: seq<Row>, r: Row)
    requires r.id.Some? && r.id.value !in Keys(b)
    ensures Newest(a + b, r) <==> Newest(a, r)
  {
    assert forall x :: x in a + b <==> x in a || x in b;
    assert forall x :: x in b && x.id.Some? ==> x.id.value in Keys(b);
  }

  /** For a key that the later part repeats, the newest row overall is its newest there. */
  lemma NewestInSuffix(a: seq<Row>, b: seq<Row>, r: Row)
    requires NoTies(a + b) && Ordered(a + b)
    requires HasKeyIn(r, Keys(b))
    ensures Newest(a + b, r) <==> Newest(b, r)
  {
    var w := a + b;
    assert forall x :: x in w <==> x in a || x in b;
    var y :| y in b && y.id == r.id;
    if Newest(w, r) && r in a {
      NothingOlderLater(a, b, r, y);
      assert r == y;
    }
    if Newest(b, r) {
      forall x | x in a && x.id == r.id
        ensures !Below(r.stamp, x.stamp)
      {
        NothingOlderLater(a, b, x, r);
      }
    }
  }

  /** Any way of cutting the ordered window into batches gives the one-shot merge. */
  lemma {:induction false} AnyBatchingMerges(lake: seq<Row>, batches: seq<seq<Row>>, dedupe: bool)
    requires Clean(Flatten(batches), dedupe) && Ordered(Flatten(batches))
    ensures MergeOf(lake, Flatten(batches), UpsertAll(lake, batches, dedupe))
    decreases |batches|
  {
    if batches != [] {
      var a, rest := batches[0], batches[1..];
      var b := Flatten(rest);
      assert Flatten(batches) == a + b;
      CleanSplit(a, b, dedupe);
      assert forall i :: 0 <= i < |b| ==> (a + b)[|a| + i] == b[i];
      var l1 := Upsert(lake, a, dedupe);
      UpsertMerges(lake, a, dedupe);
      AnyBatchingMerges(l1, rest, dedupe);
      if !dedupe {
        DistinctIsNewest(a + b);
      }
      MergeInSequence(lake, a, l1, b, UpsertAll(l1, rest, dedupe));
    }
  }

  lemma SameMerge(before: seq<Row>, w: seq<Row>, x: seq<Row>, y: seq<Row>)
    requires MergeOf(before, w, x) && MergeOf(before, w, y)
    ensures multiset(x) == multiset(y)
  {
    assert forall r :: multiset(x)[r] == multiset(y)[r];
  }

  /** MAIN: for every batch size the batched merge leaves the same lake as one upsert. */
  lemma BatchedEqualsOneShot(lake: seq<Row>, w: seq<Row>, n: nat, dedupe: bool)
    requires n >= 1
    requires Clean(w, dedupe) && Ordered(w)
    ensures MergeOf(lake, w, UpsertAll(lake, Batches(w, n), dedupe))
    ensures multiset(UpsertAll(lake, Batches(w, n), dedupe)) == multiset(Upsert(lake, w, dedupe))
  {
    BatchesFlatten(w, n);
    AnyBatchingMerges(lake, Batches(w, n), dedupe);
    UpsertMerges(lake, w, dedupe);
    SameMerge(lake, w, UpsertAll(lake, Batches(w, n), dedupe), Upsert(lake, w, dedupe));
  }

  /** MAIN: re-running the window after a crash that left any prefix of its batches merged
      (none, some or all of them) ends in the lake an uninterrupted run gives. */
  lemma ReplayAfterCrash(lake: seq<Row>, w: seq<Row>, n: nat, done: nat, m: nat, dedupe: bool)
    requires n >= 1 && m >= 1 && done <= |Batches(w, n)|
    requires Clean(w, dedupe) && Ordered(w)
    ensures var crashed := UpsertAll(lake, Batches(w, n)[..done], dedupe);
            multiset(UpsertAll(crashed, Batches(w, m), dedupe)) == multiset(Upsert(lake, w, dedupe))
  {
    var prefix, rest := Batches(w, n)[..done], Batches(w, n)[done..];
    assert Batches(w, n) == prefix + rest;
    BatchesFlatten(w, n);
    FlattenAppend(prefix, rest);
    var a := Flatten(prefix);
    CleanSplit(a, Flatten(rest), dedupe);
    assert forall i :: 0 <= i < |a| ==> w[i] == a[i];
    AnyBatchingMerges(lake, prefix, dedupe);
    var crashed := UpsertAll(lake, prefix, dedupe);
    BatchedEqualsOneShot(crashed, w, m, dedupe);
    KeysAppend(a, Flatten(rest));
    UpsertMerges(lake, w, dedupe);
    SameMerge(lake, w, UpsertAll(crashed, Batches(w, m), dedupe), Upsert(lake, w, dedupe));
  }

  /** On a window that names each key once, as one COPY does, de-duplication changes nothing: it
      does not matter then that it sorts by `updated_at` and not by the watermark column. */
  lemma DedupeIrrelevant(lake: seq<Row>, w: seq<Row>)
    requires Keyed(w) && DistinctKeys(w)
    ensures multiset(Upsert(lake, w, true)) == multiset(Upsert(lake, w, false))
  {
    DistinctIsNewest(w);
    UpsertMerges(lake, w, true);
    UpsertMerges(lake, w, false);
    SameMerge(lake, w, Upsert(lake, w, true), Upsert(lake, w, false));
  }

  /** Without the ordering the last batch wins even when it is older: this is why two runs
      on one table must not overlap (the overwrite never looks at the lake's `updated_at`). */
  lemma StaleWindowRegresses(lake: seq<Row>, recent: Row, stale: Row)
    requires recent.id.Some? && recent.id == stale.id && Below(stale.stamp, recent.stamp)
    ensures var l := Upsert(Upsert(lake, [recent], true), [stale], true);
            stale in l && recent !in l
  {
    var l1 := Upsert(lake, [recent], true);
    UpsertMerges(l1, [stale], true);
    KeyOf([stale], stale);
    assert Newest([stale], stale);
    assert multiset(Upsert(l1, [stale], true))[stale] == 1;
    assert multiset(Upsert(l1, [stale], true))[recent] == 0;
  }

  // ---------------------------------------------------------------- the lake table

  /** An Iceberg table: its live rows in file order. Each method is one atomic snapshot. */
  class LakeTable {
    var rows: seq<Row>

    constructor ()
      ensures rows == []
    {
      rows := [];
    }

    /** `overwrite(df, In(pk, keys))`. */
    method Overwrite(staged: seq<Row>, keys: seq<int>)
      modifies this
      ensures rows == Without(old(rows), set k | k in keys) + staged
    {
      rows := Without(rows, set k | k in keys) + staged;
    }

    method Append(staged: seq<Row>)
      modifies this
      ensures rows == old(rows) + staged
    {
      rows := rows + staged;
    }

    /** `delete(In(pk, keys))`. */
    method Delete(keys: seq<int>)
      modifies this
      ensures rows == Without(old(rows), set k | k in keys)
    {
      rows := Without(rows, set k | k in keys);
    }
  }

  /** The list `[k for k in column if k is not None]`. */
  method KeyList(staged: seq<Row>) returns (keys: seq<int>)
    ensures (set k | k in keys) == Keys(staged)
  {
    keys := [];
    for i := 0 to |staged|
      invariant (set k | k in keys) == Keys(staged[..i])
    {
      assert staged[..i + 1] == staged[..i] + [staged[i]];
      KeysAppend(staged[..i], [staged[i]]);
      if staged[i].id.Some? {
        keys := keys + [staged[i].id.value];
      }
    }
    assert staged[..|staged|] == staged;
  }

  /** `merge_arrow_table`: one staged table, one upsert. */
  method MergeArrowTable(table: LakeTable, batch: seq<Row>, dedupe: bool) returns (rowsWritten: nat)
    modifies table
    ensures table.rows == Upsert(old(table.rows), batch, dedupe)
    ensures rowsWritten == if dedupe then |Ids(batch)| else |batch|
  {
    var staged := batch;
    if dedupe {
      staged := DedupeLatest(staged);
    }
    var keys := KeyList(staged);
    if keys != [] {
      assert keys[0] in Keys(staged);
      table.Overwrite(staged, keys);
    } else {
      assert Keys(staged) == {};
      if |staged| > 0 {
        table.Append(staged);
      } else {
        assert table.rows == table.rows + staged;
      }
    }
    StagedSize(batch, dedupe);
    rowsWritten := |staged|;
  }

  /** Distinct keys: as many keys as rows. */
  lemma {:induction false} DistinctIds(s: seq<Row>)
    requires DistinctKeys(s)
    ensures |Ids(s)| == |s|
  {
    if s != [] {
      var n := |s| - 1;
      DistinctIds(s[..n]);
      assert s == s[..n] + [s[n]];
      assert Ids(s) == Ids(s[..n]) + {s[n].id};
      assert s[n].id !in Ids(s[..n]);
    }
  }

  /** MAIN: an upsert writes one row for each key of the batch (NULL counted as one). */
  lemma StagedSize(batch: seq<Row>, dedupe: bool)
    ensures |Staged(batch, dedupe)| == if dedupe then |Ids(batch)| else |batch|
  {
    DedupeKeepsNewest(batch);
    DistinctIds(Dedupe(batch));
  }

  /** MAIN: on a window that names each key once the total is the number of its rows. */
  lemma {:induction false} StagedTotalIs(batches: seq<seq<Row>>, dedupe: bool)
    requires !dedupe || DistinctKeys(Flatten(batches))
    ensures StagedTotal(batches, dedupe) == |Flatten(batches)|
  {
    if batches != [] {
      var a, b := batches[0], Flatten(batches[1..]);
      assert Flatten(batches) == a + b;
      assert forall i :: 0 <= i < |a| ==> (a + b)[i] == a[i];
      assert forall i :: 0 <= i < |b| ==> (a + b)[|a| + i] == b[i];
      StagedTotalIs(batches[1..], dedupe);
      StagedSize(a, dedupe);
      if dedupe {
        DistinctIds(a);
      }
    }
  }

  /** The rows the upserts of these batches write. */
  function StagedTotal(batches: seq<seq<Row>>, dedupe: bool): nat {
    if batches == [] then 0 else |Staged(batches[0], dedupe)| + StagedTotal(batches[1..], dedupe)
  }

  /** `merge_parquet_batched`: every batch is its own atomic upsert. */
  method MergeParquetBatched(table: LakeTable, file: seq<Row>, batchRows: nat, dedupe: bool)
    returns (total: nat, batches: nat)
    requires batchRows >= 1
    modifies table
    ensures table.rows == UpsertAll(old(table.rows), Batches(file, batchRows), dedupe)
    ensures batches == CeilDiv(|file|, batchRows)
    ensures Clean(file, dedupe) && Ordered(file) ==> MergeOf(old(table.rows), file, table.rows)
    ensures total == StagedTotal(Batches(file, batchRows), dedupe)
    ensures !dedupe || DistinctKeys(file) ==> total == |file|
  {
    total, batches := 0, 0;
    ghost var before := table.rows;
    var rest := file;
    while rest != []
      invariant UpsertAll(before, Batches(file, batchRows), dedupe) ==
                UpsertAll(table.rows, Batches(rest, batchRows), dedupe)
      invariant batches + |Batches(rest, batchRows)| == |Batches(file, batchRows)|
      invariant total + StagedTotal(Batches(rest, batchRows), dedupe) == StagedTotal(Batches(file, batchRows), dedupe)
      decreases |rest|
    {
      var batch := if |rest| <= batchRows then rest else rest[..batchRows];
      ghost var bs := Batches(rest, batchRows);
      rest := if |rest| <= batchRows then [] else rest[batchRows..];
      assert bs[0] == batch && bs[1..] == Batches(rest, batchRows);
      StagedSize(batch, dedupe);
      var n := MergeArrowTable(table, batch, dedupe);
      total := total + n;
      batches := batches + 1;
    }
    BatchesFlatten(file, batchRows);
    if !dedupe || DistinctKeys(file) {
      StagedTotalIs(Batches(file, batchRows), dedupe);
    }
    if Clean(file, dedupe) && Ordered(file) {
      BatchedEqualsOneShot(before, file, batchRows, dedupe);
    }
  }
}
