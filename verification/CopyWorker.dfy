/** Streaming one COPY into parquet parts. */
module CopyWorker {
  import opened Prelude
  import opened Digits
  import opened Rows
  import opened Chunker

  // ---------------------------------------------------------------- rows of a chunk

  /** The rows a chunk's COPY selects from a snapshot. */
  function Matching(snapshot: seq<Row>, c: Chunk): seq<Row> {
    if snapshot == [] then []
    else (if Satisfies(snapshot[0], c) then [snapshot[0]] else []) + Matching(snapshot[1..], c)
  }

  lemma {:induction false} MatchingCount(snapshot: seq<Row>, c: Chunk, r: Row)
    ensures multiset(Matching(snapshot, c))[r] == if Satisfies(r, c) then multiset(snapshot)[r] else 0
  {
    if snapshot != [] {
      MatchingCount(snapshot[1..], c, r);
      assert snapshot == [snapshot[0]] + snapshot[1..];
    }
  }

  // ---------------------------------------------------------------- parts

  /** `{prefix}/chunk={id:06d}-part{idx:04d}.parquet` */
  function PartKey(prefix: string, chunkId: nat, part: nat): string {
    prefix + "/chunk" + "=" + (ZeroFill(chunkId, 6) + "-" + PartName(part))
  }

  /** Where a bootstrap run puts the parts of a table. */
  function BootstrapPrefix(run: string, fqn: string): string {
    "bootstrap/" + fqn + "/run_id=" + run
  }

  function PartName(part: nat): string {
    "part" + ZeroFill(part, 4) + ".parquet"
  }

  lemma Sandwich(a: string, x: string, y: string, b: string)
    requires a + x + b == a + y + b
    ensures x == y
  {
    assert |x| == |y|;
    assert (a + x + b)[|a|..|a| + |x|] == x;
    assert (a + y + b)[|a|..|a| + |y|] == y;
  }

  /** A number and a part name hold no '=', and a part name no '-'. */
  lemma SeparatorsAbsent(c: nat, i: nat)
    ensures '=' !in ZeroFill(c, 6) + "-" + PartName(i)
    ensures '-' !in PartName(i)
  {
    ZeroFillRoundTrip(c, 6);
    ZeroFillRoundTrip(i, 4);
    DigitsOnly(ZeroFill(c, 6));
    DigitsOnly(ZeroFill(i, 4));
    hide ZeroFill, AllDigits;
  }

  lemma DigitsOnly(s: string)
    requires AllDigits(s)
    ensures '=' !in s && '-' !in s
  {
    assert forall k :: 0 <= k < |s| ==> IsDigit(s[k]);
  }

  lemma SameTail(c: nat, i: nat, d: nat, j: nat)
    requires ZeroFill(c, 6) + "-" + PartName(i) == ZeroFill(d, 6) + "-" + PartName(j)
    ensures c == d && i == j
  {
    SeparatorsAbsent(c, i);
    SeparatorsAbsent(d, j);
    SplitAtLast(ZeroFill(c, 6), PartName(i), ZeroFill(d, 6), PartName(j), '-');
    SamePartName(i, j);
    ZeroFillRoundTrip(c, 6);
    ZeroFillRoundTrip(d, 6);
    ZeroFillRoundTrip(i, 4);
    ZeroFillRoundTrip(j, 4);
  }

  /** MAIN: different parts never overwrite each other in the bucket. */
  lemma PartKeysDiffer(p: string, c: nat, i: nat, q: string, d: nat, j: nat)
    requires PartKey(p, c, i) == PartKey(q, d, j)
    ensures p == q && c == d && i == j
  {
    SeparatorsAbsent(c, i);
    SeparatorsAbsent(d, j);
    SplitAtLast(p + "/chunk", ZeroFill(c, 6) + "-" + PartName(i), q + "/chunk", ZeroFill(d, 6) + "-" + PartName(j), '=');
    SameTail(c, i, d, j);
    assert (p + "/chunk")[..|p|] == p && (q + "/chunk")[..|q|] == q;
  }

  /** MAIN: the key is `{prefix}/chunk=NNNNNN-partNNNN.parquet`, numbers zero-filled. */
  lemma PartKeyForm(prefix: string, chunkId: nat, part: nat) returns (c: string, i: string)
    ensures PartKey(prefix, chunkId, part) == prefix + "/chunk=" + c + "-part" + i + ".parquet"
    ensures AllDigits(c) && Number(c) == chunkId && |c| >= 6 && (chunkId < 1_000_000 ==> |c| == 6)
    ensures AllDigits(i) && Number(i) == part && |i| >= 4 && (part < 10_000 ==> |i| == 4)
  {
    c, i := ZeroFill(chunkId, 6), ZeroFill(part, 4);
    ZeroFillForm(chunkId, 6);
    ZeroFillForm(part, 4);
    assert Pow10(4) == 10 * Pow10(3) && Pow10(3) == 1000 && Pow10(6) == 100 * Pow10(4);
    hide ZeroFill, AllDigits, Number;
    assert "/chunk" + "=" == "/chunk=";
    assert "-" + ("part" + i + ".parquet") == "-part" + i + ".parquet";
    assert prefix + "/chunk" + "=" + (c + "-" + PartName(part)) == prefix + ("/chunk" + "=") + (c + ("-" + PartName(part)));
  }

  /** MAIN: runs keep apart. Run ids without a `=` (they are UUIDs) and table names are recovered from
      the prefix; for one table or one run any names are. */
  lemma PrefixesDiffer(run: string, fqn: string, run2: string, fqn2: string)
    requires BootstrapPrefix(run, fqn) == BootstrapPrefix(run2, fqn2)
    requires ('=' !in run && '=' !in run2) || run == run2 || fqn == fqn2
    ensures run == run2 && fqn == fqn2
  {
    var a, b := "bootstrap/" + fqn + "/run_id", "bootstrap/" + fqn2 + "/run_id";
    assert BootstrapPrefix(run, fqn) == a + ['='] + run && BootstrapPrefix(run2, fqn2) == b + ['='] + run2;
    if '=' !in run && '=' !in run2 {
      SplitAtLast(a, run, b, run2, '=');
      Sandwich("bootstrap/", fqn, fqn2, "/run_id");
    }
    if run == run2 {
      assert BootstrapPrefix(run, fqn) == "bootstrap/" + fqn + ("/run_id=" + run);
      assert BootstrapPrefix(run, fqn2) == "bootstrap/" + fqn2 + ("/run_id=" + run);
      Sandwich("bootstrap/", fqn, fqn2, "/run_id=" + run);
    }
    if fqn == fqn2 {
      assert BootstrapPrefix(run, fqn)[|a| + 1..] == run;
      assert BootstrapPrefix(run2, fqn)[|a| + 1..] == run2;
    }
  }

  /** Without that, two names can share a prefix. */
  lemma PrefixesCanMeet()
    ensures BootstrapPrefix("b/run_id=c", "a") == BootstrapPrefix("c", "a/run_id=b")
  {}

  lemma SamePartName(i: nat, j: nat)
    requires PartName(i) == PartName(j)
    ensures ZeroFill(i, 4) == ZeroFill(j, 4)
  {
    Sandwich("part", ZeroFill(i, 4), ZeroFill(j, 4), ".parquet");
  }

  /** How many rows a full part holds: whole row groups up to at least the part limit. */
  function PartRows(rowGroupRows: int, partRowsLimit: int): int
    requires rowGroupRows >= 1
  {
    CeilDiv(partRowsLimit, rowGroupRows) * rowGroupRows
  }

  /** The cut of a stream into parts of `k` rows, the last one possibly shorter, none empty. */
  ghost predicate CutInto(parts: seq<seq<Row>>, stream: seq<Row>, k: int) {
    && Flatten(parts) == stream
    && (forall i :: 0 <= i < |parts| ==> parts[i] != [] && (i < |parts| - 1 ==> |parts[i]| == k) && |parts[i]| <= k)
  }

  ghost predicate WholeGroups(rows: int, groups: int, group: int) {
    rows == groups * group
  }

  /** What has been uploaded so far: full parts under their numbered keys. */
  ghost predicate Uploaded(parts: seq<seq<Row>>, uris: seq<string>, k: int, prefix: string, chunkId: nat) {
    && (forall j :: 0 <= j < |parts| ==> parts[j] != [] && |parts[j]| == k)
    && |uris| == |parts| && forall j :: 0 <= j < |uris| ==> uris[j] == PartKey(prefix, chunkId, j)
  }

  /** The bucket: an upload replaces the object under its key. */
  class Bucket {
    var objects: map<string, seq<Row>>

    constructor ()
      ensures objects == map[]
    {
      objects := map[];
    }

    method Upload(key: string, rows: seq<Row>)
      modifies this
      ensures objects == old(objects)[key := rows]
    {
      objects := objects[key := rows];
    }
  }

  /** The bucket after the parts of a chunk went up one by one. */
  function Stored(objects: map<string, seq<Row>>, prefix: string, chunkId: nat, parts: seq<seq<Row>>): map<string, seq<Row>> {
    if parts == [] then objects
    else
      var n := |parts| - 1;
      Stored(objects, prefix, chunkId, parts[..n])[PartKey(prefix, chunkId, n) := parts[n]]
  }

  lemma StoredSnoc(objects: map<string, seq<Row>>, prefix: string, chunkId: nat, parts: seq<seq<Row>>, part: seq<Row>)
    ensures Stored(objects, prefix, chunkId, parts + [part]) ==
            Stored(objects, prefix, chunkId, parts)[PartKey(prefix, chunkId, |parts|) := part]
  {
    hide PartKey;
    assert (parts + [part])[..|parts|] == parts;
  }

  /** MAIN: after the uploads of a chunk each of its keys holds the part of its number, and every
      key of another prefix, another chunk or a higher number what it held before: a second
      attempt replaces the first one's objects, as far as it has parts. */
  lemma {:induction false} StoredParts(objects: map<string, seq<Row>>, prefix: string, chunkId: nat, parts: seq<seq<Row>>,
                                       q: string, d: nat, j: nat)
    ensures var after := Stored(objects, prefix, chunkId, parts);
            var key := PartKey(q, d, j);
            if (q, d) == (prefix, chunkId) && j < |parts| then key in after && after[key] == parts[j]
            else (key in after <==> key in objects) && (key in objects ==> after[key] == objects[key])
    decreases |parts|
  {
    hide PartKey;
    if parts != [] {
      var n := |parts| - 1;
      StoredParts(objects, prefix, chunkId, parts[..n], q, d, j);
      if PartKey(q, d, j) == PartKey(prefix, chunkId, n) {
        PartKeysDiffer(q, d, j, prefix, chunkId, n);
      }
    }
  }

  /** The copy loop of `extract_chunk_to_s3`; the two settings are raw. The upload of part
      `failAt`, if it comes to that, raises. */
  method ExtractChunkToS3(bucket: Bucket, stream: seq<Row>, prefix: string, chunkId: nat, groupSetting: int, chunkSetting: int,
                          failAt: Option<nat>)
    returns (ok: bool, parts: seq<seq<Row>>, uris: seq<string>, rowsWritten: nat)
    modifies bucket
    ensures bucket.objects == Stored(old(bucket.objects), prefix, chunkId, parts)
    ensures |uris| == |parts| && forall i :: 0 <= i < |uris| ==> uris[i] == PartKey(prefix, chunkId, i)
    ensures var group := Max(1, groupSetting);
            var limit := Max(group, chunkSetting);
            && limit <= PartRows(group, limit) < limit + group
            && (ok ==> CutInto(parts, stream, PartRows(group, limit)))
            && (!ok ==> forall i :: 0 <= i < |parts| ==> |parts[i]| == PartRows(group, limit))
    ensures ok ==> rowsWritten == |stream|
    ensures !ok ==> failAt == Some(|parts|) && Flatten(parts) <= stream
    ensures ok <==> NotPast(failAt, CeilDiv(|stream|, PartRows(Max(1, groupSetting), Max(Max(1, groupSetting), chunkSetting))))
  {
    var group := Max(1, groupSetting);
    var limit := Max(group, chunkSetting);
    ghost var k := PartRows(group, limit);
    CeilDivBounds(limit, group);
    hide CeilDiv, PartRows, PartKey, Uploaded, CutInto, Flatten, Stored, NotPast;
    var part;
    ok, parts, uris, part, rowsWritten := CopyRows(bucket, stream, prefix, chunkId, group, limit, failAt);
    if ok {
      LastCut(parts, uris, part, stream, k, prefix, chunkId);
      LastKeys(parts, uris, k, prefix, chunkId);
      NextPart(failAt, |parts|);
      if |part| > 0 {
        ok, parts, uris := FinishPart(bucket, part, parts, uris, prefix, chunkId, failAt, old(bucket.objects));
      }
    }
    if ok {
      CutCount(parts, stream, k);
    } else {
      FailedUpload(parts, uris, part, stream, k, prefix, chunkId);
      CutShort(parts, uris, part, stream, k, prefix, chunkId);
      FailsAt(failAt, |parts|, CeilDiv(|stream|, k));
    }
  }

  lemma {:induction false} FlattenLength(parts: seq<seq<Row>>, k: int)
    requires forall i :: 0 <= i < |parts| ==> |parts[i]| == k
    ensures |Flatten(parts)| == |parts| * k
  {
    if parts != [] {
      FlattenLength(parts[1..], k);
      assert |parts| * k == (|parts| - 1) * k + k;
    }
  }

  /** How many parts a stream is cut into. */
  lemma CutCount(parts: seq<seq<Row>>, stream: seq<Row>, k: int)
    requires k >= 1 && CutInto(parts, stream, k)
    ensures |parts| == CeilDiv(|stream|, k)
  {
    CeilDivBounds(|stream|, k);
    if parts != [] {
      var n := |parts| - 1;
      assert parts == parts[..n] + [parts[n]];
      FlattenSnoc(parts[..n], parts[n]);
      FlattenLength(parts[..n], k);
      hide Flatten, CeilDiv;
      CountIs(n, |parts[n]|, CeilDiv(|stream|, k), k);
    }
  }

  lemma CountIs(n: int, rest: int, c: int, k: int)
    requires k >= 1 && 0 < rest <= k && (c - 1) * k < n * k + rest <= c * k
    ensures c == n + 1
  {
    assert (n + 1) * k == n * k + k;
    MulCancel(n, c, k);
    MulCancel(c - 1, n + 1, k);
  }

  /** A part that is still to come makes the count larger. */
  lemma CutShort(parts: seq<seq<Row>>, uris: seq<string>, part: seq<Row>, stream: seq<Row>, k: int, prefix: string, chunkId: nat)
    requires Uploaded(parts, uris, k, prefix, chunkId) && k >= 1
    requires Flatten(parts) + part <= stream && part != []
    ensures |parts| < CeilDiv(|stream|, k)
  {
    FlattenLength(parts, k);
    CeilDivBounds(|stream|, k);
    hide Flatten, CeilDiv, Uploaded;
    MulCancel(|parts|, CeilDiv(|stream|, k), k);
  }

  lemma FailsAt(failAt: Option<nat>, n: nat, m: int)
    requires failAt == Some(n) && n < m
    ensures !NotPast(failAt, m)
  {}

  /** The copy loop: row groups fill the open part, a part that reaches the limit goes up. */
  method CopyRows(bucket: Bucket, stream: seq<Row>, prefix: string, chunkId: nat, group: int, limit: int, failAt: Option<nat>)
    returns (ok: bool, parts: seq<seq<Row>>, uris: seq<string>, part: seq<Row>, rowsWritten: nat)
    requires 1 <= group <= limit
    modifies bucket
    ensures bucket.objects == Stored(old(bucket.objects), prefix, chunkId, parts)
    ensures Uploaded(parts, uris, PartRows(group, limit), prefix, chunkId)
    ensures Flatten(parts) + part <= stream && |part| <= PartRows(group, limit)
    ensures ok ==> Flatten(parts) + part == stream && rowsWritten == |stream| && NotPast(failAt, |parts|)
    ensures !ok ==> failAt == Some(|parts|) && part != []
  {
    ghost var k := PartRows(group, limit);
    ok, parts, uris, rowsWritten := true, [], [], 0;
    part := [];
    var batch: seq<Row> := [];
    ghost var groups := 0;
    NothingUploaded(bucket.objects, k, prefix, chunkId, group);
    CopyNothing(stream);
    assert NotPast(failAt, 0);
    hide NotPast, CeilDiv, PartRows, PartKey, WholeGroups, Uploaded, Copied, Flatten, Stored;
    for i := 0 to |stream|
      invariant ok && Copied(parts, part, batch, stream, i)
      invariant |batch| < group
      invariant WholeGroups(|part|, groups, group) && |part| < limit
      invariant rowsWritten + |batch| == i
      invariant Uploaded(parts, uris, k, prefix, chunkId)
      invariant bucket.objects == Stored(old(bucket.objects), prefix, chunkId, parts)
      invariant NotPast(failAt, |parts|)
    {
      CopyRow(parts, part, batch, stream, i);
      batch := batch + [stream[i]];
      if |batch| >= group {
        NextGroup(|part|, groups, group, limit);
        FlushBatch(parts, part, batch, stream, i + 1);
        part := part + batch;
        rowsWritten := rowsWritten + |batch|;
        batch := [];
        ok, parts, uris, part, groups :=
          RollPart(bucket, parts, uris, part, stream, i + 1, prefix, chunkId, group, limit, groups + 1, failAt, old(bucket.objects));
        if !ok {
          return;
        }
      }
    }
    NextGroup(|part|, groups, group, limit);
    FlushBatch(parts, part, batch, stream, |stream|);
    if |batch| > 0 {
      part := part + batch;
      rowsWritten := rowsWritten + |batch|;
    } else {
      assert part + batch == part;
    }
    CopiedPrefix(parts, part, stream, |stream|);
  }

  lemma NextPart(failAt: Option<nat>, n: nat)
    requires NotPast(failAt, n)
    ensures failAt != Some(n) ==> NotPast(failAt, n + 1)
  {
    assert failAt.Some? && failAt.value == n ==> failAt == Some(n);
  }

  /** The first `i` rows are in the parts, the open part and the open row group, in order. */
  ghost predicate Copied(parts: seq<seq<Row>>, part: seq<Row>, batch: seq<Row>, stream: seq<Row>, i: nat) {
    i <= |stream| && Flatten(parts) + (part + batch) == stream[..i]
  }

  lemma CopyNothing(stream: seq<Row>)
    ensures Copied([], [], [], stream, 0)
  {}

  lemma CopyRow(parts: seq<seq<Row>>, part: seq<Row>, batch: seq<Row>, stream: seq<Row>, i: nat)
    requires i < |stream| && Copied(parts, part, batch, stream, i)
    ensures Copied(parts, part, batch + [stream[i]], stream, i + 1)
  {
    assert Flatten(parts) + (part + (batch + [stream[i]])) == (Flatten(parts) + (part + batch)) + [stream[i]];
  }

  lemma FlushBatch(parts: seq<seq<Row>>, part: seq<Row>, batch: seq<Row>, stream: seq<Row>, i: nat)
    requires Copied(parts, part, batch, stream, i)
    ensures Copied(parts, part + batch, [], stream, i)
  {
    assert (part + batch) + [] == part + batch;
  }

  lemma RollOver(parts: seq<seq<Row>>, part: seq<Row>, stream: seq<Row>, i: nat)
    requires Copied(parts, part, [], stream, i)
    ensures Copied(parts + [part], [], [], stream, i)
    ensures Flatten(parts) + part <= stream
  {
    FlattenSnoc(parts, part);
    CopiedPrefix(parts, part, stream, i);
    assert Flatten(parts + [part]) + ([] + []) == Flatten(parts) + part;
  }

  lemma CopiedPrefix(parts: seq<seq<Row>>, part: seq<Row>, stream: seq<Row>, i: nat)
    requires Copied(parts, part, [], stream, i)
    ensures Flatten(parts) + part <= stream && (i == |stream| ==> Flatten(parts) + part == stream)
  {
    assert part + [] == part && stream[..|stream|] == stream;
  }

  /** A part that has reached the limit goes up and a new one is opened. */
  method RollPart(bucket: Bucket, parts: seq<seq<Row>>, uris: seq<string>, part: seq<Row>, ghost stream: seq<Row>, ghost i: nat,
                  prefix: string, chunkId: nat, ghost group: int, limit: int, ghost groups: int, failAt: Option<nat>,
                  ghost before: map<string, seq<Row>>)
    returns (ok: bool, parts': seq<seq<Row>>, uris': seq<string>, part': seq<Row>, ghost groups': int)
    requires 1 <= group <= limit
    requires Copied(parts, part, [], stream, i) && Uploaded(parts, uris, PartRows(group, limit), prefix, chunkId)
    requires WholeGroups(|part|, groups, group) && (|part| >= limit ==> |part| == PartRows(group, limit))
    requires bucket.objects == Stored(before, prefix, chunkId, parts) && NotPast(failAt, |parts|)
    modifies bucket
    ensures bucket.objects == Stored(before, prefix, chunkId, parts')
    ensures Uploaded(parts', uris', PartRows(group, limit), prefix, chunkId)
    ensures ok ==> Copied(parts', part', [], stream, i) && |part'| < limit && WholeGroups(|part'|, groups', group) && NotPast(failAt, |parts'|)
    ensures !ok ==> failAt == Some(|parts'|) && part' != [] && Flatten(parts') + part' <= stream && |part'| <= PartRows(group, limit)
  {
    ghost var k := PartRows(group, limit);
    NothingUploaded(before, k, prefix, chunkId, group);
    hide NotPast, CeilDiv, PartRows, PartKey, WholeGroups, Uploaded, Copied, Flatten, Stored;
    ok, parts', uris', part', groups' := true, parts, uris, part, groups;
    if |part| >= limit {
      UploadMore(parts, uris, part, k, prefix, chunkId);
      RollOver(parts, part, stream, i);
      NextPart(failAt, |parts|);
      ok, parts', uris' := FinishPart(bucket, part, parts, uris, prefix, chunkId, failAt, before);
      if ok {
        part', groups' := [], 0;
      }
    }
  }

  predicate NotPast(failAt: Option<nat>, n: int) {
    failAt.Some? ==> n <= failAt.value
  }

  /** `_finish_part`: upload under the next number. */
  method FinishPart(bucket: Bucket, part: seq<Row>, parts: seq<seq<Row>>, uris: seq<string>, prefix: string, chunkId: nat,
                    failAt: Option<nat>, ghost before: map<string, seq<Row>>)
    returns (ok: bool, parts': seq<seq<Row>>, uris': seq<string>)
    requires bucket.objects == Stored(before, prefix, chunkId, parts)
    modifies bucket
    ensures ok == (failAt != Some(|parts|))
    ensures parts' == (if ok then parts + [part] else parts)
    ensures uris' == (if ok then uris + [PartKey(prefix, chunkId, |parts|)] else uris)
    ensures bucket.objects == Stored(before, prefix, chunkId, parts')
  {
    hide PartKey, Stored;
    ok, parts', uris' := failAt != Some(|parts|), parts, uris;
    if ok {
      bucket.Upload(PartKey(prefix, chunkId, |parts|), part);
      StoredSnoc(before, prefix, chunkId, parts, part);
      uris' := uris + [PartKey(prefix, chunkId, |parts|)];
      parts' := parts + [part];
    }
  }

  lemma NothingUploaded(objects: map<string, seq<Row>>, k: int, prefix: string, chunkId: nat, group: int)
    ensures Uploaded([], [], k, prefix, chunkId) && Flatten<Row>([]) == []
    ensures Stored(objects, prefix, chunkId, []) == objects
    ensures WholeGroups(0, 0, group)
  {}

  lemma UploadMore(parts: seq<seq<Row>>, uris: seq<string>, part: seq<Row>, k: int, prefix: string, chunkId: nat)
    requires Uploaded(parts, uris, k, prefix, chunkId) && part != [] && |part| == k
    ensures Uploaded(parts + [part], uris + [PartKey(prefix, chunkId, |parts|)], k, prefix, chunkId)
    ensures Flatten(parts + [part]) == Flatten(parts) + part
  {
    hide PartKey, Flatten;
    FlattenSnoc(parts, part);
    var p, u := parts + [part], uris + [PartKey(prefix, chunkId, |parts|)];
    forall j | 0 <= j < |p|
      ensures p[j] != [] && |p[j]| == k && u[j] == PartKey(prefix, chunkId, j)
    {
      if j < |parts| {
        assert p[j] == parts[j] && u[j] == uris[j];
      }
    }
  }

  lemma FailedUpload(parts: seq<seq<Row>>, uris: seq<string>, part: seq<Row>, stream: seq<Row>, k: int, prefix: string, chunkId: nat)
    requires Uploaded(parts, uris, k, prefix, chunkId)
    requires Flatten(parts) + part <= stream
    ensures Flatten(parts) <= stream
    ensures |uris| == |parts| && forall j :: 0 <= j < |uris| ==> uris[j] == PartKey(prefix, chunkId, j)
    ensures forall j :: 0 <= j < |parts| ==> |parts[j]| == k
  {
    hide PartKey, Flatten;
    assert forall j :: 0 <= j < |Flatten(parts)| ==> (Flatten(parts) + part)[j] == Flatten(parts)[j];
  }

  /** The trailing part is uploaded unless it is empty. */
  lemma LastCut(parts: seq<seq<Row>>, uris: seq<string>, part: seq<Row>, stream: seq<Row>, k: int, prefix: string, chunkId: nat)
    requires Uploaded(parts, uris, k, prefix, chunkId) && |part| <= k && Flatten(parts) + part == stream
    ensures part == [] ==> CutInto(parts, stream, k)
    ensures part != [] ==> CutInto(parts + [part], stream, k)
  {
    hide PartKey, Flatten;
    FlattenSnoc(parts, part);
    assert part == [] ==> Flatten(parts) + part == Flatten(parts);
  }

  lemma LastKeys(parts: seq<seq<Row>>, uris: seq<string>, k: int, prefix: string, chunkId: nat)
    requires Uploaded(parts, uris, k, prefix, chunkId)
    ensures |uris| == |parts|
    ensures forall j :: 0 <= j < |uris| ==> uris[j] == PartKey(prefix, chunkId, j)
    ensures forall j :: 0 <= j <= |uris| ==> (uris + [PartKey(prefix, chunkId, |parts|)])[j] == PartKey(prefix, chunkId, j)
  {
    hide PartKey;
  }

  /** A part below the limit has room for one more row group, and is full when that group
      reaches the limit. */
  lemma NextGroup(rows: int, groups: int, group: int, limit: int)
    requires group >= 1 && WholeGroups(rows, groups, group) && rows < limit
    ensures WholeGroups(rows + group, groups + 1, group)
    ensures rows + group <= PartRows(group, limit)
    ensures rows + group >= limit ==> rows + group == PartRows(group, limit)
  {
    var c := CeilDiv(limit, group);
    CeilDivBounds(limit, group);
    MulCancel(groups, c, group);
    MulMonotone(groups + 1, c, group);
    if rows + group >= limit {
      MulCancel(c - 1, groups + 1, group);
    }
  }
}
