/** Table rows, as the sync engine sees them, and row lists grouped by primary key. */
module Rows {
  import opened Prelude

  /** One row version. `id` is the primary key, `stamp` the watermark column, which is
      `updated_at` unless configured otherwise, `part` the partition column (`created_at`); every
      other column is in `payload`. All three can be NULL in the source. */
  datatype Row = Row(id: Option<int>, stamp: Option<int>, part: Option<int>, payload: int)

  /** No row has a NULL key. */
  ghost predicate Keyed(s: seq<Row>) {
    forall r :: r in s ==> r.id.Some?
  }

  predicate HasKeyIn(r: Row, keys: set<int>) {
    r.id.Some? && r.id.value in keys
  }

  /** The non-NULL keys of `s`. */
  function Keys(s: seq<Row>): set<int> {
    set r | r in s && r.id.Some? :: r.id.value
  }

  lemma KeyOf(s: seq<Row>, r: Row)
    requires r in s && r.id.Some?
    ensures r.id.value in Keys(s)
  {}

  lemma KeysAppend(a: seq<Row>, b: seq<Row>)
    ensures Keys(a + b) == Keys(a) + Keys(b)
  {
    assert forall r :: r in a + b <==> r in a || r in b;
  }

  /** How many rows of `s` have key `k`. */
  function KeyCount(s: seq<Row>, k: int): nat {
    if s == [] then 0
    else (if s[0].id == Some(k) then 1 else 0) + KeyCount(s[1..], k)
  }

  lemma {:induction false} KeyCountAppend(a: seq<Row>, b: seq<Row>, k: int)
    ensures KeyCount(a + b, k) == KeyCount(a, k) + KeyCount(b, k)
  {
    if a == [] {
      assert a + b == b;
    } else {
      assert (a + b)[1..] == a[1..] + b;
      KeyCountAppend(a[1..], b, k);
    }
  }

  /** A key is counted at least once exactly when some row carries it. */
  lemma {:induction false} KeyCountPositive(s: seq<Row>, k: int)
    ensures KeyCount(s, k) > 0 <==> k in Keys(s)
  {
    if s != [] {
      KeyCountPositive(s[1..], k);
      assert s == [s[0]] + s[1..];
      KeysAppend([s[0]], s[1..]);
    }
  }

  /** Two different positions never hold the same key. */
  ghost predicate DistinctKeys(s: seq<Row>) {
    forall i, j :: 0 <= i < j < |s| ==> s[i].id != s[j].id
  }

  lemma {:induction false} DistinctKeysCount(s: seq<Row>, k: int)
    requires DistinctKeys(s)
    ensures KeyCount(s, k) == if k in Keys(s) then 1 else 0
  {
    if s != [] {
      DistinctKeysCount(s[1..], k);
      assert s == [s[0]] + s[1..];
      KeysAppend([s[0]], s[1..]);
      assert forall x :: x in s[1..] ==> s[0].id != x.id;
    }
  }

  /** With distinct keys a row occurs at most once. */
  lemma {:induction false} DistinctKeysOnce(s: seq<Row>, r: Row)
    requires DistinctKeys(s)
    ensures multiset(s)[r] == if r in s then 1 else 0
  {
    if s != [] {
      DistinctKeysOnce(s[1..], r);
      assert s == [s[0]] + s[1..];
      assert forall x :: x in s[1..] ==> s[0].id != x.id;
    }
  }

  /** The rows a `DELETE ... WHERE key IN keys` leaves behind. A NULL key is never IN a list. */
  function Without(s: seq<Row>, keys: set<int>): seq<Row> {
    if s == [] then []
    else (if HasKeyIn(s[0], keys) then [] else [s[0]]) + Without(s[1..], keys)
  }

  lemma {:induction false} WithoutCount(s: seq<Row>, keys: set<int>, r: Row)
    ensures multiset(Without(s, keys))[r] == if HasKeyIn(r, keys) then 0 else multiset(s)[r]
  {
    if s != [] {
      WithoutCount(s[1..], keys, r);
      assert s == [s[0]] + s[1..];
    }
  }

  lemma WithoutMembers(s: seq<Row>, keys: set<int>)
    ensures forall r :: r in Without(s, keys) <==> r in s && !HasKeyIn(r, keys)
  {
    forall r
      ensures r in Without(s, keys) <==> r in s && !HasKeyIn(r, keys)
    {
      WithoutCount(s, keys, r);
      assert r in Without(s, keys) <==> multiset(Without(s, keys))[r] > 0;
      assert r in s <==> multiset(s)[r] > 0;
    }
  }

  lemma {:induction false} WithoutKeyCount(s: seq<Row>, keys: set<int>, k: int)
    ensures KeyCount(Without(s, keys), k) == if k in keys then 0 else KeyCount(s, k)
  {
    if s != [] {
      WithoutKeyCount(s[1..], keys, k);
      KeyCountAppend(if HasKeyIn(s[0], keys) then [] else [s[0]], Without(s[1..], keys), k);
    }
  }
}
