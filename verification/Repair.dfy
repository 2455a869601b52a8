/** What a reconcile does about a row that the incremental ticks have missed. */
module Repair {
  import opened Prelude
  import opened Rows
  import opened Merge
  import opened IncrementalProtocol
  import opened NoRowLost
  import opened Reconcile

  /** MAIN: a reconcile brings a missed row to the lake exactly when the lake has no row of its key;
      it is then the only row of that key. An older version of the row, once in the lake, stays. */
  lemma ReconcileRepairsExactly(c: Config, s: State, k: int, source: seq<Row>, parts: seq<seq<Row>>)
    requires Missed(c, s, k) && WellKeyed(s.source)
    requires Keyed(s.lake) && DistinctKeys(source) && forall r :: r in source <==> FromSnapshot(r, s.source)
    requires FetchOf(parts, source, Keys(source) - Keys(s.lake))
    ensures var after := ReconcileEffect(s.lake, source, parts, c.dedupe);
            && (s.source[k] in after <==> k !in Keys(s.lake))
            && (k !in Keys(s.lake) ==> Holds(after, s.source[k]))
            && (forall r :: r in s.lake && r.id == Some(k) ==> r in after)
  {
    var r, after := s.source[k], ReconcileEffect(s.lake, source, parts, c.dedupe);
    assert FromSnapshot(r, s.source) && r in source;
    EffectReconciles(s.lake, source, parts, c.dedupe);
    KeyOf(source, r);
    DistinctKeysOnce(source, r);
    hide ReconcileEffect, FetchOf, Keyed;
    forall x: Row | x.id == Some(k)
      ensures x in after <==> if k in Keys(s.lake) then x in s.lake else x == r
    {
      assert multiset(after)[x] == if k in Keys(s.lake) then multiset(s.lake)[x] else multiset(source)[x];
      assert x in source <==> FromSnapshot(x, s.source);
      assert x in after <==> multiset(after)[x] > 0;
      assert x in s.lake <==> multiset(s.lake)[x] > 0;
      assert x in source <==> multiset(source)[x] > 0;
    }
    forall x | x in s.lake && x.id == Some(k)
      ensures k in Keys(s.lake)
    {
      KeyOf(s.lake, x);
    }
  }
}
