/** Small shared vocabulary: options, lexicographic pairs, list flattening. */
module Prelude {
  datatype Option<+T> = None | Some(value: T)

  function Max(a: int, b: int): int {
    if a < b then b else a
  }

  function Min(a: int, b: int): int {
    if a < b then a else b
  }

  /** Number of blocks of `d` items needed for `n` items. */
  function CeilDiv(n: int, d: int): int
    requires d >= 1
  {
    (n + d - 1) / d
  }

  lemma MulMonotone(a: int, b: int, d: int)
    requires a <= b && d >= 0
    ensures a * d <= b * d
  {}

  lemma MulCancel(a: int, b: int, d: int)
    requires d >= 1
    ensures a * d <= b * d ==> a <= b
    ensures a * d < b * d ==> a < b
  {
    if b + 1 <= a {
      MulMonotone(b + 1, a, d);
    } else if b <= a {
      MulMonotone(b, a, d);
    }
  }

  /** Floor division is pinned down by its remainder. */
  lemma DivUnique(a: int, d: int, q: int)
    requires d >= 1 && 0 <= a - q * d < d
    ensures a / d == q
  {
    var p := a / d;
    assert a == p * d + a % d;
    if p < q {
      MulMonotone(p + 1, q, d);
    } else if q < p {
      MulMonotone(q + 1, p, d);
    }
  }

  lemma DivBounds(a: int, d: int)
    requires d >= 1
    ensures a / d * d <= a < a / d * d + d
  {}

  lemma CeilDivStep(m: int, n: int)
    requires n >= 1
    ensures CeilDiv(m, n) == CeilDiv(m - n, n) + 1
    ensures 0 < m <= n ==> CeilDiv(m, n) == 1
    ensures CeilDiv(0, n) == 0
  {
    DivBounds(m - 1, n);
    DivUnique(m + n - 1, n, (m - 1) / n + 1);
    if 0 < m <= n {
      DivUnique(m + n - 1, n, 1);
    }
    DivUnique(n - 1, n, 0);
  }

  lemma CeilDivBounds(m: int, n: int)
    requires n >= 1
    ensures (CeilDiv(m, n) - 1) * n < m <= CeilDiv(m, n) * n
  {
    DivBounds(m + n - 1, n);
  }

  /** The lists of `ss`, one after the other. */
  function Flatten<T>(ss: seq<seq<T>>): seq<T> {
    if ss == [] then [] else ss[0] + Flatten(ss[1..])
  }

  lemma {:induction false} FlattenAppend<T>(a: seq<seq<T>>, b: seq<seq<T>>)
    ensures Flatten(a + b) == Flatten(a) + Flatten(b)
  {
    if a == [] {
      assert a + b == b;
    } else {
      assert (a + b)[1..] == a[1..] + b;
      FlattenAppend(a[1..], b);
    }
  }

  lemma FlattenSnoc<T>(a: seq<seq<T>>, x: seq<T>)
    ensures Flatten(a + [x]) == Flatten(a) + x
  {
    FlattenAppend(a, [x]);
    assert Flatten([x]) == x + Flatten([x][1..]);
    assert [x][1..] == [];
    assert x + [] == x;
  }
}
