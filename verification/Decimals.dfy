/** Rounding NUMERIC values to the scale of their Arrow column. */
module Decimals {
  import opened Prelude
  import opened Digits

  /** `quantize` works in the default decimal context of 28 significant digits. */
  const CONTEXT_DIGITS: nat := 28

  /** A decoded column value: a decimal (finite, an infinity or a quiet NaN), NULL, or anything
      else. */
  datatype Cell = Decimal(v: real) | Infinity(negative: bool) | NotANumber | Other(tag: int) | Null

  /** To the nearest integer, ties away from zero (ROUND_HALF_UP). */
  function RoundHalfUp(x: real): int {
    if x >= 0.0 then (x + 0.5).Floor else -((-x + 0.5).Floor)
  }

  /** The value in units of 10^-scale. */
  function Units(v: real, scale: nat): real {
    v * Pow10(scale) as real
  }

  /** The coefficient of `v.quantize(10^-scale)`; None where Python raises. */
  function Quantize(v: real, scale: nat): Option<int> {
    var q := RoundHalfUp(Units(v, scale));
    var limit: int := Pow10(CONTEXT_DIGITS);
    if -limit < q < limit then Some(q) else None
  }

  lemma {:induction false} Pow10Positive(n: nat)
    ensures Pow10(n) >= 1
  {
    if n > 0 {
      Pow10Positive(n - 1);
    }
  }

  function Unscaled(q: int, scale: nat): real {
    Pow10Positive(scale);
    q as real / Pow10(scale) as real
  }

  /** An infinity cannot be quantized; a NaN quantizes to itself. */
  function CoerceCell(v: Cell, scale: nat): Cell {
    if v.Decimal? then
      var q := Quantize(v.v, scale);
      if q.Some? then Decimal(Unscaled(q.value, scale)) else Null
    else if v.Infinity? then Null
    else v
  }

  /** `q` is the integer nearest to `x`; of two it is the one farther from zero. */
  predicate Nearest(x: real, q: int) {
    Distance(x, q as real) <= 0.5 && (Distance(x, q as real) == 0.5 ==> Distance(q as real, 0.0) > Distance(x, 0.0))
  }

  lemma NearestIsUnique(x: real, p: int, q: int)
    requires Nearest(x, p) && Nearest(x, q)
    ensures p == q
  {
    assert p < q ==> p as real + 1.0 <= q as real;
    assert q < p ==> q as real + 1.0 <= p as real;
  }

  /** What becomes of a cell: a finite value a multiple of 10^-scale, the nearest one with ties away
      from zero, or NULL if its coefficient has more than 28 digits; an infinity NULL; any other
      cell what it was. */
  ghost predicate Rounds(v: Cell, scale: nat, w: Cell) {
    match v
    case Decimal(x) => exists q: int :: Becomes(x, scale, q, w)
    case Infinity(_) => w.Null?
    case _ => w == v
  }

  /** A value with coefficient `q`. */
  ghost predicate Becomes(x: real, scale: nat, q: int, w: Cell) {
    && Nearest(x * Pow10(scale) as real, q)
    && if -10_000_000_000_000_000_000_000_000_000 < q < 10_000_000_000_000_000_000_000_000_000
       then w.Decimal? && w.v * Pow10(scale) as real == q as real
       else w.Null?
  }

  lemma TwentyEightDigits()
    ensures Pow10(CONTEXT_DIGITS) == 10_000_000_000_000_000_000_000_000_000
  {
    assert Pow10(4) == 10 * Pow10(3) && Pow10(3) == 10 * Pow10(2) && Pow10(2) == 10 * Pow10(1) && Pow10(1) == 10 * Pow10(0);
    hide Pow10;
    PowAdd(4, 4);
    PowAdd(8, 8);
    PowAdd(16, 8);
    PowAdd(24, 4);
  }

  lemma CoerceRounds(v: Cell, scale: nat)
    ensures Rounds(v, scale, CoerceCell(v, scale))
  {
    hide RoundHalfUp, Pow10;
    if v.Decimal? {
      var q := RoundHalfUp(Units(v.v, scale));
      RoundNearest(Units(v.v, scale), q);
      TwentyEightDigits();
      UnscaledUnits(q, scale);
      assert Becomes(v.v, scale, q, CoerceCell(v, scale));
    }
  }

  /** MAIN: the decimal branch of `_coerce_for_arrow`, cell by cell. */
  method CoerceDecimals(col: seq<Cell>, scale: nat) returns (out: seq<Cell>)
    ensures |out| == |col|
    ensures forall i :: 0 <= i < |col| ==> Rounds(col[i], scale, out[i])
    ensures forall i :: 0 <= i < |col| ==> out[i] == CoerceCell(col[i], scale)
  {
    forall v
      ensures Rounds(v, scale, CoerceCell(v, scale))
    {
      CoerceRounds(v, scale);
    }
    hide Rounds;
    out := [];
    for i := 0 to |col|
      invariant |out| == i
      invariant forall j :: 0 <= j < i ==> out[j] == CoerceCell(col[j], scale)
    {
      var v := col[i];
      if v.Decimal? {
        var q := Quantize(v.v, scale);
        if q.Some? {
          out := out + [Decimal(Unscaled(q.value, scale))];
        } else {
          out := out + [Null];
        }
      } else if v.Infinity? {
        out := out + [Null];
      } else {
        out := out + [v];
      }
    }
  }

  function Distance(x: real, y: real): real {
    if x < y then y - x else x - y
  }

  lemma RoundBounds(x: real)
    ensures x >= 0.0 ==> 0.0 <= RoundHalfUp(x) as real && x - 0.5 < RoundHalfUp(x) as real <= x + 0.5
    ensures x < 0.0 ==> RoundHalfUp(x) as real <= 0.0 && x - 0.5 <= RoundHalfUp(x) as real < x + 0.5
  {
    var y := if x >= 0.0 then x + 0.5 else -x + 0.5;
    assert y.Floor as real <= y < y.Floor as real + 1.0;
  }

  lemma RoundNearest(x: real, z: int)
    ensures var q := RoundHalfUp(x);
            && Distance(x, q as real) <= 0.5
            && Distance(x, q as real) <= Distance(x, z as real)
            && (Distance(x, q as real) == 0.5 ==> Distance(q as real, 0.0) > Distance(x, 0.0))
  {
    var q := RoundHalfUp(x);
    RoundBounds(x);
    hide RoundHalfUp;
    if z < q {
      assert z as real <= q as real - 1.0;
    } else if z > q {
      assert z as real >= q as real + 1.0;
    }
  }

  lemma RoundMonotone(x: real, y: real)
    requires x <= y
    ensures RoundHalfUp(x) <= RoundHalfUp(y)
  {
    if x < 0.0 <= y {
      RoundBounds(x);
      RoundBounds(y);
    } else if y < 0.0 {
      FloorMonotone(-y + 0.5, -x + 0.5);
    } else {
      FloorMonotone(x + 0.5, y + 0.5);
    }
  }

  lemma FloorMonotone(x: real, y: real)
    requires x <= y
    ensures x.Floor <= y.Floor
  {}

  lemma RoundWhole(q: int)
    ensures RoundHalfUp(q as real) == q
  {
    RoundBounds(q as real);
  }

  lemma UnscaledUnits(q: int, scale: nat)
    ensures Units(Unscaled(q, scale), scale) == q as real
  {
    Pow10Positive(scale);
  }

  lemma UnitsMonotone(v: real, w: real, scale: nat)
    requires v <= w
    ensures Units(v, scale) <= Units(w, scale)
  {
    Pow10Positive(scale);
    var p := Pow10(scale) as real;
    assert (w - v) * p >= 0.0;
    assert w * p == v * p + (w - v) * p;
  }

  /** MAIN: a kept value is a multiple of 10^-scale, and in those units it is the one nearest to
      the original, at most half a unit away, ties going away from zero; a value is dropped to
      NULL exactly when the nearest coefficient needs more than 28 digits. */
  lemma KeptIsNearest(v: real, scale: nat, z: int)
    ensures Quantize(v, scale).None? <==> Distance(RoundHalfUp(Units(v, scale)) as real, 0.0) >= Pow10(CONTEXT_DIGITS) as real
    ensures Quantize(v, scale).Some? ==>
              var q := Quantize(v, scale).value;
              && Units(Unscaled(q, scale), scale) == q as real
              && Distance(Units(v, scale), q as real) <= 0.5
              && Distance(Units(v, scale), q as real) <= Distance(Units(v, scale), z as real)
              && (Distance(Units(v, scale), q as real) == 0.5 ==> Distance(q as real, 0.0) > Distance(Units(v, scale), 0.0))
  {
    RoundNearest(Units(v, scale), z);
    hide RoundHalfUp;
    if Quantize(v, scale).Some? {
      UnscaledUnits(Quantize(v, scale).value, scale);
    }
  }

  /** MAIN: rounding keeps order, and rounding a kept value changes nothing. */
  lemma QuantizeMonotoneIdempotent(v: real, w: real, scale: nat)
    requires v <= w && Quantize(v, scale).Some? && Quantize(w, scale).Some?
    ensures Quantize(v, scale).value <= Quantize(w, scale).value
    ensures Quantize(Unscaled(Quantize(v, scale).value, scale), scale) == Quantize(v, scale)
  {
    UnitsMonotone(v, w, scale);
    RoundMonotone(Units(v, scale), Units(w, scale));
    var q := Quantize(v, scale).value;
    UnscaledUnits(q, scale);
    RoundWhole(q);
    hide Units, RoundHalfUp, Unscaled;
  }

  /** The context is narrower than Arrow's decimal128(38, 9): a value that fits the column type
      is stored as NULL once its rounded coefficient needs more than 28 digits. */
  lemma FittingValueBecomesNull()
    ensures var v := Pow10(20) as real;
            && Units(v, 9) < Pow10(38) as real
            && CoerceCell(Decimal(v), 9) == Null
  {
    hide Pow10, RoundHalfUp, Units;
    BigUnits();
    SmallPowers();
    PowAdd(29, 9);
    PowAdd(28, 1);
    Pow10Positive(28);
    RoundWhole(Pow10(29));
    BiggerProduct(Pow10(29), Pow10(9));
  }

  lemma BigUnits()
    ensures Units(Pow10(20) as real, 9) == Pow10(29) as real
  {
    hide Pow10;
    PowAdd(20, 9);
    WholeProduct(Pow10(20), Pow10(9));
  }

  lemma SmallPowers()
    ensures Pow10(1) == 10 && Pow10(9) > 1
  {
    PowAdd(8, 1);
    Pow10Positive(8);
  }

  /** Ties go away from zero on both sides. */
  lemma RoundingExamples()
    ensures CoerceCell(Decimal(1.005), 2) == Decimal(1.01) && CoerceCell(Decimal(-1.005), 2) == Decimal(-1.01)
    ensures CoerceCell(Decimal(2.4), 0) == Decimal(2.0) && CoerceCell(Decimal(-0.5), 0) == Decimal(-1.0)
  {
    TwentyEightDigits();
    assert Pow10(2) == 10 * Pow10(1) && Pow10(1) == 10 * Pow10(0) && Pow10(0) == 1;
    NearestExample(1.005, 2, 101);
    NearestExample(-1.005, 2, -101);
    NearestExample(2.4, 0, 2);
    NearestExample(-0.5, 0, -1);
  }

  lemma NearestExample(v: real, scale: nat, q: int)
    requires Nearest(Units(v, scale), q)
    ensures RoundHalfUp(Units(v, scale)) == q
  {
    RoundNearest(Units(v, scale), q);
    NearestIsUnique(Units(v, scale), q, RoundHalfUp(Units(v, scale)));
  }

  lemma WholeProduct(a: int, b: int)
    ensures a as real * b as real == (a * b) as real
  {}

  lemma BiggerProduct(a: int, b: int)
    requires a >= 1 && b > 1
    ensures a < a * b
  {}

  lemma {:induction false} PowAdd(a: nat, b: nat)
    ensures Pow10(a + b) == Pow10(a) * Pow10(b)
  {
    if a > 0 {
      PowAdd(a - 1, b);
      assert 10 * (Pow10(a - 1) * Pow10(b)) == (10 * Pow10(a - 1)) * Pow10(b);
    }
  }
}
