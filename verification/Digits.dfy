/** Decimal rendering and parsing of numbers, as used in keys and stored text. */
module Digits {
  predicate IsDigit(c: char) {
    '0' <= c <= '9'
  }

  predicate AllDigits(s: string) {
    forall i :: 0 <= i < |s| ==> IsDigit(s[i])
  }

  function DigitChar(d: nat): (c: char)
    requires d < 10
    ensures IsDigit(c) && DigitValue(c) == d
  {
    ('0' as int + d) as char
  }

  function DigitValue(c: char): nat
    requires IsDigit(c)
  {
    c as int - '0' as int
  }

  function Number(s: string): nat
    requires AllDigits(s)
  {
    if s == "" then 0 else Number(s[..|s| - 1]) * 10 + DigitValue(s[|s| - 1])
  }

  function Pow10(w: nat): nat {
    if w == 0 then 1 else 10 * Pow10(w - 1)
  }

  /** Exactly `w` digits, zero-padded (`%0wd` for numbers that fit). */
  function Pad(n: nat, w: nat): string {
    if w == 0 then "" else Pad(n / 10, w - 1) + [DigitChar(n % 10)]
  }

  lemma {:induction false} PadRoundTrip(n: nat, w: nat)
    requires n < Pow10(w)
    ensures |Pad(n, w)| == w && AllDigits(Pad(n, w)) && Number(Pad(n, w)) == n
  {
    if w > 0 {
      PadRoundTrip(n / 10, w - 1);
      var head := Pad(n / 10, w - 1);
      assert Pad(n, w)[..|head|] == head;
    }
  }

  lemma TwoDigits(n: nat)
    requires n < 100
    ensures |Pad(n, 2)| == 2 && AllDigits(Pad(n, 2)) && Number(Pad(n, 2)) == n
  {
    assert Pow10(2) == 100;
    PadRoundTrip(n, 2);
  }

  /** `str(n)` of a non-negative integer. */
  function Render(n: nat): string {
    if n < 10 then [DigitChar(n)] else Render(n / 10) + [DigitChar(n % 10)]
  }

  lemma {:induction false} RenderRoundTrip(n: nat)
    ensures Render(n) != "" && AllDigits(Render(n)) && Number(Render(n)) == n
  {
    if n < 10 {
      assert Render(n)[..0] == "";
    } else {
      RenderRoundTrip(n / 10);
      var head := Render(n / 10);
      assert Render(n)[..|head|] == head;
    }
  }

  function Zeros(w: nat): string {
    seq(w, i => '0')
  }

  /** `{n:0wd}`: at least `w` digits. */
  function ZeroFill(n: nat, w: nat): string {
    var r := Render(n);
    if |r| >= w then r else Zeros(w - |r|) + r
  }

  lemma {:induction false} LeadingZeros(w: nat, s: string)
    requires AllDigits(s)
    ensures AllDigits(Zeros(w) + s) && Number(Zeros(w) + s) == Number(s)
    decreases |s|, w
  {
    var t := Zeros(w) + s;
    if s == "" {
      assert t == Zeros(w);
      if w > 0 {
        assert t[..|t| - 1] == Zeros(w - 1) + "";
        LeadingZeros(w - 1, "");
      }
    } else {
      assert t[..|t| - 1] == Zeros(w) + s[..|s| - 1];
      LeadingZeros(w, s[..|s| - 1]);
    }
  }

  lemma ZeroFillRoundTrip(n: nat, w: nat)
    ensures AllDigits(ZeroFill(n, w)) && Number(ZeroFill(n, w)) == n && |ZeroFill(n, w)| >= 1
  {
    RenderRoundTrip(n);
    if |Render(n)| < w {
      LeadingZeros(w - |Render(n)|, Render(n));
    }
  }

  lemma {:induction false} RenderLength(n: nat, w: nat)
    requires w >= 1 && n < Pow10(w)
    ensures |Render(n)| <= w
  {
    if n >= 10 {
      RenderLength(n / 10, w - 1);
    }
  }

  /** `w` digits when the number has no more, otherwise as many as it has. */
  lemma ZeroFillForm(n: nat, w: nat)
    requires w >= 1
    ensures AllDigits(ZeroFill(n, w)) && Number(ZeroFill(n, w)) == n && |ZeroFill(n, w)| >= w
    ensures n < Pow10(w) ==> |ZeroFill(n, w)| == w
  {
    ZeroFillRoundTrip(n, w);
    if n < Pow10(w) {
      RenderLength(n, w);
    }
  }

  /** Text up to the last separator is recovered when the tail is free of it. */
  lemma SplitAtLast(a: string, x: string, b: string, y: string, sep: char)
    requires a + [sep] + x == b + [sep] + y
    requires sep !in x && sep !in y
    ensures a == b && x == y
  {
    var t := a + [sep] + x;
    assert forall i :: |a| < i < |t| ==> t[i] == x[i - |a| - 1];
    assert forall i :: |b| < i < |t| ==> t[i] == y[i - |b| - 1];
    assert t[|a|] == sep && t[|b|] == sep;
    assert |a| == |b|;
    assert t[..|a|] == a && t[..|b|] == b;
    assert t[|a| + 1..] == x && t[|b| + 1..] == y;
  }
}
