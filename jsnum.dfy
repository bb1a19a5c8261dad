/** JavaScript numbers as the application uses them: a finite value or NaN
    (no computation here can reach an infinity), their truthiness, `Math.round`,
    `toFixed(1)`, `parseInt(s, 10)` and the decimal rendering of integers. */
module JsNum {
  import Text

  datatype Num = Finite(v: real) | NaN

  /** `if (n)`: zero and NaN are falsy, every other number is truthy. */
  predicate Truthy(n: Num) {
    n.Finite? && n.v != 0.0
  }

  /** `Math.round`: the nearest integer, halves rounded up. */
  function Round(x: real): (r: int)
    ensures r as real - 0.5 <= x < r as real + 0.5
  {
    (x + 0.5).Floor
  }

  /** Rounding never reverses the order of two values. */
  lemma RoundMonotone(x: real, y: real)
    requires x <= y
    ensures Round(x) <= Round(y)
  {
  }

  /** `x / d` is the quotient `q` exactly when `d * q <= x < d * (q + 1)`. */
  lemma DivIs(x: int, d: int, q: int)
    requires d > 0 && d * q <= x < d * q + d
    ensures x / d == q
  {
    var q' := x / d;
    assert x == d * q' + x % d && 0 <= x % d < d;
    if q' < q { MulMonotone(d, q' + 1, q); }
    else if q' > q { MulMonotone(d, q + 1, q'); }
  }

  lemma MulMonotone(d: int, a: int, b: int)
    requires d > 0 && a <= b
    ensures d * a <= d * b
  {
    assert d * b - d * a == d * (b - a);
  }

  lemma RealDivBounds(a: real, t: real, lo: real, hi: real)
    requires t > 0.0 && lo * t <= a < hi * t
    ensures lo <= a / t < hi
  {
    var y := a / t;
    assert y * t == a;
  }

  /** `Math.round(c / t * 100)` for counts `0 <= c` and `t > 0`, in integer
      arithmetic. */
  function Percent(c: nat, t: nat): (r: int)
    requires t > 0
    ensures c <= t ==> 0 <= r <= 100
    ensures c == 0 ==> r == 0
    ensures c == t ==> r == 100
  {
    var q := (200 * c + t) / (2 * t);
    assert 200 * c + t == 2 * t * q + (200 * c + t) % (2 * t);
    assert c == 0 ==> q == 0 by {
      if c == 0 { DivIs(t, 2 * t, 0); }
    }
    assert c == t ==> q == 100 by {
      if c == t { DivIs(201 * t, 2 * t, 100); }
    }
    assert c <= t ==> 0 <= q <= 100 by {
      if c <= t && q > 100 { MulMonotone(2 * t, 101, q); }
      if q < 0 { MulMonotone(2 * t, q, -1); }
    }
    q
  }

  /** The integer formula is exactly `Math.round` of the real ratio. */
  lemma PercentIsRound(c: nat, t: nat)
    requires t > 0
    ensures Percent(c, t) == Round(100.0 * (c as real) / (t as real))
  {
    var q := Percent(c, t);
    var m := (200 * c + t) % (2 * t);
    assert 200 * c + t == 2 * t * q + m && 0 <= m < 2 * t;
    assert 2 * t * q - t <= 200 * c < 2 * t * q + t;
    var T := t as real;
    assert (q as real - 0.5) * T <= 100.0 * (c as real) < (q as real + 0.5) * T;
    RealDivBounds(100.0 * (c as real), T, q as real - 0.5, q as real + 0.5);
  }

  /** A larger count never gives a smaller percentage. */
  lemma PercentMonotone(c1: nat, c2: nat, t: nat)
    requires t > 0 && c1 <= c2
    ensures Percent(c1, t) <= Percent(c2, t)
  {
    var q1, q2 := Percent(c1, t), Percent(c2, t);
    assert 200 * c1 + t == 2 * t * q1 + (200 * c1 + t) % (2 * t);
    assert 200 * c2 + t == 2 * t * q2 + (200 * c2 + t) % (2 * t);
    if q1 > q2 { MulMonotone(2 * t, q2 + 1, q1); }
  }

  /** `parseFloat(x.toFixed(1))`: `x` rounded to one decimal place, halves away
      from zero. */
  function ToFixed1(x: real): (r: real)
    ensures (10.0 * r).Floor as real == 10.0 * r
    ensures x >= 0.0 ==> r - 0.05 <= x < r + 0.05
    ensures x < 0.0 ==> r - 0.05 < x <= r + 0.05
    ensures -0.05 <= r - x <= 0.05
  {
    var n := if x >= 0.0 then Round(10.0 * x) else -Round(-10.0 * x);
    assert (n as real).Floor == n;
    assert 10.0 * ((n as real) / 10.0) == n as real;
    (n as real) / 10.0
  }

  predicate IsDigit(c: char) {
    '0' <= c <= '9'
  }

  /** The longest prefix of `s` made of decimal digits. */
  function DigitPrefix(s: string): (p: string)
    ensures |p| <= |s| && p == s[..|p|]
    ensures forall i :: 0 <= i < |p| ==> IsDigit(p[i])
    ensures |p| < |s| ==> !IsDigit(s[|p|])
  {
    if s != [] && IsDigit(s[0]) then
      var p := DigitPrefix(s[1..]);
      assert [s[0]] + p == s[..|p| + 1];
      [s[0]] + p
    else []
  }

  /** The value of a string of decimal digits, most significant first. */
  function DigitValue(c: char): (d: nat)
    requires IsDigit(c)
    ensures d < 10
  {
    c as int - '0' as int
  }

  function DigitsValue(ds: string): nat
    requires forall i :: 0 <= i < |ds| ==> IsDigit(ds[i])
  {
    if ds == [] then 0
    else 10 * DigitsValue(ds[..|ds| - 1]) + DigitValue(ds[|ds| - 1])
  }

  /** `parseInt(s, 10)`: leading white space is skipped, one sign is accepted,
      then the longest run of digits is read; no digit at all gives NaN. */
  function ParseInt(s: string): (n: Num)
    ensures n.Finite? ==> n.v.Floor as real == n.v
    ensures (forall i :: 0 <= i < |s| ==> !IsDigit(s[i])) ==> n.NaN?
  {
    var t := Text.TrimStart(s);
    NoDigitsInSuffix(s, |s| - |t|);
    ParseSigned(t)
  }

  /** A suffix of a text without digits has no digits either. */
  lemma NoDigitsInSuffix(s: string, k: nat)
    requires k <= |s|
    ensures (forall i :: 0 <= i < |s| ==> !IsDigit(s[i])) ==>
      forall i :: 0 <= i < |s[k..]| ==> !IsDigit(s[k..][i])
  {
    forall i | 0 <= i < |s[k..]|
      ensures s[k..][i] == s[k + i]
    {
    }
  }

  /** The part of `parseInt` after the leading white space. */
  function ParseSigned(t: string): (n: Num)
    ensures n.Finite? ==> n.v.Floor as real == n.v
    ensures (forall i :: 0 <= i < |t| ==> !IsDigit(t[i])) ==> n.NaN?
  {
    var negative := t != [] && t[0] == '-';
    var body := if t != [] && (t[0] == '-' || t[0] == '+') then t[1..] else t;
    var ds := DigitPrefix(body);
    if ds == [] then NaN
    else
      assert body[0] == ds[0] && IsDigit(body[0]);
      assert body[0] == t[|t| - |body|];
      var m: int := DigitsValue(ds);
      var v: int := if negative then -m else m;
      assert (v as real).Floor == v;
      Finite(v as real)
  }

  function DigitChar(d: nat): (c: char)
    requires d < 10
    ensures IsDigit(c)
  {
    ('0' as int + d) as char
  }

  /** `String(n)` for a non-negative integer: its decimal digits, without leading
      zeros. */
  function Decimal(n: nat): (s: string)
    ensures s != []
    ensures forall i :: 0 <= i < |s| ==> IsDigit(s[i])
  {
    if n < 10 then [DigitChar(n)]
    else Decimal(n / 10) + [DigitChar(n % 10)]
  }

  /** `String(i)` for any integer. */
  function IntToString(i: int): string {
    if i < 0 then "-" + Decimal(-i) else Decimal(i)
  }

  /** Reading back the digits of `n` gives `n`. */
  lemma {:induction false} DecimalValue(n: nat)
    ensures DigitsValue(Decimal(n)) == n
  {
    if n >= 10 {
      var s := Decimal(n);
      assert s[..|s| - 1] == Decimal(n / 10);
      DecimalValue(n / 10);
    }
  }

  /** A string made only of digits is its own digit prefix. */
  lemma {:induction false} DigitPrefixAll(ds: string)
    requires forall i :: 0 <= i < |ds| ==> IsDigit(ds[i])
    ensures DigitPrefix(ds) == ds
  {
    if ds != [] {
      DigitPrefixAll(ds[1..]);
    }
  }

  /** `parseInt` of an unsigned run of digits, and of one preceded by `-`. */
  lemma ParseIntDigits(ds: string)
    requires ds != [] && forall i :: 0 <= i < |ds| ==> IsDigit(ds[i])
    ensures ParseInt(ds) == Finite(DigitsValue(ds) as real)
    ensures ParseInt("-" + ds) == Finite(-(DigitsValue(ds) as real))
  {
    DigitPrefixAll(ds);
    assert Text.TrimStart(ds) == ds by { assert !Text.IsSpace(ds[0]); }
    var s := "-" + ds;
    assert Text.TrimStart(s) == s by { assert !Text.IsSpace(s[0]); }
    assert s[1..] == ds;
  }

  /** `parseInt(String(i), 10) === i` for every integer `i`. */
  lemma ParseIntRoundTrip(i: int)
    ensures ParseInt(IntToString(i)) == Finite(i as real)
  {
    var m: nat := if i < 0 then -i else i;
    var ds := Decimal(m);
    DecimalValue(m);
    ParseIntDigits(ds);
    if i < 0 {
      assert IntToString(i) == "-" + ds;
      assert -(m as real) == i as real;
    } else {
      assert IntToString(i) == ds;
    }
  }
}
