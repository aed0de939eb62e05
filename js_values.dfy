/** The few JavaScript runtime behaviours the portfolio code depends on, stated
    over mathematical reals: missing values, the special numbers a division can
    produce, `parseFloat(x.toFixed(2))`, and `String.prototype.trim`. */
module JsValues {

  datatype Option<+T> = None | Some(value: T)

  /** A JavaScript number as far as the portfolio needs one: a finite value,
      one of the two infinities, or NaN. */
  datatype Num = Finite(v: real) | PosInf | NegInf | NaN

  /** The comparison `n >= 0`: false for NaN and for negative infinity. */
  predicate NonNegative(n: Num) {
    match n
    case Finite(v) => v >= 0.0
    case PosInf => true
    case NegInf => false
    case NaN => false
  }

  /** 10^21: from this magnitude on, `toFixed` returns the plain `ToString` form
      of its receiver instead of rounding it (ECMAScript, Number.prototype.toFixed). */
  const FixedLimit: real := 1000000000000000000000.0

  /** Two-decimal rounding of a non-negative value; of two equally near
      candidates `toFixed` picks the larger one. */
  function HalfUp2(y: real): (r: real)
    requires y >= 0.0
    ensures r >= 0.0
    ensures -0.005 < r - y <= 0.005
  {
    ((y * 100.0 + 0.5).Floor as real) / 100.0
  }

  /** `parseFloat(x.toFixed(2))`. A negative receiver is rounded by magnitude and
      given back its sign, so ties round away from zero. */
  function Round2(x: real): (r: real)
    ensures -0.005 <= r - x <= 0.005
    ensures x >= 0.0 ==> -0.005 < r - x
    ensures x < 0.0 ==> r - x < 0.005
    ensures x >= 0.0 ==> r >= 0.0
    ensures x <= 0.0 ==> r <= 0.0
    ensures (x >= FixedLimit || x <= -FixedLimit) ==> r == x
  {
    if x >= FixedLimit || x <= -FixedLimit then x
    else if x >= 0.0 then HalfUp2(x)
    else -HalfUp2(-x)
  }

  /** A value that already has at most two decimals comes back unchanged. */
  lemma Round2OfCents(k: int)
    requires -100000000000000000000000 < k < 100000000000000000000000
    ensures Round2(k as real / 100.0) == k as real / 100.0
  {
    if k >= 0 {
      assert (k as real / 100.0 * 100.0 + 0.5).Floor == k;
    } else {
      assert (-(k as real) / 100.0 * 100.0 + 0.5).Floor == -k;
    }
  }

  /** Below 10^21 in magnitude the result is a whole number of hundredths. */
  lemma Round2IsCents(x: real)
    requires -FixedLimit < x < FixedLimit
    ensures (Round2(x) * 100.0).Floor as real == Round2(x) * 100.0
  {
    var k: int;
    if x >= 0.0 {
      k := (x * 100.0 + 0.5).Floor;
      assert Round2(x) == HalfUp2(x);
    } else {
      k := -((-x) * 100.0 + 0.5).Floor;
      assert Round2(x) == -HalfUp2(-x);
    }
    assert Round2(x) == k as real / 100.0;
    assert Round2(x) * 100.0 == k as real;
    assert (k as real).Floor == k;
  }

  /** `parseFloat(x.toFixed(2))` applied to a JavaScript number: the special
      values print as "Infinity", "-Infinity" and "NaN" and parse back as such. */
  function ToFixed2(n: Num): (r: Num)
    ensures r.Finite? <==> n.Finite?
    ensures NonNegative(n) ==> NonNegative(r)
  {
    match n
    case Finite(v) => Finite(Round2(v))
    case _ => n
  }

  /** The characters `String.prototype.trim` removes: ECMAScript WhiteSpace
      (tab, vertical tab, form feed, no-break space, byte order mark and the
      space separators of Unicode category Zs) and LineTerminator. */
  predicate IsTrimSpace(c: char) {
    var n := c as int;
    n == 0x09 || n == 0x0A || n == 0x0B || n == 0x0C || n == 0x0D || n == 0x20 ||
    n == 0xA0 || n == 0x1680 || (0x2000 <= n <= 0x200A) || n == 0x2028 ||
    n == 0x2029 || n == 0x202F || n == 0x205F || n == 0x3000 || n == 0xFEFF
  }

  /** Every character of `s` is one `trim` removes. */
  predicate IsBlank(s: string) {
    forall i :: 0 <= i < |s| ==> IsTrimSpace(s[i])
  }

  /** `s` without its leading trim characters. */
  function TrimStart(s: string): (r: string)
    ensures |r| <= |s| && r == s[|s| - |r|..]
    ensures r != [] ==> !IsTrimSpace(r[0])
    ensures IsBlank(s[..|s| - |r|])
  {
    if s != [] && IsTrimSpace(s[0]) then
      var r := TrimStart(s[1..]);
      assert s[1..][|s| - 1 - |r|..] == s[|s| - |r|..];
      assert forall i :: 1 <= i < |s| - |r| ==> s[i] == s[1..][..|s| - 1 - |r|][i - 1];
      r
    else s
  }

  /** `s` without its trailing trim characters. */
  function TrimEnd(s: string): (r: string)
    ensures |r| <= |s| && r == s[..|r|]
    ensures r != [] ==> !IsTrimSpace(r[|r| - 1])
    ensures IsBlank(s[|r|..])
  {
    if s != [] && IsTrimSpace(s[|s| - 1]) then
      var r := TrimEnd(s[..|s| - 1]);
      assert s[..|s| - 1][..|r|] == s[..|r|];
      assert forall i :: |r| <= i < |s| - 1 ==> s[i] == s[..|s| - 1][|r|..][i - |r|];
      r
    else s
  }

  /** `s.trim()`: the middle part of `s` left after cutting trim characters
      from both ends, with none left at either end. */
  function Trim(s: string): (r: string)
    ensures r == [] || (!IsTrimSpace(r[0]) && !IsTrimSpace(r[|r| - 1]))
    ensures exists i, j :: 0 <= i <= j <= |s| && r == s[i..j] && IsBlank(s[..i]) && IsBlank(s[j..])
  {
    var u := TrimStart(s);
    var r := TrimEnd(u);
    MiddleOf(s, u, r);
    r
  }

  /** A suffix `u` of `s` after a blank prefix, cut down to a prefix `r` of `u`
      before a blank suffix, is the slice of `s` between the two cuts. */
  lemma MiddleOf(s: string, u: string, r: string)
    requires |u| <= |s| && u == s[|s| - |u|..] && IsBlank(s[..|s| - |u|])
    requires |r| <= |u| && r == u[..|r|] && IsBlank(u[|r|..])
    ensures var i := |s| - |u|;
      i + |r| <= |s| && r == s[i..i + |r|] && IsBlank(s[..i]) && IsBlank(s[i + |r|..])
  {
    assert u[|r|..] == s[|s| - |u| + |r|..];
  }

  /** `s.trim() === ''` exactly when `s` holds nothing but trim characters. */
  lemma TrimEmptyIffBlank(s: string)
    ensures Trim(s) == "" <==> IsBlank(s)
  {
  }
}
