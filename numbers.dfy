/**
  * The integer conversions the deserializer relies on, under the invariant
  * culture: `Int32.TryParse`/`Int64.TryParse` with `NumberStyles.Integer`,
  * `int.Parse` with `NumberStyles.HexNumber` (for `\u` escapes), and the
  * decimal rendering of an index that `GetDebugString` embeds.
  */
module Numbers {
  import opened Wrappers
  import opened Chars

  const MinInt32: int := -0x8000_0000
  const MaxInt32: int := 0x7FFF_FFFF
  const MinInt64: int := -0x8000_0000_0000_0000
  const MaxInt64: int := 0x7FFF_FFFF_FFFF_FFFF

  predicate InInt32(n: int) { MinInt32 <= n <= MaxInt32 }
  predicate InInt64(n: int) { MinInt64 <= n <= MaxInt64 }

  /** The white space number parsing skips around a number: U+0009..U+000D and U+0020. */
  predicate IsNumberWhite(c: CodeUnit) {
    c == Space || 0x09 <= c <= 0x0D
  }

  /** The index of the first code unit at or after `k` that is not number white space, or the end. */
  function SkipNumberWhite(t: Text, k: nat): (r: nat)
    requires k <= |t|
    ensures k <= r <= |t|
    decreases |t| - k
  {
    if k < |t| && IsNumberWhite(t[k]) then SkipNumberWhite(t, k + 1) else k
  }

  /** The index just past the last code unit before `k` that is not number white space, or 0. */
  function BackNumberWhite(t: Text, k: nat): (r: nat)
    requires k <= |t|
    ensures r <= k
  {
    if k > 0 && IsNumberWhite(t[k - 1]) then BackNumberWhite(t, k - 1) else k
  }

  /** The index just past the last code unit before `k` that is not U+0000, or 0. */
  function BackNul(t: Text, k: nat): (r: nat)
    requires k <= |t|
    ensures r <= k
  {
    if k > 0 && t[k - 1] == 0 then BackNul(t, k - 1) else k
  }

  /**
    * What the number parser reads: trailing U+0000 code units are accepted
    * after everything else and dropped, then leading and trailing number white
    * space is removed.
    */
  function Trim(t: Text): Text {
    var a := SkipNumberWhite(t, 0);
    var b := BackNumberWhite(t, BackNul(t, |t|));
    if a < b then t[a..b] else []
  }

  predicate IsDigit(c: CodeUnit) { 0x30 <= c <= 0x39 }

  predicate AllDigits(t: Text) {
    forall k :: 0 <= k < |t| ==> IsDigit(t[k])
  }

  /** The value of a run of decimal digits, most significant first. */
  function DigitsValue(t: Text): nat
    requires AllDigits(t)
  {
    if t == [] then 0 else DigitsValue(t[..|t| - 1]) * 10 + (t[|t| - 1] as int - 0x30)
  }

  /**
    * `NumberStyles.Integer`: optional white space, an optional `+` or `-`,
    * one or more ASCII digits, optional white space, optional U+0000 code units;
    * the value is unbounded here
    * and the range checks are `TryInt32` and `TryInt64`.
    */
  function IntegerValue(t: Text): Option<int> {
    var u := Trim(t);
    if u == [] then None
    else if u[0] == Minus || u[0] == Plus then
      var digits := u[1..];
      if digits != [] && AllDigits(digits) then
        var magnitude: int := DigitsValue(digits);
        Some(if u[0] == Minus then -magnitude else magnitude)
      else None
    else if AllDigits(u) then Some(DigitsValue(u))
    else None
  }

  /** `Int32.TryParse(t, NumberStyles.Integer, CultureInfo.InvariantCulture, out n)`. */
  function TryInt32(t: Text): (r: Option<int>)
    ensures r.Some? <==> IntegerValue(t).Some? && InInt32(IntegerValue(t).value)
    ensures r.Some? ==> r == IntegerValue(t)
  {
    match IntegerValue(t)
    case Some(n) => if InInt32(n) then Some(n) else None
    case None => None
  }

  /** `Int64.TryParse(t, NumberStyles.Integer, CultureInfo.InvariantCulture, out l)`. */
  function TryInt64(t: Text): (r: Option<int>)
    ensures r.Some? <==> IntegerValue(t).Some? && InInt64(IntegerValue(t).value)
    ensures r.Some? ==> r == IntegerValue(t)
  {
    match IntegerValue(t)
    case Some(n) => if InInt64(n) then Some(n) else None
    case None => None
  }

  predicate IsHexDigit(c: CodeUnit) {
    IsDigit(c) || 0x41 <= c <= 0x46 || 0x61 <= c <= 0x66
  }

  predicate AllHexDigits(t: Text) {
    forall k :: 0 <= k < |t| ==> IsHexDigit(t[k])
  }

  function HexDigitValue(c: CodeUnit): (v: nat)
    requires IsHexDigit(c)
    ensures v < 16
  {
    if IsDigit(c) then c as int - 0x30
    else if c <= 0x46 then c as int - 0x41 + 10
    else c as int - 0x61 + 10
  }

  function HexDigitsValue(t: Text): nat
    requires AllHexDigits(t)
  {
    if t == [] then 0 else HexDigitsValue(t[..|t| - 1]) * 16 + HexDigitValue(t[|t| - 1])
  }

  /**
    * `int.Parse(t, NumberStyles.HexNumber, CultureInfo.InvariantCulture)`:
    * optional white space, one or more hex digits of either case, optional white
    * space, optional U+0000 code units; None where the library throws.
    */
  function HexValue(t: Text): (r: Option<nat>)
    ensures r.Some? ==> r.value < Power16(|t|)
  {
    var u := Trim(t);
    if u != [] && AllHexDigits(u) then
      HexDigitsBound(u);
      Power16Monotone(|u|, |t|);
      Some(HexDigitsValue(u))
    else None
  }

  function Power16(n: nat): nat {
    if n == 0 then 1 else 16 * Power16(n - 1)
  }

  lemma {:induction false} Power16Monotone(m: nat, n: nat)
    requires m <= n
    ensures Power16(m) <= Power16(n)
    decreases n
  {
    if m < n {
      Power16Monotone(m, n - 1);
    }
  }

  /** `k` hex digits stand for a value below `16^k`. */
  lemma {:induction false} HexDigitsBound(u: Text)
    requires AllHexDigits(u)
    ensures HexDigitsValue(u) < Power16(|u|)
  {
    if u != [] {
      var front := u[..|u| - 1];
      assert AllHexDigits(front);
      HexDigitsBound(front);
    }
  }

  /** The decimal digits of `n`, as `int.ToString()` renders a non-negative int. */
  function DecimalText(n: nat): (r: Text)
    ensures r != [] && AllDigits(r)
    ensures DigitsValue(r) == n
    ensures |r| == 1 || r[0] != 0x30
  {
    var last := (0x30 + n % 10) as CodeUnit;
    if n < 10 then [last]
    else
      var front := DecimalText(n / 10);
      var r := front + [last];
      assert r[..|r| - 1] == front;
      r
  }
}
