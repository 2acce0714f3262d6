/**
 * The parts of JavaScript's number and string semantics that the email hash
 * relies on: UTF-16 code units, the int32 conversion performed by `|= 0` and
 * `<<`, `Math.abs`, and the decimal rendering of a non-negative integer.
 */
module JsNumbers {

  /** A UTF-16 code unit, as returned by `charCodeAt`. */
  type CodeUnit = c: int | 0 <= c < 0x1_0000

  /** A JavaScript string: a sequence of UTF-16 code units. */
  type JsString = seq<CodeUnit>

  const TWO_31: int := 0x8000_0000
  const TWO_32: int := 0x1_0000_0000

  predicate IsInt32(x: int) {
    -TWO_31 <= x < TWO_31
  }

  /**
   * ECMAScript ToInt32 on an integral Number: the one int32 value that is
   * congruent to x modulo 2^32.
   */
  function ToInt32(x: int): (r: int)
    ensures IsInt32(r)
    ensures (x - r) % TWO_32 == 0
    ensures IsInt32(x) ==> r == x
  {
    var q := (x + TWO_31) / TWO_32;
    assert x - ((x + TWO_31) % TWO_32 - TWO_31) == TWO_32 * q;
    (x + TWO_31) % TWO_32 - TWO_31
  }

  /** Two integers congruent modulo 2^32 have the same int32 image. */
  lemma {:induction false} ToInt32Congruent(a: int, b: int)
    requires (a - b) % TWO_32 == 0
    ensures ToInt32(a) == ToInt32(b)
  {
    var ra, rb := ToInt32(a), ToInt32(b);
    var k := (a - b) / TWO_32;
    var ka, kb := (a - ra) / TWO_32, (b - rb) / TWO_32;
    assert a - b == TWO_32 * k;
    assert a - ra == TWO_32 * ka;
    assert b - rb == TWO_32 * kb;
    var t := k - ka + kb;
    assert ra - rb == TWO_32 * t;
  }

  /** `h << 5` on a 32-bit integer: the product h * 32 taken back to int32. */
  function ShiftLeft5(h: int): (r: int)
    requires IsInt32(h)
    ensures IsInt32(r) && (h * 32 - r) % TWO_32 == 0
  {
    ToInt32(h * 32)
  }

  /** `Math.abs` on a Number; it does not wrap, so |-2^31| is 2^31. */
  function Abs(x: int): (r: nat)
    ensures r == x || r == -x
    ensures IsInt32(x) ==> r <= TWO_31
  {
    if x < 0 then -x else x
  }

  const ZERO: CodeUnit := 48  // the code unit of '0'

  predicate IsDigit(c: CodeUnit) {
    ZERO <= c < ZERO + 10
  }

  predicate AllDigits(s: JsString) {
    forall i :: 0 <= i < |s| ==> IsDigit(s[i])
  }

  /** How `String(n)` renders a non-negative integer: digits, no leading zero but for "0" itself. */
  predicate IsCanonicalDecimal(s: JsString) {
    |s| >= 1 && AllDigits(s) && (s[0] == ZERO ==> |s| == 1)
  }

  /** The number a string of decimal digits denotes. */
  function DecimalValue(s: JsString): nat
    requires AllDigits(s)
  {
    if s == [] then 0 else DecimalValue(s[..|s| - 1]) * 10 + (s[|s| - 1] - ZERO)
  }

  /** `String(n)` for a non-negative integer n. */
  function DecimalString(n: nat): (s: JsString)
    ensures IsCanonicalDecimal(s)
    ensures DecimalValue(s) == n
  {
    if n < 10 then [ZERO + n]
    else
      var p := DecimalString(n / 10);
      var s := p + [ZERO + n % 10];
      assert s[..|s| - 1] == p;
      s
  }

  /** A canonical digit string denotes a positive number unless it is "0". */
  lemma {:induction false} CanonicalValuePositive(s: JsString)
    requires IsCanonicalDecimal(s) && s[0] != ZERO
    ensures DecimalValue(s) >= 1
  {
    if |s| > 1 {
      var p := s[..|s| - 1];
      assert p[0] == s[0];
      CanonicalValuePositive(p);
    }
  }

  /** Printing is onto the canonical strings: every one of them is `String(n)` of its value. */
  lemma {:induction false} DecimalStringOfValue(s: JsString)
    requires IsCanonicalDecimal(s)
    ensures DecimalString(DecimalValue(s)) == s
  {
    if |s| > 1 {
      var p := s[..|s| - 1];
      assert p[0] == s[0];
      CanonicalValuePositive(p);
      DecimalStringOfValue(p);
      var n := DecimalValue(s);
      assert n / 10 == DecimalValue(p) && n % 10 == s[|s| - 1] - ZERO;
      assert s == p + [s[|s| - 1]];
    }
  }
}
