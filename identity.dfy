/**
 * `hashEmail`: the pseudo user id derived from an email address. The hash
 * folds the email's UTF-16 code units into a signed 32-bit integer with
 * h := int32(h * 31 + c), starting from 0, and the id is "user_" followed by
 * the decimal digits of |h|.
 */
module Identity {
  import opened Wrappers
  import opened JsNumbers

  /** "user_" as UTF-16 code units. */
  const UserPrefix: JsString := [117, 115, 101, 114, 95]

  /** The fold step the hash stands for: h * 31 + c, wrapped to int32. */
  function Step(h: int, c: CodeUnit): int {
    ToInt32(h * 31 + c)
  }

  /** The hash of s: Step folded over its code units from the left, starting at 0. */
  function Fold(s: JsString): (h: int)
    ensures IsInt32(h)
  {
    if s == [] then 0 else Step(Fold(s[..|s| - 1]), s[|s| - 1])
  }

  /** The loop body as written: `hash = (hash << 5) - hash + chr; hash |= 0`. */
  function LoopStep(h: int, c: CodeUnit): (r: int)
    requires IsInt32(h)
    ensures IsInt32(r)
  {
    ToInt32(ShiftLeft5(h) - h + c)
  }

  /** Shifting by 5 and subtracting once is multiplying by 31, also after the shift has wrapped. */
  lemma LoopStepIsStep(h: int, c: CodeUnit)
    requires IsInt32(h)
    ensures LoopStep(h, c) == Step(h, c)
  {
    var shifted := ShiftLeft5(h);
    assert (h * 32 - shifted) % TWO_32 == 0;
    assert (shifted - h + c) - (h * 31 + c) == shifted - h * 32;
    ToInt32Congruent(shifted - h + c, h * 31 + c);
  }

  /** The same hash in exact arithmetic: the sum of c_i * 31^(n-1-i). */
  function Polynomial(s: JsString): int {
    if s == [] then 0 else Polynomial(s[..|s| - 1]) * 31 + s[|s| - 1]
  }

  /** One fold step maps integers congruent modulo 2^32 to the same int32. */
  lemma StepCongruent(a: int, b: int, c: CodeUnit)
    requires (a - b) % TWO_32 == 0
    ensures ToInt32(a * 31 + c) == Step(b, c)
  {
    var k := (a - b) / TWO_32;
    assert a - b == TWO_32 * k;
    assert (a * 31 + c) - (b * 31 + c) == TWO_32 * (31 * k);
    ToInt32Congruent(a * 31 + c, b * 31 + c);
  }

  /** Wrapping after every step gives the same int32 as wrapping once at the end. */
  lemma {:induction false} FoldIsWrappedPolynomial(s: JsString)
    ensures Fold(s) == ToInt32(Polynomial(s))
  {
    if s != [] {
      var p := s[..|s| - 1];
      FoldIsWrappedPolynomial(p);
      StepCongruent(Polynomial(p), Fold(p), s[|s| - 1]);
    }
  }

  /**
   * The value `hashEmail(email)` returns: null for an absent or empty email,
   * otherwise "user_" + String(Math.abs(Fold(email))).
   */
  function UserIdFor(email: Option<JsString>): (r: Option<JsString>)
    ensures r.None? <==> email.None? || email.value == []
    ensures r.Some? ==> |r.value| > |UserPrefix| && r.value[..|UserPrefix|] == UserPrefix
  {
    if email.None? || email.value == [] then None
    else
      var id := UserPrefix + DecimalString(Abs(Fold(email.value)));
      assert id[..|UserPrefix|] == UserPrefix;
      Some(id)
  }

  /**
   * After "user_" comes the decimal rendering of |Fold(email)|, a number in
   * [0, 2^31] that is 2^31 exactly when the fold is -2^31.
   */
  lemma UserIdDigits(email: JsString)
    requires email != []
    ensures
      var digits := UserIdFor(Some(email)).value[|UserPrefix|..];
      && IsCanonicalDecimal(digits)
      && DecimalValue(digits) == Abs(Fold(email))
      && DecimalValue(digits) <= TWO_31
      && (DecimalValue(digits) == TWO_31 <==> Fold(email) == -TWO_31)
  {
    var digits := DecimalString(Abs(Fold(email)));
    assert (UserPrefix + digits)[|UserPrefix|..] == digits;
  }

  /** `hashEmail` with its loop over the code units. */
  method HashEmail(email: Option<JsString>) returns (r: Option<JsString>)
    ensures r == UserIdFor(email)
  {
    if email.None? || email.value == [] {
      return None;
    }
    var s := email.value;
    var hash := 0;
    var i := 0;
    while i < |s|
      invariant 0 <= i <= |s|
      invariant hash == Fold(s[..i])
    {
      var chr := s[i];
      LoopStepIsStep(hash, chr);
      hash := ShiftLeft5(hash) - hash + chr;
      hash := ToInt32(hash);
      assert s[..i + 1][..i] == s[..i];
      i := i + 1;
    }
    assert s[..i] == s;
    r := Some(UserPrefix + DecimalString(Abs(hash)));
  }

  /** The hash is not injective: "Aa" and "BB" fold to the same value and so share one id. */
  lemma CollidingEmails()
    ensures Fold([65, 97]) == Fold([66, 66]) == 2112
    ensures UserIdFor(Some([65, 97])) == UserIdFor(Some([66, 66]))
  {
    assert [65, 97][..1] == [65];
    assert [66, 66][..1] == [66];
  }

  /** "xfjfxtf": an email whose hash is -2^31. */
  const MinInt32Witness: JsString := [120, 102, 106, 102, 120, 116, 102]

  /** Polynomial(s + [c]) is one more step of Horner's rule. */
  lemma PolynomialSnoc(s: JsString, c: CodeUnit)
    ensures Polynomial(s + [c]) == Polynomial(s) * 31 + c
  {
    assert (s + [c])[..|s|] == s;
  }

  lemma WitnessPolynomial()
    ensures Polynomial(MinInt32Witness) == 25 * TWO_32 + TWO_31
  {
    var p1: JsString := [120];
    var p2, p3, p4 := p1 + [102], p1 + [102, 106], p1 + [102, 106, 102];
    var p5, p6 := p4 + [120], p4 + [120, 116];
    PolynomialSnoc([], 120);
    assert [] + [120] == p1;
    assert Polynomial(p1) == 120;
    PolynomialSnoc(p1, 102);
    assert Polynomial(p2) == 3822;
    PolynomialSnoc(p2, 106);
    assert p2 + [106] == p3;
    assert Polynomial(p3) == 118588;
    PolynomialSnoc(p3, 102);
    assert p3 + [102] == p4;
    assert Polynomial(p4) == 3676330;
    PolynomialSnoc(p4, 120);
    assert Polynomial(p5) == 113966350;
    PolynomialSnoc(p5, 116);
    assert p5 + [116] == p6;
    assert Polynomial(p6) == 3532956966;
    PolynomialSnoc(p6, 102);
    assert p6 + [102] == MinInt32Witness;
  }

  /** The suffix 2147483648 is reachable: it lies one past the int32 range because Math.abs does not wrap. */
  lemma MinInt32Email()
    ensures Fold(MinInt32Witness) == -TWO_31
    ensures UserIdFor(Some(MinInt32Witness)).Some?
    ensures DecimalValue(UserIdFor(Some(MinInt32Witness)).value[|UserPrefix|..]) == TWO_31
  {
    WitnessPolynomial();
    FoldIsWrappedPolynomial(MinInt32Witness);
    ToInt32Congruent(Polynomial(MinInt32Witness), -TWO_31);
    assert ToInt32(-TWO_31) == -TWO_31;
    UserIdDigits(MinInt32Witness);
  }
}
