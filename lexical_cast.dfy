/**
 * The string-to-number conversion the component applies to a value string
 * (`boost::lexical_cast<double>`). It is modelled as a decimal-literal grammar
 * over exact reals: an optional sign, digits with an optional fractional part
 * (at least one digit in all) and an optional exponent. Any other text is a
 * failed conversion.
 */
module LexicalCast {
  import opened Wrappers
  import opened Decimal

  /** Index of the first character of `s` that is in `cs`, or |s| when there is none. */
  function FirstIndexOfAny(s: string, cs: set<char>): (r: nat)
    ensures r <= |s|
    ensures r < |s| ==> s[r] in cs
    ensures forall j :: 0 <= j < r ==> s[j] !in cs
  {
    if s == [] then 0
    else if s[0] in cs then 0
    else 1 + FirstIndexOfAny(s[1..], cs)
  }

  function Pow10(n: nat): (p: nat)
    ensures p >= 1
  {
    if n == 0 then 1 else 10 * Pow10(n - 1)
  }

  /** The mantissa scaled by ten to the power `e`. */
  function Scale(m: real, e: int): real {
    if e >= 0 then m * Pow10(e) as real else m / Pow10(-e) as real
  }

  /** An exponent: an optional sign followed by at least one digit. */
  function ParseExponent(t: string): (r: Option<int>)
    ensures r.Some? ==> |t| > 0
  {
    if |t| > 0 && (t[0] == '+' || t[0] == '-') then
      if |t| > 1 && AllDigits(t[1..]) then
        Some(if t[0] == '-' then -(DigitsValue(t[1..]) as int) else DigitsValue(t[1..]))
      else None
    else if |t| > 0 && AllDigits(t) then Some(DigitsValue(t))
    else None
  }

  /** The value of the digits after a decimal point. */
  function FractionValue(frac: string): real
    requires AllDigits(frac)
  {
    DigitsValue(frac) as real / Pow10(|frac|) as real
  }

  /** An unsigned literal: digits with an optional fraction, then an optional exponent. */
  function ParseUnsigned(body: string): (r: Option<real>)
    ensures r.Some? ==> |body| > 0
  {
    var e := FirstIndexOfAny(body, {'e', 'E'});
    var mant := body[..e];
    var d := FirstIndexOfAny(mant, {'.'});
    var intPart := mant[..d];
    var fracPart := if d < |mant| then mant[d + 1..] else [];
    if !(AllDigits(intPart) && AllDigits(fracPart) && |intPart| + |fracPart| > 0) then None
    else
      var m := DigitsValue(intPart) as real + FractionValue(fracPart);
      var expo := if e < |body| then ParseExponent(body[e + 1..]) else Some(0);
      match expo
      case None => None
      case Some(x) => Some(Scale(m, x))
  }

  /** `lexical_cast<double>(s)`: the value of `s`, or None where the cast throws `bad_lexical_cast`. */
  function ParseReal(s: string): (r: Option<real>)
    ensures r.Some? ==> |s| > 0
  {
    var signed := |s| > 0 && (s[0] == '-' || s[0] == '+');
    match ParseUnsigned(if signed then s[1..] else s)
    case None => None
    case Some(v) => Some(if signed && s[0] == '-' then -v else v)
  }

  lemma FirstIndexOfAbsent(s: string, cs: set<char>)
    requires forall i :: 0 <= i < |s| ==> s[i] !in cs
    ensures FirstIndexOfAny(s, cs) == |s|
  {
  }

  lemma ParseDigits(s: string)
    requires |s| > 0 && AllDigits(s)
    ensures ParseUnsigned(s) == Some(DigitsValue(s) as real)
    ensures ParseReal(s) == Some(DigitsValue(s) as real)
  {
    assert IsDigit(s[0]);
    FirstIndexOfAbsent(s, {'e', 'E'});
    var mant := s[..FirstIndexOfAny(s, {'e', 'E'})];
    assert mant == s;
    FirstIndexOfAbsent(s, {'.'});
    var intPart := mant[..FirstIndexOfAny(mant, {'.'})];
    assert intPart == s;
    assert FractionValue([]) == 0.0;
    assert Scale(DigitsValue(s) as real + 0.0, 0) == DigitsValue(s) as real;
  }

  /**
   * Every integer's decimal rendering converts back to that integer, so a value
   * written out as an integer literal and set through the message protocol
   * arrives unchanged.
   */
  lemma ParseRealOfInt(i: int)
    ensures ParseReal(IntToString(i)) == Some(i as real)
  {
    var s := IntToString(i);
    if i < 0 {
      var ds := NatToDigits(-i);
      assert s == "-" + ds;
      assert s[1..] == ds;
      ParseDigits(ds);
      DigitsValueOfNat(-i);
      assert ParseUnsigned(s[1..]) == Some((-i) as real);
    } else {
      assert !(s[0] == '-' || s[0] == '+');
      ParseDigits(s);
      DigitsValueOfNat(i);
      assert ParseUnsigned(s) == Some(i as real);
    }
  }
}
