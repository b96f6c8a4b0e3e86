/**
 * Python's built-in `int()` applied to a string, restricted to the literals the
 * booking forms carry: an optional `+` or `-` followed by one or more ASCII
 * decimal digits. Leading zeros are accepted, as Python accepts them for base 10.
 */
module PyInt {
  import opened Wrappers

  predicate IsDigit(c: char) {
    '0' <= c <= '9'
  }

  predicate IsSign(c: char) {
    c == '+' || c == '-'
  }

  /** A non-empty run of decimal digits. */
  predicate IsDigits(s: string) {
    |s| > 0 && forall i :: 0 <= i < |s| ==> IsDigit(s[i])
  }

  /** The strings `int()` accepts in this model: digits, optionally after one sign. */
  predicate IsIntLiteral(s: string) {
    IsDigits(s) || (|s| > 1 && IsSign(s[0]) && IsDigits(s[1..]))
  }

  function DigitValue(c: char): (d: nat)
    requires IsDigit(c)
    ensures d < 10
  {
    (c as int) - ('0' as int)
  }

  function DigitChar(d: nat): (c: char)
    requires d < 10
    ensures IsDigit(c) && DigitValue(c) == d
  {
    ('0' as int + d) as char
  }

  /** The value of a run of decimal digits, most significant first. */
  function DigitsValue(s: string): nat
    requires forall i :: 0 <= i < |s| ==> IsDigit(s[i])
  {
    if s == [] then 0 else DigitsValue(s[..|s| - 1]) * 10 + DigitValue(s[|s| - 1])
  }

  /** `int(s)` for a string `s`: the value of the literal, or None where Python raises ValueError. */
  function ParseInt(s: string): (r: Option<int>)
    ensures r.Some? <==> IsIntLiteral(s)
    ensures r.Some? && r.value < 0 ==> s[0] == '-'
    ensures r.Some? && s[0] == '+' ==> r.value >= 0
  {
    if IsDigits(s) then Some(DigitsValue(s))
    else if |s| > 1 && IsSign(s[0]) && IsDigits(s[1..]) then
      var magnitude: int := DigitsValue(s[1..]);
      Some(if s[0] == '-' then -magnitude else magnitude)
    else None
  }

  /** The decimal digits of a natural number, without leading zeros. */
  function ShowNat(n: nat): (s: string)
    ensures IsDigits(s)
    ensures s[0] == '0' ==> n == 0
  {
    if n < 10 then [DigitChar(n)] else ShowNat(n / 10) + [DigitChar(n % 10)]
  }

  /** `str(n)`: the canonical decimal form of an integer. */
  function ShowInt(n: int): string {
    if n < 0 then "-" + ShowNat(-n) else ShowNat(n)
  }

  lemma {:induction false} DigitsValueOfShowNat(n: nat)
    ensures DigitsValue(ShowNat(n)) == n
  {
    if n >= 10 {
      var s := ShowNat(n);
      assert s[..|s| - 1] == ShowNat(n / 10);
      DigitsValueOfShowNat(n / 10);
    }
  }

  /** `int(str(n)) == n` for every integer. */
  lemma ParseShowInt(n: int)
    ensures IsIntLiteral(ShowInt(n))
    ensures ParseInt(ShowInt(n)) == Some(n)
  {
    if n < 0 {
      var s := ShowInt(n);
      assert s[1..] == ShowNat(-n);
      assert !IsDigits(s);
      DigitsValueOfShowNat(-n);
    } else {
      DigitsValueOfShowNat(n);
    }
  }

  /** A leading zero does not change the value of a run of digits. */
  lemma {:induction false} DigitsValueLeadingZero(d: string)
    requires forall i :: 0 <= i < |d| ==> IsDigit(d[i])
    ensures DigitsValue("0" + d) == DigitsValue(d)
  {
    var z := "0" + d;
    if d == [] {
      assert z[..|z| - 1] == [];
    } else {
      var init := d[..|d| - 1];
      assert z[..|z| - 1] == "0" + init;
      assert z[|z| - 1] == d[|d| - 1];
      DigitsValueLeadingZero(init);
    }
  }

  /** `int("+" + d) == int(d)` for a run of digits `d`. */
  lemma ParseIntPlus(d: string)
    requires IsDigits(d)
    ensures ParseInt("+" + d) == ParseInt(d)
  {
    var s := "+" + d;
    assert s[0] == '+' && s[1..] == d;
    assert !IsDigits(s);
  }

  /** `int("0" + d) == int(d)` for a run of digits `d`: leading zeros are ignored. */
  lemma ParseIntLeadingZero(d: string)
    requires IsDigits(d)
    ensures ParseInt("0" + d) == ParseInt(d)
  {
    var s := "0" + d;
    assert forall i :: 1 <= i < |s| ==> s[i] == d[i - 1];
    assert IsDigits(s);
    DigitsValueLeadingZero(d);
  }

  /** `int("-" + d) == -int(d)` for a run of digits `d`, so `int("-0") == 0`. */
  lemma ParseIntMinus(d: string)
    requires IsDigits(d)
    ensures ParseInt("-" + d) == Some(-ParseInt(d).value)
  {
    var s := "-" + d;
    assert s[0] == '-' && s[1..] == d;
    assert !IsDigits(s);
  }

  /** A digit run that starts with a non-zero digit has a positive value. */
  lemma {:induction false} DigitsValuePositive(s: string)
    requires IsDigits(s) && s[0] != '0'
    ensures DigitsValue(s) > 0
  {
    if |s| > 1 {
      DigitsValuePositive(s[..|s| - 1]);
    }
  }

  /** A digit run without a leading zero is the canonical form of its value. */
  lemma {:induction false} ShowNatOfDigitsValue(s: string)
    requires IsDigits(s) && (s[0] == '0' ==> |s| == 1)
    ensures ShowNat(DigitsValue(s)) == s
  {
    if |s| > 1 {
      var init := s[..|s| - 1];
      DigitsValuePositive(init);
      ShowNatOfDigitsValue(init);
      var n := DigitsValue(s);
      assert n / 10 == DigitsValue(init) && n % 10 == DigitValue(s[|s| - 1]);
      assert s == init + [s[|s| - 1]];
    }
  }

  /**
   * Conversely, a literal in canonical form (no `+`, no leading zero, no `-0`)
   * is `str()` of the integer `int()` reads from it.
   */
  lemma ShowParseInt(s: string)
    requires IsIntLiteral(s) && s[0] != '+'
    requires s[0] == '0' ==> |s| == 1
    requires s[0] == '-' ==> s[1] != '0'
    ensures ShowInt(ParseInt(s).value) == s
  {
    if IsDigits(s) {
      ShowNatOfDigitsValue(s);
    } else {
      var digits := s[1..];
      ShowNatOfDigitsValue(digits);
      DigitsValuePositive(digits);
      var magnitude: int := DigitsValue(digits);
      assert ParseInt(s) == Some(-magnitude);
      assert ShowInt(-magnitude) == "-" + ShowNat(DigitsValue(digits));
      assert s == "-" + digits;
    }
  }

  /** Non-numeric text such as `abc` makes `int()` raise ValueError. */
  lemma ParseIntRejects(s: string, k: nat)
    requires k < |s| && !IsDigit(s[k]) && !(k == 0 && IsSign(s[k]))
    ensures ParseInt(s) == None
  {
    if k > 0 {
      assert s[1..][k - 1] == s[k];
    }
  }
}
