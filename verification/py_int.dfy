/**
 * Python 2.7's `int(s)` on a string, base 10: optional white space, an optional
 * sign, optional white space, one or more decimal digits, optional white space.
 * Anything else raises `ValueError`, modelled here as `None`.
 */
module PyInt {
  import opened Wrappers

  /** White space as C's `isspace` sees it: space, \t, \n, \v, \f, \r. */
  predicate IsSpace(c: char) {
    c == ' ' || (9 <= c as int <= 13)
  }

  predicate IsDigit(c: char) {
    '0' <= c <= '9'
  }

  predicate IsSign(c: char) {
    c == '+' || c == '-'
  }

  predicate AllDigits(s: string) {
    forall i :: 0 <= i < |s| ==> IsDigit(s[i])
  }

  /** Characters that may appear in a string `int` accepts. */
  predicate IsNumeralChar(c: char) {
    IsSpace(c) || IsDigit(c) || IsSign(c)
  }

  function DigitValue(c: char): (v: nat)
    requires IsDigit(c)
    ensures v < 10
  {
    c as int - '0' as int
  }

  /** The value of a string of decimal digits, most significant first. */
  function DigitsValue(s: string): nat
    requires AllDigits(s)
  {
    if s == [] then 0 else 10 * DigitsValue(s[..|s| - 1]) + DigitValue(s[|s| - 1])
  }

  /** `s` without its leading white space. */
  function TrimLeft(s: string): (r: string)
    ensures |r| <= |s| && r == s[|s| - |r|..]
    ensures forall i :: 0 <= i < |s| - |r| ==> IsSpace(s[i])
    ensures r != [] ==> !IsSpace(r[0])
  {
    if s != [] && IsSpace(s[0]) then TrimLeft(s[1..]) else s
  }

  /** `s` without its trailing white space. */
  function TrimRight(s: string): (r: string)
    ensures |r| <= |s| && r == s[..|r|]
    ensures forall i :: |r| <= i < |s| ==> IsSpace(s[i])
    ensures r != [] ==> !IsSpace(r[|r| - 1])
  {
    if s != [] && IsSpace(s[|s| - 1]) then TrimRight(s[..|s| - 1]) else s
  }

  /** `int(s)`, or `None` where Python raises `ValueError`. */
  function ParseInt(s: string): Option<int> {
    ParseTrimmed(TrimLeft(TrimRight(s)))
  }

  /** `int` on a string with no white space at either end. */
  function ParseTrimmed(t: string): Option<int> {
    if t != [] && IsSign(t[0]) then
      var d := TrimLeft(t[1..]);
      if d != [] && AllDigits(d) then
        var v: int := DigitsValue(d);
        Some(if t[0] == '-' then -v else v)
      else None
    else if t != [] && AllDigits(t) then Some(DigitsValue(t))
    else None
  }

  /** The decimal numeral of a natural number, as `str(n)` writes it. */
  function ShowNat(n: nat): (r: string)
    ensures r != [] && AllDigits(r)
  {
    if n < 10 then ['0' + n as char] else ShowNat(n / 10) + ['0' + (n % 10) as char]
  }

  /** The decimal numeral of an integer, as `str(n)` writes it. */
  function Show(n: int): string {
    if n < 0 then "-" + ShowNat(-n) else ShowNat(n)
  }

  lemma {:induction false} DigitsValueShowNat(n: nat)
    ensures DigitsValue(ShowNat(n)) == n
  {
    if n >= 10 {
      var s := ShowNat(n);
      assert s[..|s| - 1] == ShowNat(n / 10);
      DigitsValueShowNat(n / 10);
    }
  }

  /** A string that does not start with white space is its own left trim. */
  lemma TrimLeftStops(s: string)
    requires s == [] || !IsSpace(s[0])
    ensures TrimLeft(s) == s
  {
  }

  /** A string that does not end with white space is its own right trim. */
  lemma TrimRightStops(s: string)
    requires s == [] || !IsSpace(s[|s| - 1])
    ensures TrimRight(s) == s
  {
  }

  /** A numeral parses to its value. */
  lemma ParseNumeral(m: nat)
    ensures ParseInt(ShowNat(m)) == Some(m)
  {
    var digits := ShowNat(m);
    DigitsValueShowNat(m);
    TrimRightStops(digits);
    TrimLeftStops(digits);
    assert !IsSign(digits[0]);
    assert ParseTrimmed(digits) == Some(m);
  }

  /** A minus sign before a numeral parses to the negated value. */
  lemma ParseNegativeNumeral(m: nat)
    ensures ParseInt("-" + ShowNat(m)) == Some(-(m as int))
  {
    var digits := ShowNat(m);
    var s := "-" + digits;
    assert s[|s| - 1] == digits[|digits| - 1];
    TrimRightStops(s);
    TrimLeftStops(s);
    assert s[1..] == digits;
    TrimLeftStops(digits);
    DigitsValueShowNat(m);
    assert ParseTrimmed(s) == Some(-(m as int));
  }

  /** `int(str(n)) == n`: every integer's own numeral parses back to it. */
  lemma ParseShow(n: int)
    ensures ParseInt(Show(n)) == Some(n)
  {
    if n < 0 {
      var m: nat := -n;
      assert Show(n) == "-" + ShowNat(m);
      ParseNegativeNumeral(m);
    } else {
      assert Show(n) == ShowNat(n);
      ParseNumeral(n);
    }
  }

  /** A string holding any character other than white space, a digit or a sign is never an integer. */
  lemma ParseRejectsForeignChar(s: string, k: int)
    requires 0 <= k < |s| && !IsNumeralChar(s[k])
    ensures ParseInt(s) == None
  {
    var r := TrimRight(s);
    var t := TrimLeft(r);
    assert k < |r|;
    assert r[k] == s[k];
    var j := k - (|r| - |t|);
    assert 0 <= j < |t| && t[j] == s[k];
    if t != [] && IsSign(t[0]) {
      var d := TrimLeft(t[1..]);
      assert j >= 1;
      assert 0 <= j - 1 - (|t| - 1 - |d|) < |d|;
      assert d[j - 1 - (|t| - 1 - |d|)] == s[k];
    }
  }
}
