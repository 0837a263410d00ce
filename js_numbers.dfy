/**
 * Decimal integers as JavaScript and validator.js read and write them:
 * `parseInt(s, 10)`, validator.js `isInt` with its default options, and the
 * decimal display of an integer (template literals, `String(n)`).
 */
module JsNumbers {
  import opened Wrappers
  import opened JsStrings

  predicate IsDigit(c: char) {
    '0' <= c <= '9'
  }

  predicate AllDigits(s: string) {
    forall i :: 0 <= i < |s| ==> IsDigit(s[i])
  }

  function DigitValue(c: char): (d: nat)
    requires IsDigit(c)
    ensures d < 10
  {
    (c as int) - ('0' as int)
  }

  /** The value of a string of decimal digits, most significant first. */
  function DigitsValue(s: string): nat
    requires AllDigits(s)
  {
    if s == [] then 0 else 10 * DigitsValue(s[..|s| - 1]) + DigitValue(s[|s| - 1])
  }

  /** The index of the first character at or after `from` that is not a digit (`|s|` if none). */
  function DigitEnd(s: string, from: nat): (k: nat)
    requires from <= |s|
    ensures from <= k <= |s|
    ensures forall i :: from <= i < k ==> IsDigit(s[i])
    ensures k == |s| || !IsDigit(s[k])
    decreases |s| - from
  {
    if from < |s| && IsDigit(s[from]) then DigitEnd(s, from + 1) else from
  }

  /** A run of digits from `lo` to `hi`, ended by the end of `s` or a non-digit, is what `DigitEnd` finds. */
  lemma {:induction false} DigitEndAt(s: string, lo: nat, hi: nat)
    requires lo <= hi <= |s|
    requires forall i :: lo <= i < hi ==> IsDigit(s[i])
    requires hi == |s| || !IsDigit(s[hi])
    ensures DigitEnd(s, lo) == hi
    decreases hi - lo
  {
    if lo < hi {
      DigitEndAt(s, lo + 1, hi);
    }
  }

  /** Where `parseInt` looks for a sign: after the leading white space. */
  function SignAt(s: string): (k: nat)
    ensures k <= |s|
  {
    SpaceEnd(s, 0)
  }

  /** Where the digits `parseInt` reads begin: after the leading white space and one optional sign. */
  function DigitsStart(s: string): (k: nat)
    ensures k <= |s|
  {
    var b := SignAt(s);
    if b < |s| && (s[b] == '-' || s[b] == '+') then b + 1 else b
  }

  /**
   * `parseInt(s, 10)`: leading white space is skipped, one sign is accepted,
   * then the longest run of digits is read and anything after it is ignored;
   * with no digit the result is NaN, here `None`.
   */
  function ParseInt(s: string): (r: Option<int>)
    ensures var k := DigitsStart(s); r.Some? <==> k < |s| && IsDigit(s[k])
  {
    var start := DigitsStart(s);
    var end := DigitEnd(s, start);
    var v: int := DigitsValue(s[start..end]);
    var b := SignAt(s);
    if end == start then None else Some(if b < |s| && s[b] == '-' then -v else v)
  }

  /** `s` after the optional sign of an integer literal. */
  function Unsigned(s: string): string {
    if s != [] && (s[0] == '-' || s[0] == '+') then s[1..] else s
  }

  predicate Negative(s: string) {
    s != [] && s[0] == '-'
  }

  /** The decimal digits of `n`, without leading zeros ("0" for zero). */
  function ShowNat(n: nat): (r: string)
    ensures r != [] && AllDigits(r)
    ensures n > 0 ==> r[0] != '0'
  {
    if n < 10 then [DigitChar(n)] else ShowNat(n / 10) + [DigitChar(n % 10)]
  }

  function DigitChar(d: nat): (c: char)
    requires d < 10
    ensures IsDigit(c) && DigitValue(c) == d
  {
    (('0' as int) + d) as char
  }

  /** `String(n)` for an integer. */
  function ShowInt(n: int): (r: string)
    ensures r != []
  {
    (if n < 0 then ['-'] else []) + ShowNat(if n < 0 then -n else n)
  }

  /** Reading the decimal display of `n` gives `n` back. */
  lemma {:induction false} DigitsOfShowNat(n: nat)
    ensures DigitsValue(ShowNat(n)) == n
  {
    if n >= 10 {
      DigitsOfShowNat(n / 10);
      var s := ShowNat(n);
      assert s[..|s| - 1] == ShowNat(n / 10);
    }
  }

  /**
   * `parseInt` reads the integer a decimal display starts with and stops at
   * the first character that is not a digit ("3abc" and "3.9" read as 3).
   */
  lemma ParseIntOfShowInt(n: int, rest: string)
    requires rest == [] || !IsDigit(rest[0])
    ensures ParseInt(ShowInt(n) + rest) == Some(n)
  {
    var sign: string := if n < 0 then ['-'] else [];
    var m: nat := if n < 0 then -n else n;
    DigitsOfShowNat(m);
    ParseIntOfDigits(sign, ShowNat(m), rest);
  }

  /** `parseInt` of an optional sign, digits, and text that does not start with a digit. */
  lemma ParseIntOfDigits(sign: string, digits: string, rest: string)
    requires sign == [] || sign == ['-'] || sign == ['+']
    requires digits != [] && AllDigits(digits)
    requires rest == [] || !IsDigit(rest[0])
    ensures var v: int := DigitsValue(digits);
            ParseInt(sign + digits + rest) == Some(if sign == ['-'] then -v else v)
  {
    var s := sign + digits + rest;
    var p := |sign|;
    assert s[0] == if sign == [] then digits[0] else sign[0];
    assert !IsSpace(s[0]);
    assert SignAt(s) == 0;
    assert DigitsStart(s) == p;
    forall i | p <= i < p + |digits|
      ensures IsDigit(s[i])
    {
      assert s[i] == digits[i - p];
    }
    if rest != [] {
      assert s[p + |digits|] == rest[0];
    }
    DigitEndAt(s, p, p + |digits|);
    assert s[p..p + |digits|] == digits;
  }

  /** `parseInt` of a decimal display is the displayed integer. */
  lemma ParseIntRoundTrip(n: int)
    ensures ParseInt(ShowInt(n)) == Some(n)
  {
    ParseIntOfShowInt(n, "");
    assert ShowInt(n) + "" == ShowInt(n);
  }

  /**
   * validator.js `isInt()` with its default options accepts exactly `^[-+]?[0-9]+$`;
   * this is the integer such a string denotes, or `None` when it is not of that form.
   */
  function IntLiteral(s: string): (r: Option<int>)
    ensures r.Some? <==> Unsigned(s) != [] && AllDigits(Unsigned(s))
  {
    var u := Unsigned(s);
    if u == [] || !AllDigits(u) then None
    else var v: int := DigitsValue(u); Some(if Negative(s) then -v else v)
  }

  /** What `isInt` accepts, `toInt` (that is, `parseInt`) reads as the same integer. */
  lemma IntLiteralParses(s: string)
    requires IntLiteral(s).Some?
    ensures ParseInt(s) == IntLiteral(s)
  {
    var u := Unsigned(s);
    var sign := s[..|s| - |u|];
    assert s == sign + u + "";
    ParseIntOfDigits(sign, u, "");
  }

  /** The decimal display of every integer is an integer literal for `isInt`. */
  lemma IntLiteralOfShowInt(n: int)
    ensures IntLiteral(ShowInt(n)) == Some(n)
  {
    var m: nat := if n < 0 then -n else n;
    DigitsOfShowNat(m);
    assert Unsigned(ShowInt(n)) == ShowNat(m);
  }
}
