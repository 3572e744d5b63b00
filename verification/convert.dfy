/**
 A stated stand-in for .NET's `Convert.ToInt32(string)` (the number style
 `Integer`: surrounding white space, an optional sign, decimal digits), and
 its partner `Show`, which writes an integer in decimal the way C#'s
 default formatting of an int does.
 */
module Convert {
  import opened Int32Math
  import opened Text

  /** What parsing a line yields: a value, a `FormatException` or an `OverflowException`. */
  datatype Parsed = Value(v: Int32) | BadFormat | OutOfRange

  predicate AllDigits(s: string) {
    forall i :: 0 <= i < |s| ==> IsDigit(s[i])
  }

  /** Every character a parsable line may contain. */
  predicate IsNumberChar(c: char) {
    IsDigit(c) || c == '+' || c == '-' || IsNumberWhite(c)
  }

  function DigitValue(c: char): (d: nat)
    requires IsDigit(c)
    ensures d < 10
  {
    c as int - '0' as int
  }

  function DigitChar(d: nat): (c: char)
    requires d < 10
    ensures IsDigit(c) && DigitValue(c) == d
  {
    (d + '0' as int) as char
  }

  /** The value of a string of decimal digits, most significant first. */
  function DigitsValue(s: string): nat
    requires AllDigits(s)
  {
    if s == [] then 0 else DigitsValue(s[..|s| - 1]) * 10 + DigitValue(s[|s| - 1])
  }

  /** Drops the parser's white space from the front. */
  function TrimStart(s: string): (t: string)
    ensures |t| <= |s| && t == s[|s| - |t|..]
    ensures t == [] || !IsNumberWhite(t[0])
    ensures forall i :: 0 <= i < |s| - |t| ==> IsNumberWhite(s[i])
    decreases |s|
  {
    if s != [] && IsNumberWhite(s[0]) then TrimStart(s[1..]) else s
  }

  /** Drops the parser's white space from the back. */
  function TrimEnd(s: string): (t: string)
    ensures |t| <= |s| && t == s[..|t|]
    ensures t == [] || !IsNumberWhite(t[|t| - 1])
    ensures forall i :: |t| <= i < |s| ==> IsNumberWhite(s[i])
    decreases |s|
  {
    if s != [] && IsNumberWhite(s[|s| - 1]) then TrimEnd(s[..|s| - 1]) else s
  }

  /** The sign of a trimmed literal and the digits after it. */
  function SplitSign(t: string): (bool, string)
  {
    if t != [] && t[0] == '-' then (true, t[1..])
    else if t != [] && t[0] == '+' then (false, t[1..])
    else (false, t)
  }

  /** The parser's white space stripped from both ends. */
  function Trim(s: string): string {
    TrimEnd(TrimStart(s))
  }

  /** Reads a literal that has no white space around it. */
  function ParseLiteral(t: string): Parsed {
    var (negative, digits) := SplitSign(t);
    if digits == [] || !AllDigits(digits) then BadFormat
    else
      var m: int := DigitsValue(digits);
      var n := if negative then -m else m;
      if InRange(n) then Value(n) else OutOfRange
  }

  /**
   `Convert.ToInt32(s)` for a non-null `s`: white space, an optional `+` or
   `-`, at least one ASCII digit, white space. Text of any other shape is a
   format error, even when its digits would also be out of range; a
   well-formed literal outside the int range is an overflow.
   */
  function ToInt32(s: string): (p: Parsed)
    ensures s == [] ==> p == BadFormat
  {
    ParseLiteral(Trim(s))
  }

  /** A line of nothing but parser white space holds no literal: a format error. */
  lemma WhiteLineIsBadFormat(s: string)
    requires forall i :: 0 <= i < |s| ==> IsNumberWhite(s[i])
    ensures ToInt32(s) == BadFormat
  {
  }

  /** The decimal digits of a natural number, without leading zeros. */
  function ShowNat(n: nat): (s: string)
    ensures s != [] && AllDigits(s)
    ensures DigitsValue(s) == n
    ensures s[0] == '0' ==> n == 0
  {
    if n < 10 then [DigitChar(n)]
    else
      var prefix := ShowNat(n / 10);
      var s := prefix + [DigitChar(n % 10)];
      assert s[..|s| - 1] == prefix;
      s
  }

  /** An integer in decimal, with a leading ASCII `-` when negative: C#'s `ToString()` of an int under the invariant culture. */
  function Show(n: int): (s: string)
    ensures s != [] && !IsNumberWhite(s[0]) && !IsNumberWhite(s[|s| - 1])
  {
    if n < 0 then "-" + ShowNat(-n) else ShowNat(n)
  }

  /** Different integers are written differently. */
  lemma {:induction false} ShowInjective(x: int, y: int)
    requires Show(x) == Show(y)
    ensures x == y
  {
    if x < 0 && y < 0 {
      assert Show(x)[1..] == ShowNat(-x);
      assert Show(y)[1..] == ShowNat(-y);
    }
  }

  /** A literal made of a sign and digits reads as its signed value, range permitting. */
  lemma ParseSignedDigits(negative: bool, digits: string)
    requires digits != [] && AllDigits(digits)
    ensures var m: int := DigitsValue(digits); var n := if negative then -m else m;
      ParseLiteral((if negative then "-" else "") + digits) == if InRange(n) then Value(n) else OutOfRange
  {
    var t := (if negative then "-" else "") + digits;
    if negative {
      assert t[1..] == digits;
    } else {
      assert t == digits;
      assert IsDigit(t[0]);
    }
  }

  /** Parsing what `Show` wrote gives the integer back, or an overflow when it is not an int. */
  lemma ParseShow(n: int)
    ensures ToInt32(Show(n)) == if InRange(n) then Value(n) else OutOfRange
  {
    var s := Show(n);
    TrimPadded([], s, []);
    assert [] + s + [] == s;
    var magnitude: nat := if n < 0 then -n else n;
    ParseSignedDigits(n < 0, ShowNat(magnitude));
  }

  /** `TrimStart` removes exactly the white padding in front of a text that starts with a non-white character. */
  lemma {:induction false} TrimStartPadded(pre: string, y: string)
    requires forall i :: 0 <= i < |pre| ==> IsNumberWhite(pre[i])
    requires y != [] && !IsNumberWhite(y[0])
    ensures TrimStart(pre + y) == y
    decreases |pre|
  {
    if pre != [] {
      assert (pre + y)[0] == pre[0];
      assert (pre + y)[1..] == pre[1..] + y;
      TrimStartPadded(pre[1..], y);
    } else {
      assert pre + y == y;
    }
  }

  /** `TrimEnd` removes exactly the white padding behind a text that ends with a non-white character. */
  lemma {:induction false} TrimEndPadded(y: string, post: string)
    requires forall i :: 0 <= i < |post| ==> IsNumberWhite(post[i])
    requires y != [] && !IsNumberWhite(y[|y| - 1])
    ensures TrimEnd(y + post) == y
    decreases |post|
  {
    if post != [] {
      var s := y + post;
      assert s[|s| - 1] == post[|post| - 1];
      assert s[..|s| - 1] == y + post[..|post| - 1];
      TrimEndPadded(y, post[..|post| - 1]);
    } else {
      assert y + post == y;
    }
  }

  /** Trimming removes exactly the white padding around a text that starts and ends with non-white characters. */
  lemma {:induction false} TrimPadded(pre: string, x: string, post: string)
    requires forall i :: 0 <= i < |pre| ==> IsNumberWhite(pre[i])
    requires forall i :: 0 <= i < |post| ==> IsNumberWhite(post[i])
    requires x != [] && !IsNumberWhite(x[0]) && !IsNumberWhite(x[|x| - 1])
    ensures Trim(pre + x + post) == x
  {
    assert pre + x + post == pre + (x + post);
    TrimStartPadded(pre, x + post);
    TrimEndPadded(x, post);
  }

  /** White space around a number does not change what it parses to. */
  lemma ParsePadded(pre: string, n: int, post: string)
    requires forall i :: 0 <= i < |pre| ==> IsNumberWhite(pre[i])
    requires forall i :: 0 <= i < |post| ==> IsNumberWhite(post[i])
    ensures ToInt32(pre + Show(n) + post) == ToInt32(Show(n))
  {
    var x := Show(n);
    TrimPadded(pre, x, post);
    TrimPadded([], x, []);
    assert [] + x + [] == x;
  }

  /** An explicit `+` in front of a non-negative number is accepted. */
  lemma ParsePlus(n: nat)
    ensures ToInt32("+" + Show(n)) == ToInt32(Show(n))
  {
    var s := "+" + Show(n);
    TrimPadded([], s, []);
    assert [] + s + [] == s;
    ParseShow(n);
    assert SplitSign(s) == (false, Show(n));
  }

  /**
   Any line with a character that cannot occur in an integer literal, such
   as a letter or a decimal point, is a format error.
   */
  lemma NonNumericIsBadFormat(s: string, i: int)
    requires 0 <= i < |s| && !IsNumberChar(s[i])
    ensures ToInt32(s) == BadFormat
  {
    var u := TrimStart(s);
    var k := |s| - |u|;
    var t := TrimEnd(u);
    assert t == Trim(s);
    assert !IsNumberWhite(s[i]);
    assert k <= i;
    assert s[i] == u[i - k];
    assert i - k < |t|;
    assert s[i] == t[i - k];
    var (negative, digits) := SplitSign(t);
    if t != [] && (t[0] == '-' || t[0] == '+') {
      assert i - k > 0;
      assert digits[i - k - 1] == s[i];
    } else {
      assert digits[i - k] == s[i];
    }
  }

  /** Lines that parse (to a value or to an overflow) hold only digits, signs and white space. */
  lemma NumericLine(s: string)
    requires ToInt32(s) != BadFormat
    ensures forall i :: 0 <= i < |s| ==> IsNumberChar(s[i])
  {
    forall i | 0 <= i < |s|
      ensures IsNumberChar(s[i])
    {
      if !IsNumberChar(s[i]) {
        NonNumericIsBadFormat(s, i);
      }
    }
  }

  /** Plain decimal lines parse to their values. */
  lemma SmallNumberExamples()
    ensures ToInt32("6") == Value(6)
    ensures ToInt32("3") == Value(3)
    ensures ToInt32("0") == Value(0)
  {
    ParseShow(6);
    ParseShow(3);
    ParseShow(0);
  }

  /** `ShowNat` appends the last digit to the digits of the rest. */
  lemma ShowNatStep(n: nat)
    requires n >= 10
    ensures ShowNat(n) == ShowNat(n / 10) + [DigitChar(n % 10)]
  {
  }

  /** The digits of 2^31, built one digit at a time. */
  lemma ShowTwoToThe31()
    ensures ShowNat(2147483648) == "2147483648"
  {
    assert ShowNat(2) == "2";
    ShowNatStep(21);
    assert ShowNat(21) == "21";
    ShowNatStep(214);
    assert ShowNat(214) == "214";
    ShowNatStep(2147);
    assert ShowNat(2147) == "2147";
    ShowNatStep(21474);
    assert ShowNat(21474) == "21474";
    ShowNatStep(214748);
    assert ShowNat(214748) == "214748";
    ShowNatStep(2147483);
    assert ShowNat(2147483) == "2147483";
    ShowNatStep(21474836);
    assert ShowNat(21474836) == "21474836";
    ShowNatStep(214748364);
    assert ShowNat(214748364) == "214748364";
    ShowNatStep(2147483648);
    assert ShowNat(2147483648) == "2147483648";
  }

  /** The most negative int is accepted. */
  lemma MinValueExample()
    ensures ToInt32("-2147483648") == Value(MinValue)
  {
    ParseShow(MinValue);
    ShowTwoToThe31();
    assert Show(MinValue) == "-2147483648";
  }

  /** One more than the largest int overflows. */
  lemma OverflowExample()
    ensures ToInt32("2147483648") == OutOfRange
  {
    ParseShow(2147483648);
    ShowTwoToThe31();
  }

  /** Surrounding spaces are skipped. */
  lemma PaddedExample()
    ensures ToInt32(" 7\t") == Value(7)
  {
    ParsePadded(" ", 7, "\t");
    ParseShow(7);
    assert " " + Show(7) + "\t" == " 7\t";
  }

  /** Words and decimal fractions are not integers. */
  lemma NotANumberExamples()
    ensures ToInt32("abc") == BadFormat
    ensures ToInt32("3.5") == BadFormat
  {
    NonNumericIsBadFormat("abc", 0);
    NonNumericIsBadFormat("3.5", 1);
  }
}
