// Go's strconv.ParseInt(s, 10, 0) on a 64-bit machine, and strconv.FormatInt(x, 10).
module Numerals {
  import opened Options
  import opened Int64
  import opened Text

  predicate IsDigit(c: char) {
    '0' <= c <= '9'
  }

  predicate AllDigits(s: string) {
    forall i :: 0 <= i < |s| ==> IsDigit(s[i])
  }

  function DigitValue(c: char): nat
    requires IsDigit(c)
  {
    c as int - '0' as int
  }

  function DigitChar(d: nat): (c: char)
    requires d < 10
    ensures IsDigit(c) && DigitValue(c) == d
  {
    ('0' as int + d) as char
  }

  /** The number a digit string denotes; leading zeros are allowed. */
  function Value(s: string): nat
    requires AllDigits(s)
  {
    if s == "" then 0 else 10 * Value(s[..|s| - 1]) + DigitValue(s[|s| - 1])
  }

  /** Decimal digits without leading zeros. */
  function Digits(n: nat): (s: string)
    ensures s != "" && AllDigits(s)
  {
    if n < 10 then [DigitChar(n)] else Digits(n / 10) + [DigitChar(n % 10)]
  }

  function Magnitude(x: int): nat {
    if x < 0 then -x else x
  }

  function FormatInt(x: int): string {
    (if x < 0 then "-" else "") + Digits(Magnitude(x))
  }

  /** None stands for both a syntax error and a value out of the int64 range. */
  function ParseInt(s: string): (r: Option<int64>) {
    var negative := s != "" && s[0] == '-';
    var body := if s != "" && s[0] in "+-" then s[1..] else s;
    if body == "" || !AllDigits(body) then None
    else
      var x: int := if negative then -(Value(body) as int) else Value(body);
      if Fits(x) then Some(x) else None
  }

  lemma {:induction false} ValueDigits(n: nat)
    ensures Value(Digits(n)) == n
  {
    if n >= 10 {
      ValueDigits(n / 10);
      assert Digits(n)[..|Digits(n)| - 1] == Digits(n / 10);
    }
  }

  lemma UnsignedIsRead(digits: string)
    requires digits != "" && AllDigits(digits)
    ensures ParseInt(digits) == if Fits(Value(digits)) then Some(Value(digits)) else None
  {
    assert IsDigit(digits[0]);
  }

  lemma SignedIsRead(sign: char, digits: string)
    requires (sign == '+' || sign == '-') && digits != "" && AllDigits(digits)
    ensures var x: int := if sign == '-' then 0 - Value(digits) else Value(digits);
      ParseInt([sign] + digits) == if Fits(x) then Some(x) else None
  {
    var s := [sign] + digits;
    assert s[1..] == digits && s[0] == sign && s[0] in "+-";
  }

  /** Parsing undoes formatting on every int64. */
  lemma ParseFormat(x: int64)
    ensures ParseInt(FormatInt(x)) == Some(x)
  {
    var n: nat := Magnitude(x);
    ValueDigits(n);
    if x < 0 {
      assert FormatInt(x) == ['-'] + Digits(n);
      SignedIsRead('-', Digits(n));
    } else {
      assert FormatInt(x) == Digits(n);
      UnsignedIsRead(Digits(n));
    }
  }

  /** A numeral is a sign and digits. */
  predicate NumeralChar(c: char) {
    IsDigit(c) || c == '-' || c == '+'
  }

  lemma ParseIntChars(s: string)
    requires ParseInt(s).Some?
    ensures s != "" && forall c :: c in s ==> NumeralChar(c)
  {
    forall c | c in s
      ensures NumeralChar(c)
    {
      var i :| 0 <= i < |s| && s[i] == c;
      if i > 0 && s[0] in "+-" {
        assert s[1..][i - 1] == c;
      }
    }
  }

  lemma FormatIntChars(x: int)
    ensures IsWord(FormatInt(x))
    ensures forall c :: c in FormatInt(x) ==> IsDigit(c) || c == '-'
    ensures '-' in FormatInt(x) <==> x < 0
  {
    var s := FormatInt(x);
    forall c | c in s
      ensures IsDigit(c) || (c == '-' && x < 0)
    {
      var i :| 0 <= i < |s| && s[i] == c;
      if x < 0 && i > 0 { assert s[i] == Digits(Magnitude(x))[i - 1]; }
    }
    if x < 0 { assert s[0] == '-'; }
    forall i | 0 <= i < |s|
      ensures !IsSpace(s[i])
    {
      assert s[i] in s;
    }
  }

  function Pow10(k: nat): nat {
    if k == 0 then 1 else 10 * Pow10(k - 1)
  }

  lemma {:induction false} DigitsLength(n: nat, k: nat)
    requires n < Pow10(k) && k > 0
    ensures |Digits(n)| <= k
  {
    if n >= 10 {
      DigitsLength(n / 10, k - 1);
    }
  }

  /** An int64 numeral has at most 20 characters. */
  lemma FormatIntLength(x: int64)
    ensures |FormatInt(x)| <= 20
  {
    var n: nat := Magnitude(x);
    assert Fits(x) && n <= -MIN;
    assert Pow10(5) == 100_000;
    assert Pow10(10) == 10_000_000_000;
    assert Pow10(15) == 1_000_000_000_000_000;
    assert Pow10(19) == 10_000_000_000_000_000_000;
    DigitsLength(n, 19);
  }

  // ----- the language of numerals ------------------------------------------------------------

  lemma Shift(p: nat, v: nat, w: nat, d: nat)
    ensures 10 * (p * v + w) + d == 10 * p * v + (10 * w + d)
  {
  }

  lemma ValueSnoc(s: string, c: char)
    requires AllDigits(s) && IsDigit(c)
    ensures AllDigits(s + [c]) && Value(s + [c]) == 10 * Value(s) + DigitValue(c)
  {
    assert (s + [c])[..|s|] == s;
  }

  /** A text of digits is worth what its first part is worth, shifted, and what its second part is worth. */
  lemma {:induction false} ValueAppend(a: string, b: string)
    requires AllDigits(a) && AllDigits(b)
    ensures Value(a + b) == Pow10(|b|) * Value(a) + Value(b)
  {
    if b == "" {
      assert a + b == a;
    } else {
      var front, c := b[..|b| - 1], b[|b| - 1];
      assert b == front + [c] && a + b == (a + front) + [c];
      ValueAppend(a, front);
      ValueSnoc(a + front, c);
      ValueSnoc(front, c);
      Shift(Pow10(|front|), Value(a), Value(front), DigitValue(c));
    }
  }

  predicate IsSign(sign: string) {
    sign == "" || sign == "+" || sign == "-"
  }

  /** The text is an optional sign and at least one digit. */
  predicate Spells(s: string, sign: string, digits: string) {
    IsSign(sign) && digits != "" && AllDigits(digits) && s == sign + digits
  }

  function Signed(sign: string, n: nat): int {
    if sign == "-" then 0 - n else n
  }

  lemma SpelledIsRead(s: string, sign: string, digits: string)
    requires Spells(s, sign, digits)
    ensures ParseInt(s) == if Fits(Signed(sign, Value(digits))) then Some(Signed(sign, Value(digits))) else None
  {
    if sign == "" {
      assert s == digits;
      UnsignedIsRead(digits);
    } else {
      assert s == [sign[0]] + digits;
      SignedIsRead(sign[0], digits);
    }
  }

  /** A text is read as x if and only if it spells x; leading zeros are allowed. */
  lemma ParseIntLanguage(s: string, x: int64)
    ensures ParseInt(s) == Some(x) <==>
      exists sign, digits :: Spells(s, sign, digits) && Signed(sign, Value(digits)) == x
  {
    forall sign, digits | Spells(s, sign, digits)
      ensures ParseInt(s) == Some(x) <==> Signed(sign, Value(digits)) == x
    {
      SpelledIsRead(s, sign, digits);
    }
    if ParseInt(s) == Some(x) {
      if s[0] in "+-" {
        assert s == s[..1] + s[1..] && (s[..1] == "+" || s[..1] == "-");
        assert Spells(s, s[..1], s[1..]);
      } else {
        assert s == "" + s;
        assert Spells(s, "", s);
      }
    }
  }
}
