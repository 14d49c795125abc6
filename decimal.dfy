/**
 * A hand-written decimal lexer and printer: the number syntax shared by the
 * milliseconds part of a `/Date(...)/` literal and by the `OffsetMinutes`
 * field of a DateTimeOffset object, `["-"] 1*DIGIT`.
 */
module Decimal {
  import opened Wrappers

  predicate IsDigit(c: char) {
    '0' <= c <= '9'
  }

  predicate AllDigits(s: string) {
    forall i | 0 <= i < |s| :: IsDigit(s[i])
  }

  function DigitValue(c: char): (d: nat)
    requires IsDigit(c)
    ensures d < 10
  {
    c as int - '0' as int
  }

  function DigitChar(d: nat): (c: char)
    requires d < 10
    ensures IsDigit(c) && DigitValue(c) == d
  {
    ('0' as int + d) as char
  }

  /** The text accepted as a signed integer: an optional minus sign and at least one digit. */
  predicate IsIntLiteral(s: string) {
    |s| > 0 &&
    if s[0] == '-' then |s| > 1 && AllDigits(s[1..]) else AllDigits(s)
  }

  /** The value of a run of digits, most significant first; 0 for the empty run. */
  function DigitsValue(s: string): nat
    requires AllDigits(s)
  {
    if |s| == 0 then 0 else 10 * DigitsValue(s[..|s| - 1]) + DigitValue(s[|s| - 1])
  }

  /** Reads a non-empty run of digits; None for anything else. */
  function ParseNat(s: string): (r: Option<nat>)
    ensures r.Some? <==> |s| > 0 && AllDigits(s)
  {
    if |s| > 0 && AllDigits(s) then Some(DigitsValue(s)) else None
  }

  /** Reads `["-"] 1*DIGIT`; the minus sign is kept on the value. */
  function ParseInt(s: string): (r: Option<int>)
    ensures r.Some? <==> IsIntLiteral(s)
    ensures r.Some? && s[0] == '-' ==> r.value <= 0
    ensures r.Some? && s[0] != '-' ==> r.value >= 0
  {
    if |s| > 0 && s[0] == '-' then
      match ParseNat(s[1..])
      case None => None
      case Some(v) => Some(-(v as int))
    else
      match ParseNat(s)
      case None => None
      case Some(v) => Some(v)
  }

  /** Shortest decimal text of n. */
  function NatToString(n: nat): (s: string)
    ensures AllDigits(s)
    ensures |s| == 1 <==> n < 10
    ensures n >= 100 ==> |s| >= 3
    ensures |s| > 0 && (s[0] == '0' ==> s == "0")
  {
    if n < 10 then [DigitChar(n)] else NatToString(n / 10) + [DigitChar(n % 10)]
  }

  /** Decimal text of i, with a leading minus sign exactly when i is negative. */
  function IntToString(i: int): (s: string)
    ensures IsIntLiteral(s)
    ensures s[0] == '-' <==> i < 0
    ensures s[0] == '0' ==> s == "0"
    ensures i < 0 ==> s[1] != '0'
  {
    if i < 0 then "-" + NatToString(-i) else NatToString(i)
  }

  /** `n` zero-padded to at least two digits (a `%02d` conversion). */
  function ZeroPad2(n: nat): (s: string)
    ensures AllDigits(s)
    ensures n < 100 ==> |s| == 2 && DigitValue(s[0]) * 10 + DigitValue(s[1]) == n
    ensures n >= 100 ==> |s| >= 3
  {
    if n < 10 then ['0'] + NatToString(n)
    else
      assert n < 100 ==> NatToString(n) == [DigitChar(n / 10), DigitChar(n % 10)];
      NatToString(n)
  }

  /** Printing a natural number and reading it back gives the number. */
  lemma {:induction false} ParseNatToString(n: nat)
    ensures ParseNat(NatToString(n)) == Some(n)
  {
    if n >= 10 {
      ParseNatToString(n / 10);
      ParseNatSnoc(NatToString(n / 10), DigitChar(n % 10));
      assert NatToString(n) == NatToString(n / 10) + [DigitChar(n % 10)];
    } else {
      ParseNatDigit(DigitChar(n));
    }
  }

  /** A single digit reads as its value. */
  lemma ParseNatDigit(c: char)
    requires IsDigit(c)
    ensures ParseNat([c]) == Some(DigitValue(c))
  {
    assert [c][..0] == [];
    assert DigitsValue([c]) == 10 * DigitsValue([]) + DigitValue(c);
  }

  /** Appending a digit to a run of digits multiplies its value by ten and adds the digit. */
  lemma ParseNatSnoc(s: string, c: char)
    requires |s| > 0 && AllDigits(s) && IsDigit(c)
    ensures ParseNat(s + [c]) == Some(10 * ParseNat(s).value + DigitValue(c))
  {
  }

  /** A run of digits that does not start with `0` has a positive value. */
  lemma {:induction false} DigitsValuePositive(s: string)
    requires |s| > 0 && AllDigits(s) && s[0] != '0'
    ensures DigitsValue(s) > 0
  {
    if |s| > 1 {
      var p := s[..|s| - 1];
      assert p[0] == s[0];
      DigitsValuePositive(p);
    }
  }

  /** A digit run with no leading zero (other than `0` itself) is the printed form of its value. */
  lemma {:induction false} NatToStringCanonical(s: string)
    requires |s| > 0 && AllDigits(s) && (s[0] == '0' ==> s == "0")
    ensures NatToString(DigitsValue(s)) == s
  {
    var n := DigitsValue(s);
    if |s| == 1 {
      assert s == [s[0]];
      assert DigitsValue(s) == 10 * DigitsValue(s[..0]) + DigitValue(s[0]);
      assert DigitChar(DigitValue(s[0])) == s[0];
    } else {
      var p, c := s[..|s| - 1], s[|s| - 1];
      assert p[0] == s[0] && s[0] != '0';
      DigitsValuePositive(p);
      NatToStringCanonical(p);
      assert n / 10 == DigitsValue(p) && n % 10 == DigitValue(c);
      assert DigitChar(DigitValue(c)) == c;
      assert s == p + [c];
    }
  }

  /**
   * A well-formed integer text with no leading zero and no `-0` is what
   * IntToString prints for its value: the printed form is the only canonical one.
   */
  lemma IntToStringCanonical(s: string)
    requires IsIntLiteral(s)
    requires s[0] == '0' ==> s == "0"
    requires s[0] == '-' ==> s[1] != '0'
    ensures IntToString(ParseInt(s).value) == s
  {
    if s[0] == '-' {
      var t := s[1..];
      DigitsValuePositive(t);
      NatToStringCanonical(t);
      assert s == "-" + t;
    } else {
      NatToStringCanonical(s);
    }
  }

  /** Printing an integer and reading it back gives the integer, sign included. */
  lemma ParseIntToString(i: int)
    ensures ParseInt(IntToString(i)) == Some(i)
  {
    var s := IntToString(i);
    if i < 0 {
      ParseNatToString(-i);
      assert s[1..] == NatToString(-i);
    } else {
      ParseNatToString(i);
    }
  }
}
