/**
 * Decimal integer parsing as done by Go's strconv.Atoi on a 64-bit platform:
 * an optional '+' or '-', then one or more ASCII digits, with the value in
 * the int64 range. Every other input is an error.
 */
module Strconv {
  import opened Wrappers

  const MinInt64: int := -0x8000_0000_0000_0000
  const MaxInt64: int := 0x7fff_ffff_ffff_ffff

  predicate IsDigit(c: char)
  {
    '0' <= c <= '9'
  }

  predicate AllDigits(s: string)
  {
    forall i :: 0 <= i < |s| ==> IsDigit(s[i])
  }

  function DigitValue(c: char): (d: nat)
    requires IsDigit(c)
    ensures d < 10
  {
    c as int - '0' as int
  }

  function DigitChar(d: nat): (c: char)
    requires d < 10
    ensures IsDigit(c) && DigitValue(c) == d
  {
    ('0' as int + d) as char
  }

  /** The value of a string of decimal digits, most significant first. */
  function DigitsValue(s: string): nat
    requires AllDigits(s)
  {
    if s == [] then 0 else DigitsValue(s[..|s| - 1]) * 10 + DigitValue(s[|s| - 1])
  }

  /** strconv.Atoi: None for a syntax error or a value outside int64. */
  function Atoi(s: string): (r: Option<int>)
    ensures r.Some? ==> MinInt64 <= r.value <= MaxInt64
    ensures r.Some? ==> |s| > 0 && AllDigits(Unsigned(s)) && |Unsigned(s)| > 0
    ensures r.Some? ==> r.value == Signed(s[0], DigitsValue(Unsigned(s)))
    ensures |s| == 0 ==> r.None?
    ensures (|s| > 0 && |Unsigned(s)| > 0 && AllDigits(Unsigned(s))
             && MinInt64 <= Signed(s[0], DigitsValue(Unsigned(s))) <= MaxInt64) ==> r.Some?
  {
    if |s| == 0 then None
    else
      var digits := Unsigned(s);
      if |digits| == 0 || !AllDigits(digits) then None
      else
        var v := Signed(s[0], DigitsValue(digits));
        if MinInt64 <= v <= MaxInt64 then Some(v) else None
  }

  /** The magnitude with the sign given by the first character: negative only after '-'. */
  function Signed(first: char, magnitude: nat): (v: int)
    ensures first == '-' ==> v == 0 - magnitude
    ensures first != '-' ==> v == magnitude
  {
    if first == '-' then 0 - magnitude else magnitude
  }

  /** The string without its leading sign character, if it has one. */
  function Unsigned(s: string): (u: string)
    requires |s| > 0
    ensures u == s[1..] || u == s
  {
    if s[0] == '-' || s[0] == '+' then s[1..] else s
  }

  /** Shortest decimal digits of a natural number (DigitsValue reads it back). */
  function NatDigits(n: nat): (s: string)
    ensures |s| > 0 && AllDigits(s)
    ensures IsDigit(s[0])
  {
    if n < 10 then [DigitChar(n)] else NatDigits(n / 10) + [DigitChar(n % 10)]
  }

  /** strconv.Itoa: the decimal form of an integer, with '-' for negatives. */
  function Itoa(n: int): (s: string)
    ensures |s| > 0
  {
    if n < 0 then "-" + NatDigits(-n) else NatDigits(n)
  }

  lemma {:induction false} DigitsValueOfNatDigits(n: nat)
    ensures DigitsValue(NatDigits(n)) == n
  {
    var s := NatDigits(n);
    if n >= 10 {
      DigitsValueOfNatDigits(n / 10);
      assert s[..|s| - 1] == NatDigits(n / 10);
    }
  }

  /** Atoi accepts a leading '+', leading zeros and a negative zero, as Go's does. */
  lemma AtoiAcceptsNonCanonical()
    ensures Atoi("+7") == Some(7)
    ensures Atoi("007") == Some(7)
    ensures Atoi("-0") == Some(0)
    ensures Atoi("7") == Some(7)
    ensures Atoi("+") == None && Atoi("7s") == None
  {
    assert Unsigned("+7") == "7" && DigitsValue("7") == 7;
    assert "007"[..2] == "00" && "00"[..1] == "0";
    assert DigitsValue("007") == 7;
    assert Unsigned("-0") == "0";
    assert !IsDigit("7s"[1]);
  }

  /** Atoi undoes Itoa on every int64. */
  lemma AtoiItoa(n: int)
    requires MinInt64 <= n <= MaxInt64
    ensures Atoi(Itoa(n)) == Some(n)
  {
    var s := Itoa(n);
    if n < 0 {
      assert Unsigned(s) == NatDigits(-n);
      DigitsValueOfNatDigits(-n);
    } else {
      assert Unsigned(s) == NatDigits(n);
      DigitsValueOfNatDigits(n);
    }
  }
}
