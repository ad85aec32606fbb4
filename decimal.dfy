/**
 * Decimal text of integers: `strconv.Itoa`, used by `FEN` for the clocks, and
 * `strconv.Atoi`, used by `ParseFEN` to read them back; `fmt`'s `%v` of an int,
 * used for move numbers, writes the same text as `Itoa`.
 */
module Decimal {
  datatype Option<T> = Nothing | Some(value: T)

  predicate IsDigit(c: char)
  {
    '0' <= c <= '9'
  }

  /** The character of the decimal digit d. */
  function DigitChar(d: nat): (c: char)
    requires d < 10
    ensures IsDigit(c) && c as int - '0' as int == d
  {
    ('0' as int + d) as char
  }

  /** The value of a digit character. */
  function DigitValue(c: char): (d: nat)
    requires IsDigit(c)
    ensures d < 10 && DigitChar(d) == c
  {
    c as int - '0' as int
  }

  predicate AllDigits(s: string)
  {
    forall i :: 0 <= i < |s| ==> IsDigit(s[i])
  }

  /** The decimal digits of n, most significant first, with no leading zero. */
  function NatText(n: nat): (s: string)
    ensures |s| >= 1 && AllDigits(s)
    ensures |s| > 1 ==> s[0] != '0'
    decreases n
  {
    if n < 10 then [DigitChar(n)] else NatText(n / 10) + [DigitChar(n % 10)]
  }

  /** The number a string of digits spells. */
  function DigitsValue(s: string): nat
    requires AllDigits(s)
  {
    if s == [] then 0 else DigitsValue(s[..|s| - 1]) * 10 + DigitValue(s[|s| - 1])
  }

  /** Reading the digits of n gives back n. */
  lemma {:induction false} NatTextValue(n: nat)
    ensures DigitsValue(NatText(n)) == n
    decreases n
  {
    if n >= 10 {
      NatTextValue(n / 10);
      var s := NatText(n);
      assert s[..|s| - 1] == NatText(n / 10);
    }
  }

  /** `strconv.Itoa`: a minus sign for a negative number, then the digits of its magnitude. */
  function Itoa(n: int): (s: string)
    ensures |s| >= 1 && IsDigit(s[|s| - 1])
    ensures s[0] == '-' <==> n < 0
    ensures n >= 0 ==> AllDigits(s)
    ensures n < 0 ==> |s| >= 2 && AllDigits(s[1..])
  {
    if n < 0 then "-" + NatText(-n) else NatText(n)
  }

  /**
   * `strconv.Atoi`: an optional '+' or '-' and then one or more decimal
   * digits; any other text is a syntax error.
   */
  function Atoi(s: string): (r: Option<int>)
    ensures r.Some? ==> |s| >= 1 && IsDigit(s[|s| - 1])
    ensures s == [] ==> r.Nothing?
  {
    if |s| > 0 && (s[0] == '+' || s[0] == '-') then
      var d := s[1..];
      if d != [] && AllDigits(d) then
        var v: int := DigitsValue(d);
        Some(if s[0] == '-' then -v else v)
      else Nothing
    else if s != [] && AllDigits(s) then Some(DigitsValue(s))
    else Nothing
  }

  /** `Atoi` reads back what `Itoa` writes. */
  lemma AtoiItoa(n: int)
    ensures Atoi(Itoa(n)) == Some(n)
  {
    var s := Itoa(n);
    if n < 0 {
      var d := NatText(-n);
      NatTextValue(-n);
      assert s == "-" + d && s[1..] == d;
      assert AllDigits(d) && d != [];
      hide Itoa, NatText, DigitsValue;
      var v: int := DigitsValue(d);
      assert Atoi(s) == Some(-v);
    } else {
      NatTextValue(n);
      assert s == NatText(n) && s[0] != '+' && s[0] != '-';
      hide Itoa, NatText, DigitsValue;
      assert Atoi(s) == Some(DigitsValue(s));
    }
  }

  /** The texts `Itoa` writes are all different. */
  lemma ItoaInjective(m: int, n: int)
    ensures Itoa(m) == Itoa(n) ==> m == n
  {
    AtoiItoa(m);
    AtoiItoa(n);
  }

  /** `Itoa` writes neither a space, a dot nor a slash. */
  lemma ItoaChars(n: int)
    ensures forall i :: 0 <= i < |Itoa(n)| ==> Itoa(n)[i] != ' ' && Itoa(n)[i] != '.' && Itoa(n)[i] != '/'
  {
    var s := Itoa(n);
    forall i | 0 <= i < |s| ensures s[i] != ' ' && s[i] != '.' && s[i] != '/' {
      if n < 0 && i > 0 {
        assert s[i] == s[1..][i - 1];
      }
    }
  }
}
