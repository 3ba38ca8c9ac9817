/** Decimal printing as `sprintf` does it, and its inverse. */
module Text {
  import opened Common

  function DigitChar(d: nat): char
    requires d < 10
  {
    "0123456789"[d]
  }

  predicate IsDigit(c: char) {
    '0' <= c <= '9'
  }

  predicate AllDigits(s: string) {
    forall i :: 0 <= i < |s| ==> IsDigit(s[i])
  }

  function DigitValue(c: char): (d: nat)
    requires IsDigit(c)
    ensures d < 10 && DigitChar(d) == c
  {
    (c as int) - ('0' as int)
  }

  /** "%d" of a natural number. */
  function Digits(n: nat): (s: string)
    ensures s != [] && AllDigits(s)
    ensures n > 0 ==> s[0] != '0'
  {
    if n < 10 then [DigitChar(n)] else Digits(n / 10) + [DigitChar(n % 10)]
  }

  /** "%d" of any integer. */
  function Decimal(n: int): (s: string)
    ensures s != []
  {
    if n < 0 then "-" + Digits(-n) else Digits(n)
  }

  /** The number that a string of digits denotes; leading zeros are allowed. */
  function Numeral(s: string): nat
    requires AllDigits(s)
  {
    if s == [] then 0 else 10 * Numeral(s[..|s| - 1]) + DigitValue(s[|s| - 1])
  }

  lemma {:induction false} NumeralOfDigits(n: nat)
    ensures Numeral(Digits(n)) == n
  {
    var s := Digits(n);
    if n < 10 {
      assert s[..0] == [];
    } else {
      assert s[..|s| - 1] == Digits(n / 10);
      NumeralOfDigits(n / 10);
    }
  }

  /** Reads back exactly the strings that Digits prints. */
  function ParseDigits(s: string): (r: Option<nat>)
    ensures r.Some? ==> Digits(r.value) == s
  {
    if AllDigits(s) && Digits(Numeral(s)) == s then Some(Numeral(s)) else None
  }

  /** Reads back exactly the strings that Decimal prints. */
  function ParseDecimal(s: string): Option<int> {
    match ParseDigits(s)
    case Some(n) => Some(n as int)
    case None =>
      if s != [] && s[0] == '-' then
        match ParseDigits(s[1..])
        case Some(n) => if n > 0 then Some(0 - (n as int)) else None
        case None => None
      else
        None
  }

  lemma {:induction false} ParseDigitsOfDigits(n: nat)
    ensures ParseDigits(Digits(n)) == Some(n)
  {
    NumeralOfDigits(n);
  }

  lemma {:induction false} MinusIsNoDigit(s: string)
    ensures ParseDigits("-" + s) == None
  {
    var t := "-" + s;
    assert !IsDigit(t[0]);
    assert !AllDigits(t);
  }

  lemma {:induction false} ParseDecimalOfDecimal(n: int)
    ensures ParseDecimal(Decimal(n)) == Some(n)
  {
    hide Digits, ParseDigits;
    if n < 0 {
      MinusIsNoDigit(Digits(-n));
      assert Decimal(n)[1..] == Digits(-n);
      ParseDigitsOfDigits(-n);
    } else {
      ParseDigitsOfDigits(n);
    }
  }

  lemma {:induction false} DecimalOfParsed(s: string)
    ensures ParseDecimal(s).Some? ==> Decimal(ParseDecimal(s).value) == s
  {
    hide Digits, ParseDigits;
    if ParseDecimal(s).Some? && ParseDigits(s) == None {
      assert s == "-" + s[1..];
    }
  }

  lemma {:induction false} DecimalInjective(m: int, n: int)
    requires Decimal(m) == Decimal(n)
    ensures m == n
  {
    ParseDecimalOfDecimal(m);
    ParseDecimalOfDecimal(n);
  }

  function Pow10(k: nat): nat {
    if k == 0 then 1 else 10 * Pow10(k - 1)
  }

  /** A number has at most k digits exactly when it is below 10^k. */
  lemma {:induction false} DigitsLength(n: nat, k: nat)
    requires k > 0
    ensures |Digits(n)| <= k <==> n < Pow10(k)
  {
    if k == 1 {
      assert Pow10(1) == 10 * Pow10(0);
    } else if n >= 10 {
      DigitsLength(n / 10, k - 1);
    } else {
      Pow10AtLeastTen(k);
    }
  }

  lemma {:induction false} Pow10AtLeastTen(k: nat)
    requires k > 0
    ensures Pow10(k) >= 10
  {
    if k > 1 {
      Pow10AtLeastTen(k - 1);
    }
  }
}
