/** Decimal numerals, as streams print them and `lexical_cast` reads them. */
module Decimals {
  import opened Messages

  predicate IsDigitChar(c: char) {
    '0' <= c <= '9'
  }

  predicate IsNumeral(s: string) {
    s != [] && forall i :: 0 <= i < |s| ==> IsDigitChar(s[i])
  }

  function DigitChar(d: nat): char
    requires d < 10
  {
    '0' + d as char
  }

  function DigitValue(c: char): nat
    requires IsDigitChar(c)
  {
    (c - '0') as nat
  }

  /** The numeral of `n`. */
  function Decimal(n: nat): string {
    if n < 10 then [DigitChar(n)] else Decimal(n / 10) + [DigitChar(n % 10)]
  }

  /** The number a string of digits stands for. */
  function ValueOf(s: string): nat
    requires forall i :: 0 <= i < |s| ==> IsDigitChar(s[i])
  {
    if s == [] then 0 else 10 * ValueOf(s[..|s| - 1]) + DigitValue(s[|s| - 1])
  }

  /** `lexical_cast` to an integer type with the given maximum, on strings of digits; anything else is refused. */
  function LexicalCast(s: string, max: nat): Option<nat> {
    if IsNumeral(s) && ValueOf(s) <= max then Some(ValueOf(s)) else None
  }

  lemma {:induction false} DecimalIsNumeral(n: nat)
    ensures IsNumeral(Decimal(n)) && ValueOf(Decimal(n)) == n
  {
    var s := Decimal(n);
    if n >= 10 {
      DecimalIsNumeral(n / 10);
    }
    assert s[..|s| - 1] == if n < 10 then [] else Decimal(n / 10);
  }

  /** The ten digits, and no leading zeros: with the value of a numeral this fixes the text of every number. */
  lemma {:induction false} DecimalText(n: nat)
    ensures n > 0 ==> |Decimal(n)| > 0 && Decimal(n)[0] != '0'
    ensures Decimal(0) == "0"
    ensures forall c :: IsDigitChar(c) <==> c in "0123456789"
    ensures forall i :: 0 <= i < 10 ==> DigitValue("0123456789"[i]) == i
  {
    if n >= 10 {
      DecimalText(n / 10);
    }
  }

  lemma ValueOfOneMore(s: string, c: char)
    requires forall i :: 0 <= i < |s| ==> IsDigitChar(s[i])
    requires IsDigitChar(c)
    ensures ValueOf(s + [c]) == 10 * ValueOf(s) + DigitValue(c)
  {
    assert (s + [c])[..|s|] == s;
  }
}
