/** Integers as decimal text. */
module Decimals {
  function DigitsOf(n: nat): (text: string)
    ensures IsDigits(text)
  {
    if n < 10 then [('0' as int + n) as char] else DigitsOf(n / 10) + [('0' as int + n % 10) as char]
  }

  function IntText(n: int): (text: string)
    ensures text != [] && (text[0] == '-' || '0' <= text[0] <= '9')
  {
    if n < 0 then "-" + DigitsOf(-n) else DigitsOf(n)
  }

  predicate IsDigits(s: string) {
    s != [] && forall i :: 0 <= i < |s| ==> '0' <= s[i] <= '9'
  }

  function ParsedDigits(s: string): nat
    requires forall i :: 0 <= i < |s| ==> '0' <= s[i] <= '9'
  {
    if s == [] then 0 else ParsedDigits(s[..|s| - 1]) * 10 + (s[|s| - 1] as int - '0' as int)
  }

  /** Reading a number's digits gives the number. */
  lemma {:induction false} DigitsParseBack(n: nat)
    ensures ParsedDigits(DigitsOf(n)) == n
  {
    if n >= 10 {
      DigitsParseBack(n / 10);
      var text := DigitsOf(n);
      assert text[..|text| - 1] == DigitsOf(n / 10);
    } else {
      assert DigitsOf(n)[..0] == [];
    }
  }

  /** Different integers have different texts. */
  lemma IntTextIsInjective(a: int, b: int)
    requires IntText(a) == IntText(b)
    ensures a == b
  {
    DigitsParseBack(if a < 0 then -a else a);
    DigitsParseBack(if b < 0 then -b else b);
    if a < 0 && b < 0 {
      assert IntText(a)[1..] == DigitsOf(-a) && IntText(b)[1..] == DigitsOf(-b);
    }
  }

  /** Digits are shown most significant first, without leading zeros, after a minus sign for a negative number. */
  lemma IntTextReads()
    ensures IntText(0) == "0" && IntText(7) == "7" && IntText(42) == "42" && IntText(-305) == "-305"
  {
    assert DigitsOf(42) == DigitsOf(4) + ['2'];
    assert DigitsOf(30) == DigitsOf(3) + ['0'];
    assert DigitsOf(305) == DigitsOf(30) + ['5'];
  }
}
