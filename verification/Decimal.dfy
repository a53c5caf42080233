/** Printing of unsigned numbers in base ten and base sixteen, without leading zeros. */
module Decimal {

  function Digit(d: nat): char
    requires d < 16
  {
    "0123456789abcdef"[d]
  }

  predicate IsDigit(c: char) {
    '0' <= c <= '9'
  }

  predicate IsHex(c: char) {
    IsDigit(c) || 'a' <= c <= 'f'
  }

  function Digits(n: nat): string {
    if n < 10 then [Digit(n)] else Digits(n / 10) + [Digit(n % 10)]
  }

  function Hex(n: nat): string {
    if n < 16 then [Digit(n)] else Hex(n / 16) + [Digit(n % 16)]
  }

  lemma DigitFacts(d: nat, e: nat)
    requires d < 16 && e < 16
    ensures IsHex(Digit(d)) && (d < 10 ==> IsDigit(Digit(d)))
    ensures Digit(d) == Digit(e) <==> d == e
  {
    assert "0123456789abcdef" == ['0', '1', '2', '3', '4', '5', '6', '7', '8', '9', 'a', 'b', 'c', 'd', 'e', 'f'];
  }

  lemma {:induction false} DigitsAre(n: nat)
    ensures Digits(n) != [] && forall i | 0 <= i < |Digits(n)| :: IsDigit(Digits(n)[i])
  {
    DigitFacts(n % 10, 0);
    if n >= 10 {
      DigitsAre(n / 10);
    }
  }

  /** Different numbers print differently. */
  lemma {:induction false} DigitsInjective(m: nat, n: nat)
    ensures Digits(m) == Digits(n) <==> m == n
  {
    var x, y := Digits(m), Digits(n);
    if x == y {
      DigitsAre(m / 10);
      DigitsAre(n / 10);
      assert x[|x| - 1] == Digit(m % 10) && y[|y| - 1] == Digit(n % 10);
      DigitFacts(m % 10, n % 10);
      if m >= 10 && n >= 10 {
        assert x[..|x| - 1] == Digits(m / 10) && y[..|y| - 1] == Digits(n / 10);
        DigitsInjective(m / 10, n / 10);
      }
    }
  }

  lemma {:induction false} HexAre(n: nat)
    ensures Hex(n) != [] && forall i | 0 <= i < |Hex(n)| :: IsHex(Hex(n)[i])
  {
    DigitFacts(n % 16, 0);
    if n >= 16 {
      HexAre(n / 16);
    }
  }

  function Pow16(k: nat): (n: nat)
    ensures n > 0
  {
    if k == 0 then 1 else 16 * Pow16(k - 1)
  }

  /** A number below 16^k prints in at most k hex digits. */
  lemma {:induction false} HexLength(n: nat, k: nat)
    requires k > 0 && n < Pow16(k)
    ensures |Hex(n)| <= k
  {
    if n >= 16 {
      HexLength(n / 16, k - 1);
    }
  }

  /** The value of a hex digit. */
  function HexDigit(c: char): nat {
    if '0' <= c <= '9' then c as int - '0' as int
    else if 'a' <= c <= 'f' then c as int - 'a' as int + 10
    else 0
  }

  /** Reading a number in base sixteen. */
  function ReadHex(s: string): nat {
    if s == [] then 0 else 16 * ReadHex(s[..|s| - 1]) + HexDigit(s[|s| - 1])
  }

  lemma HexDigitReads(d: nat)
    requires d < 16
    ensures HexDigit(Digit(d)) == d
  {
    assert "0123456789abcdef" == ['0', '1', '2', '3', '4', '5', '6', '7', '8', '9', 'a', 'b', 'c', 'd', 'e', 'f'];
  }

  /** What is printed reads back as the number it was printed from. */
  lemma {:induction false} HexReadsBack(n: nat)
    ensures ReadHex(Hex(n)) == n
  {
    HexDigitReads(n % 16);
    if n < 16 {
      assert Hex(n)[..0] == [];
    } else {
      HexReadsBack(n / 16);
      assert Hex(n)[..|Hex(n)| - 1] == Hex(n / 16);
    }
  }

  lemma {:induction false} HexNoLeadingZero(n: nat)
    ensures Hex(n) != [] && (Hex(n)[0] == '0' <==> n == 0) && (n == 0 ==> |Hex(n)| == 1)
  {
    DigitFacts(n % 16, 0);
    if n >= 16 {
      HexNoLeadingZero(n / 16);
    }
  }

  /** A number of at least 16^k prints in more than k hex digits. */
  lemma {:induction false} HexIsLong(n: nat, k: nat)
    requires n >= Pow16(k)
    ensures |Hex(n)| > k
  {
    if k > 0 {
      assert n >= 16 * Pow16(k - 1);
      HexIsLong(n / 16, k - 1);
    }
  }
}
