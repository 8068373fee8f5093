/**
 * Decimal text of natural numbers: `Number.prototype.toString()` for matchday numbers, `parseInt`
 * on the digit strings it produces, and the zero-padded fixed-width fields of a `yyyy-MM-dd` key.
 */
module Decimal {
  import opened Ordering

  predicate IsDigit(c: char)
  {
    '0' <= c <= '9'
  }

  predicate AllDigits(s: string)
  {
    forall i :: 0 <= i < |s| ==> IsDigit(s[i])
  }

  function DigitChar(d: nat): (c: char)
    requires d < 10
    ensures IsDigit(c) && c as int - '0' as int == d
  {
    ('0' as int + d) as char
  }

  function DigitValue(c: char): (d: nat)
    requires IsDigit(c)
    ensures d < 10 && DigitChar(d) == c
  {
    c as int - '0' as int
  }

  /** `n.toString()` for a non-negative integer: no leading zeros, at least one digit. */
  function ShowNat(n: nat): (s: string)
    ensures |s| > 0 && AllDigits(s)
    ensures |s| > 1 ==> s[0] != '0'
    decreases n
  {
    if n < 10 then [DigitChar(n)] else ShowNat(n / 10) + [DigitChar(n % 10)]
  }

  /** `parseInt` of a string made only of decimal digits. */
  function ParseDigits(s: string): nat
    requires AllDigits(s)
  {
    if |s| == 0 then 0 else ParseDigits(s[..|s| - 1]) * 10 + DigitValue(s[|s| - 1])
  }

  lemma {:induction false} ParseShow(n: nat)
    ensures ParseDigits(ShowNat(n)) == n
    decreases n
  {
    if n >= 10 {
      var s := ShowNat(n);
      assert s[..|s| - 1] == ShowNat(n / 10);
      ParseShow(n / 10);
    }
  }

  /** Distinct numbers have distinct decimal texts. */
  lemma ShowNatInjective(m: nat, n: nat)
    requires ShowNat(m) == ShowNat(n)
    ensures m == n
  {
    ParseShow(m);
    ParseShow(n);
  }

  function Pow10(w: nat): (p: nat)
    ensures p >= 1
  {
    if w == 0 then 1 else 10 * Pow10(w - 1)
  }

  /** The last `w` decimal digits of `n`, padded on the left with zeros (`yyyy`, `MM`, `dd`). */
  function Padded(n: nat, w: nat): (s: string)
    ensures |s| == w && AllDigits(s)
  {
    if w == 0 then [] else Padded(n / 10, w - 1) + [DigitChar(n % 10)]
  }

  /** For numbers that fit the width, string order of the padded texts is numeric order. */
  lemma {:induction false} PaddedOrder(a: nat, b: nat, w: nat)
    requires a < Pow10(w) && b < Pow10(w)
    ensures LexLe(Codes(Padded(a, w)), Codes(Padded(b, w))) <==> a <= b
    ensures Padded(a, w) == Padded(b, w) <==> a == b
  {
    if w == 0 {
      assert a == 0 && b == 0;
    } else {
      var pa, pb := Padded(a / 10, w - 1), Padded(b / 10, w - 1);
      var da, db := [DigitChar(a % 10)], [DigitChar(b % 10)];
      PaddedOrder(a / 10, b / 10, w - 1);
      CodesAppend(pa, da);
      CodesAppend(pb, db);
      LexLeAppend(Codes(pa), Codes(pb), Codes(da), Codes(db));
      if pa == pb {
        assert a / 10 == b / 10;
      } else {
        assert a / 10 != b / 10;
        assert Codes(pa) != Codes(pb);
      }
      if Padded(a, w) == Padded(b, w) {
        assert pa == Padded(a, w)[..w - 1] == pb;
        assert Padded(a, w)[w - 1] == DigitChar(a % 10);
        assert Padded(b, w)[w - 1] == DigitChar(b % 10);
      }
    }
  }
}
