/** Decimal numerals: digits, their value, and the texts that formatting produces. */
module Decimal {

  predicate Digit(c: char) {
    '0' <= c <= '9'
  }

  lemma {:induction false} DigitIs(c: char)
    ensures Digit(c) <==> c in "0123456789"
  {
    assert forall i :: 0 <= i < 10 ==> "0123456789"[i] as int == '0' as int + i;
    if Digit(c) {
      assert "0123456789"[c as int - '0' as int] == c;
    }
  }

  predicate Digits(s: string) {
    forall i :: 0 <= i < |s| ==> Digit(s[i])
  }

  function DigitsValue(s: string): nat
    requires Digits(s)
  {
    if s == "" then 0 else 10 * DigitsValue(s[..|s| - 1]) + (s[|s| - 1] as int - '0' as int)
  }

  function DigitChar(d: nat): (c: char)
    requires d < 10
    ensures Digit(c) && c as int - '0' as int == d
  {
    ('0' as int + d) as char
  }

  function NatText(n: nat): (s: string)
    ensures s != "" && Digits(s)
  {
    (if n < 10 then "" else NatText(n / 10)) + [DigitChar(n % 10)]
  }

  function IntText(n: int): string {
    if n < 0 then "-" + NatText(-n) else NatText(n)
  }

  lemma {:induction false} NatTextValue(n: nat)
    ensures DigitsValue(NatText(n)) == n
  {
    var s := NatText(n);
    if n >= 10 {
      NatTextValue(n / 10);
      assert s[..|s| - 1] == NatText(n / 10);
    } else {
      assert s[..|s| - 1] == "";
    }
  }

  /** `format!("{:0w$}")` of a number that is not negative. */
  function PadNat(n: nat, w: nat): (s: string)
    ensures s != "" && Digits(s) && |s| >= w
  {
    if w <= 1 then NatText(n) else PadNat(n / 10, w - 1) + [DigitChar(n % 10)]
  }

  /** `format!("{:0w$}")`: the sign counts toward the width. */
  function PadInt(n: int, w: nat): string
    requires w > 0
  {
    if n < 0 then "-" + PadNat(-n, w - 1) else PadNat(n, w)
  }

  function Power10(w: nat): (p: nat)
    ensures p > 0
  {
    if w == 0 then 1 else 10 * Power10(w - 1)
  }

  lemma {:induction false} LastDigit(s: string, c: char)
    requires Digits(s) && Digit(c)
    ensures Digits(s + [c]) && DigitsValue(s + [c]) == 10 * DigitsValue(s) + (c as int - '0' as int)
  {
    assert (s + [c])[..|s|] == s;
  }

  lemma {:induction false} TenTimes(x: nat, p: nat, y: nat)
    ensures 10 * (x * p + y) == x * (10 * p) + 10 * y
  {
  }

  /** Digits followed by more digits. */
  lemma {:induction false} DigitsJoin(a: string, b: string)
    requires Digits(a) && Digits(b)
    ensures Digits(a + b) && DigitsValue(a + b) == DigitsValue(a) * Power10(|b|) + DigitsValue(b)
    decreases |b|
  {
    if b == "" {
      assert a + b == a;
    } else {
      var n := |b| - 1;
      var init, c := b[..n], b[n];
      assert b == init + [c] && a + b == (a + init) + [c];
      DigitsJoin(a, init);
      LastDigit(a + init, c);
      LastDigit(init, c);
      TenTimes(DigitsValue(a), Power10(n), DigitsValue(init));
      hide DigitsValue, Digits;
    }
  }

  lemma {:induction false} PadNatValue(n: nat, w: nat)
    ensures DigitsValue(PadNat(n, w)) == n
  {
    if w <= 1 {
      NatTextValue(n);
    } else {
      var s := PadNat(n, w);
      assert s[..|s| - 1] == PadNat(n / 10, w - 1);
      PadNatValue(n / 10, w - 1);
    }
  }

  /** A padded number has exactly the asked width as long as it fits. */
  lemma {:induction false} PadNatWidth(n: nat, w: nat)
    requires w > 0
    ensures |PadNat(n, w)| == w <==> n < Power10(w)
  {
    if w == 1 {
      assert Power10(1) == 10 * Power10(0);
    } else {
      PadNatWidth(n / 10, w - 1);
    }
  }
}
