/**
 Two facts about UTF-8 that do not mention decoding: the order of the bytes is
 the order of the characters (section 1 of RFC 3629), and the examples of section
 7 of the same document.
 */
module Utf8Order {
  import opened Strings
  import opened Utf8

  predicate BytesLess(a: seq<Byte>, b: seq<Byte>) {
    b != [] && (a == [] || a[0] < b[0] || (a[0] == b[0] && BytesLess(a[1..], b[1..])))
  }

  lemma {:induction false} SameHead(head: seq<Byte>, a: seq<Byte>, b: seq<Byte>)
    ensures BytesLess(head + a, head + b) <==> BytesLess(a, b)
  {
    if head == [] {
      assert head + a == a && head + b == b;
    } else {
      assert (head + a)[1..] == head[1..] + a && (head + b)[1..] == head[1..] + b;
      SameHead(head[1..], a, b);
    }
  }

  /** The first position at which two byte strings differ. */
  predicate DiffersAt(a: seq<Byte>, b: seq<Byte>, k: nat) {
    k < |a| && k < |b| && a[..k] == b[..k] && a[k] < b[k]
  }

  lemma {:induction false} DifferenceDecides(a: seq<Byte>, b: seq<Byte>, k: nat)
    requires DiffersAt(a, b, k)
    ensures BytesLess(a, b) && !BytesLess(b, a)
  {
    if k > 0 {
      assert a[0] == a[..k][0] == b[..k][0] == b[0];
      assert a[1..][..k - 1] == a[..k][1..] && b[1..][..k - 1] == b[..k][1..];
      DifferenceDecides(a[1..], b[1..], k - 1);
    }
  }

  /** Numbers of two, three and four digits to the base 64 compare digit by digit. */
  lemma {:induction false} TwoDigits(m: nat, n: nat)
    requires m < n
    ensures m / 64 < n / 64 || (m / 64 == n / 64 && m % 64 < n % 64)
  {
  }

  lemma {:induction false} ThreeDigits(m: nat, n: nat)
    requires m < n
    ensures m / 4096 < n / 4096 ||
      (m / 4096 == n / 4096 && (m / 64 % 64 < n / 64 % 64 || (m / 64 % 64 == n / 64 % 64 && m % 64 < n % 64)))
  {
    TwoDigits(m, n);
    assert m / 64 / 64 == m / 4096 && n / 64 / 64 == n / 4096;
    if m / 64 < n / 64 {
      TwoDigits(m / 64, n / 64);
    }
  }

  lemma {:induction false} FourDigits(m: nat, n: nat)
    requires m < n
    ensures m / 262144 < n / 262144 ||
      (m / 262144 == n / 262144 && (m / 4096 % 64 < n / 4096 % 64 ||
       (m / 4096 % 64 == n / 4096 % 64 && (m / 64 % 64 < n / 64 % 64 ||
        (m / 64 % 64 == n / 64 % 64 && m % 64 < n % 64)))))
  {
    ThreeDigits(m, n);
    assert m / 4096 / 64 == m / 262144 && n / 4096 / 64 == n / 262144;
    if m / 4096 < n / 4096 {
      TwoDigits(m / 4096, n / 4096);
    }
  }

  lemma {:induction false} CharOrder(c: char, d: char)
    requires c < d
    ensures exists k: nat :: DiffersAt(EncodeChar(c), EncodeChar(d), k)
  {
    var a, b := EncodeChar(c), EncodeChar(d);
    var k := Difference(c, d);
    hide EncodeChar;
    FirstDifference(a, b, k);
  }

  lemma {:induction false} FirstDifference(a: seq<Byte>, b: seq<Byte>, k: nat)
    requires k < |a| && k < |b| && k < 4 && a[k] < b[k]
    requires (0 < k ==> a[0] == b[0]) && (1 < k ==> a[1] == b[1]) && (2 < k ==> a[2] == b[2])
    ensures DiffersAt(a, b, k)
  {
  }

  lemma {:induction false} Difference(c: char, d: char) returns (k: nat)
    requires c < d
    ensures var a, b := EncodeChar(c), EncodeChar(d);
      k < |a| && k < |b| && k < 4 && a[k] < b[k] &&
      (0 < k ==> a[0] == b[0]) && (1 < k ==> a[1] == b[1]) && (2 < k ==> a[2] == b[2])
  {
    var m, n := c as int, d as int;
    if n < 0x800 {
      TwoDigits(m, n);
      k := if m < 0x80 || m / 64 < n / 64 then 0 else 1;
    } else if n < 0x10000 {
      ThreeDigits(m, n);
      k := if m < 0x800 || m / 4096 < n / 4096 then 0 else if m / 64 % 64 < n / 64 % 64 then 1 else 2;
    } else {
      FourDigits(m, n);
      k :=
        if m < 0x10000 || m / 262144 < n / 262144 then 0
        else if m / 4096 % 64 < n / 4096 % 64 then 1
        else if m / 64 % 64 < n / 64 % 64 then 2
        else 3;
    }
  }

  lemma {:induction false} DifferenceStays(a: seq<Byte>, b: seq<Byte>, x: seq<Byte>, y: seq<Byte>, k: nat)
    requires DiffersAt(a, b, k)
    ensures DiffersAt(a + x, b + y, k)
  {
    assert (a + x)[..k] == a[..k] && (b + y)[..k] == b[..k];
  }

  /** Texts compare by their bytes exactly as they compare by their characters. */
  lemma {:induction false} OrderKept(s: string, t: string)
    ensures BytesLess(Encode(s), Encode(t)) <==> TextLess(s, t)
  {
    if s != "" && t != "" {
      var x, y := Encode(s[1..]), Encode(t[1..]);
      assert Encode(s) == EncodeChar(s[0]) + x && Encode(t) == EncodeChar(t[0]) + y;
      hide EncodeChar, Encode;
      if s[0] == t[0] {
        SameHead(EncodeChar(s[0]), x, y);
        OrderKept(s[1..], t[1..]);
      } else {
        var c, d := if s[0] < t[0] then s[0] else t[0], if s[0] < t[0] then t[0] else s[0];
        CharOrder(c, d);
        var k: nat :| DiffersAt(EncodeChar(c), EncodeChar(d), k);
        DifferenceStays(EncodeChar(c), EncodeChar(d), if s[0] < t[0] then x else y, if s[0] < t[0] then y else x, k);
        DifferenceDecides(Encode(if s[0] < t[0] then s else t), Encode(if s[0] < t[0] then t else s), k);
      }
    }
  }

  /** Latin, Greek and mathematical characters, and one of four bytes. */
  lemma {:induction false} Examples()
    ensures EncodeChar('A') == [0x41] && EncodeChar(0x0391 as char) == [0xCE, 0x91]
    ensures EncodeChar(0x2262 as char) == [0xE2, 0x89, 0xA2]
    ensures EncodeChar(0x233B4 as char) == [0xF0, 0xA3, 0x8E, 0xB4]
  {
  }
}
