/**
 UTF-8, the form in which the source's `&str` arguments reach byte-level code
 (sections 3 and 4 of RFC 3629). A Dafny `char` is a Unicode scalar value, so a
 Rust `String` is a Dafny `string` and `as_bytes` is `Encode`.
 */
module Utf8 {
  import opened Wrappers

  type Byte = b: int | 0 <= b < 256

  function EncodeChar(c: char): (bs: seq<Byte>)
    ensures 1 <= |bs| <= 4
    ensures |bs| == Width(bs[0])
    ensures bs[0] < 0x80 <==> c as int < 0x80
    ensures c as int < 0x80 ==> bs == [c as int]
  {
    var n := c as int;
    if n < 0x80 then [n]
    else if n < 0x800 then [0xC0 + n / 64, 0x80 + n % 64]
    else if n < 0x10000 then [0xE0 + n / 4096, 0x80 + n / 64 % 64, 0x80 + n % 64]
    else [0xF0 + n / 262144, 0x80 + n / 4096 % 64, 0x80 + n / 64 % 64, 0x80 + n % 64]
  }

  function Encode(text: string): (bs: seq<Byte>)
    ensures |text| <= |bs|
  {
    if text == "" then [] else EncodeChar(text[0]) + Encode(text[1..])
  }

  /** Number of bytes that a lead byte announces. */
  function Width(lead: Byte): (w: nat)
    ensures 1 <= w <= 4
  {
    if lead < 0x80 then 1 else if lead < 0xE0 then 2 else if lead < 0xF0 then 3 else 4
  }

  predicate Continuation(b: Byte) {
    0x80 <= b < 0xC0
  }

  function Join2(a: int, b: int): int {
    (a - 0xC0) * 64 + (b - 0x80)
  }

  function Join3(a: int, b: int, c: int): int {
    (a - 0xE0) * 4096 + (b - 0x80) * 64 + (c - 0x80)
  }

  function Join4(a: int, b: int, c: int, d: int): int {
    (a - 0xF0) * 262144 + (b - 0x80) * 4096 + (c - 0x80) * 64 + (d - 0x80)
  }

  /** The scalar value that one complete, shortest-form byte sequence stands for. */
  function DecodeChar(bs: seq<Byte>): Option<char> {
    if |bs| == 1 && bs[0] < 0x80 then Some(bs[0] as char)
    else if |bs| == 2 && 0xC0 <= bs[0] < 0xE0 && Continuation(bs[1]) then
      var n := Join2(bs[0], bs[1]);
      if n >= 0x80 then Some(n as char) else None
    else if |bs| == 3 && 0xE0 <= bs[0] < 0xF0 && Continuation(bs[1]) && Continuation(bs[2]) then
      var n := Join3(bs[0], bs[1], bs[2]);
      if n >= 0x800 && !(0xD800 <= n < 0xE000) then Some(n as char) else None
    else if |bs| == 4 && 0xF0 <= bs[0] < 0xF8 && Continuation(bs[1]) && Continuation(bs[2]) && Continuation(bs[3]) then
      var n := Join4(bs[0], bs[1], bs[2], bs[3]);
      if 0x10000 <= n < 0x110000 then Some(n as char) else None
    else None
  }

  /** `std::str::from_utf8`: strict decoding of a whole byte string. */
  function Decode(bs: seq<Byte>): Option<string> {
    if bs == [] then Some("")
    else
      var w := Width(bs[0]);
      if w > |bs| || DecodeChar(bs[..w]).None? then None
      else match Decode(bs[w..])
        case None => None
        case Some(tail) => Some([DecodeChar(bs[..w]).value] + tail)
  }

  /** `String::from_utf8_lossy` on a slice that is meant to hold one character. */
  function DecodeLossy(bs: seq<Byte>): string {
    match Decode(bs)
    case Some(text) => text
    case None => [REPLACEMENT]
  }

  const REPLACEMENT: char := 0xFFFD as char

  lemma DecodeInvertsEncodeChar(c: char)
    ensures DecodeChar(EncodeChar(c)) == Some(c)
  {
    hide Join2, Join3, Join4;
    var n := c as int;
    if n < 0x80 {
    } else if n < 0x800 {
      JoinSplit2(n);
    } else if n < 0x10000 {
      JoinSplit3(n);
    } else {
      JoinSplit4(n);
    }
  }

  lemma JoinSplit2(n: nat)
    ensures Join2(0xC0 + n / 64, 0x80 + n % 64) == n
  {
  }

  lemma JoinSplit3(n: nat)
    ensures Join3(0xE0 + n / 4096, 0x80 + n / 64 % 64, 0x80 + n % 64) == n
  {
    assert n / 4096 == n / 64 / 64;
  }

  lemma JoinSplit4(n: nat)
    ensures Join4(0xF0 + n / 262144, 0x80 + n / 4096 % 64, 0x80 + n / 64 % 64, 0x80 + n % 64) == n
  {
    assert n / 4096 == n / 64 / 64 && n / 262144 == n / 4096 / 64;
  }

  lemma EncodeCharInvertsDecode(bs: seq<Byte>)
    requires DecodeChar(bs).Some?
    ensures EncodeChar(DecodeChar(bs).value) == bs
  {
    hide Join2, Join3, Join4;
    if |bs| == 2 {
      SplitJoin2(bs[0], bs[1]);
    } else if |bs| == 3 {
      SplitJoin3(bs[0], bs[1], bs[2]);
    } else if |bs| == 4 {
      SplitJoin4(bs[0], bs[1], bs[2], bs[3]);
    }
  }

  lemma SplitJoin2(a: int, b: int)
    requires 0xC0 <= a && 0x80 <= b < 0xC0
    ensures var n := Join2(a, b); n / 64 == a - 0xC0 && n % 64 == b - 0x80
  {
  }

  lemma SplitJoin3(a: int, b: int, c: int)
    requires 0xE0 <= a && 0x80 <= b < 0xC0 && 0x80 <= c < 0xC0
    ensures var n := Join3(a, b, c); n / 4096 == a - 0xE0 && n / 64 % 64 == b - 0x80 && n % 64 == c - 0x80
  {
    assert Join3(a, b, c) / 64 == (a - 0xE0) * 64 + (b - 0x80);
  }

  lemma SplitJoin4(a: int, b: int, c: int, d: int)
    requires 0xF0 <= a && 0x80 <= b < 0xC0 && 0x80 <= c < 0xC0 && 0x80 <= d < 0xC0
    ensures var n := Join4(a, b, c, d);
      n / 262144 == a - 0xF0 && n / 4096 % 64 == b - 0x80 && n / 64 % 64 == c - 0x80 && n % 64 == d - 0x80
  {
    assert Join4(a, b, c, d) / 64 == (a - 0xF0) * 4096 + (b - 0x80) * 64 + (c - 0x80);
    assert Join4(a, b, c, d) / 4096 == (a - 0xF0) * 64 + (b - 0x80);
  }

  /** Strict decoding and encoding undo each other, in both directions. */
  lemma {:induction false} DecodeInvertsEncode(text: string)
    ensures Decode(Encode(text)) == Some(text)
  {
    if text != "" {
      var head := EncodeChar(text[0]);
      var all := Encode(text);
      assert all[..|head|] == head && all[|head|..] == Encode(text[1..]);
      DecodeInvertsEncodeChar(text[0]);
      DecodeInvertsEncode(text[1..]);
      assert [text[0]] + text[1..] == text;
    }
  }

  lemma {:induction false} EncodeInvertsDecode(bs: seq<Byte>)
    requires Decode(bs).Some?
    ensures Encode(Decode(bs).value) == bs
  {
    if bs != [] {
      var w := Width(bs[0]);
      var head, tail := DecodeChar(bs[..w]).value, Decode(bs[w..]).value;
      assert Decode(bs) == Some([head] + tail);
      hide DecodeChar, EncodeChar, Decode, Encode;
      EncodeCharInvertsDecode(bs[..w]);
      EncodeInvertsDecode(bs[w..]);
      EncodeCons(head, tail);
      assert bs == bs[..w] + bs[w..];
    }
  }

  lemma EncodeCons(head: char, tail: string)
    ensures Encode([head] + tail) == EncodeChar(head) + Encode(tail)
  {
    assert ([head] + tail)[1..] == tail;
  }

  /** The bytes of a nonempty text begin with exactly the bytes of its first character. */
  lemma FirstChar(text: string)
    requires text != ""
    ensures var head := EncodeChar(text[0]);
      |head| <= |Encode(text)| && Encode(text)[..|head|] == head && Encode(text)[|head|..] == Encode(text[1..])
  {
  }

  predicate Ascii(text: string) {
    forall i :: 0 <= i < |text| ==> text[i] as int < 0x80
  }

  function AsciiBytes(text: string): (bs: seq<Byte>)
    requires Ascii(text)
    ensures |bs| == |text|
    ensures forall i :: 0 <= i < |text| ==> bs[i] == text[i] as int
  {
    seq(|text|, i requires 0 <= i < |text| => text[i] as int)
  }

  lemma PrefixStep<T>(a: seq<T>, b: seq<T>)
    requires a != [] && b != []
    ensures a <= b <==> a[0] == b[0] && a[1..] <= b[1..]
  {
    assert a == [a[0]] + a[1..] && b == [b[0]] + b[1..];
  }

  /** An ASCII text is a prefix of a text exactly when its bytes are a prefix of the bytes. */
  lemma {:induction false} AsciiPrefix(word: string, text: string)
    requires Ascii(word)
    ensures AsciiBytes(word) <= Encode(text) <==> word <= text
    ensures word <= text ==> Encode(text)[|word|..] == Encode(text[|word|..])
  {
    if word != "" && text != "" {
      FirstChar(text);
      AsciiPrefix(word[1..], text[1..]);
      var bs := Encode(text);
      assert AsciiBytes(word)[1..] == AsciiBytes(word[1..]);
      hide Encode, EncodeChar;
      PrefixStep(word, text);
      PrefixStep(AsciiBytes(word), bs);
      if text[0] == word[0] {
        if word <= text {
          assert bs[|word|..] == bs[1..][|word| - 1..];
          assert text[|word|..] == text[1..][|word| - 1..];
        }
      } else {
        assert bs[0] != word[0] as int;
      }
    }
  }
}
