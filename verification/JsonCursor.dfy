/**
 The byte cursor that reads JSON, proved to refine the character-level reader.

 `rest` is the part of the text that the cursor has not read. Every method that
 succeeds leaves the cursor on a character boundary, so the lossy decoding of
 multi-byte slices never has anything to replace.
 */
module JsonCursor {
  import opened Utf8
  import opened Wrappers
  import opened JsonGrammar

  class Cursor {
    const bytes: seq<Byte>
    var at: nat
    ghost var rest: string

    ghost predicate Valid()
      reads this
    {
      at <= |bytes| && bytes[at..] == Encode(rest)
    }

    constructor (text: string)
      ensures Valid() && rest == text && at == 0
      ensures bytes == Encode(text)
    {
      bytes := Encode(text);
      at := 0;
      rest := text;
    }

    /** The outcome of a method agrees with the outcome of its character-level reference. */
    ghost predicate Agrees<T>(r: Result<T>, p: Parse<T>)
      reads this
    {
      match p
      case Fail => r.Err?
      case Done(value, left) => r == Ok(value) && Valid() && rest == left
    }

    function Peek(): (b: Option<Byte>)
      requires Valid()
      reads this
      ensures b.None? <==> rest == ""
      ensures b.Some? ==> (b.value < 0x80 <==> rest[0] as int < 0x80)
      ensures b.Some? && b.value < 0x80 ==> b.value == rest[0] as int
    {
      assert rest != "" ==> Encode(rest)[0] == EncodeChar(rest[0])[0];
      if at < |bytes| then assert bytes[at] == bytes[at..][0]; Some(bytes[at]) else None
    }

    /** Steps over the ASCII character under the cursor. */
    method Advance()
      requires Valid() && rest != "" && rest[0] as int < 0x80
      modifies this
      ensures Valid() && rest == old(rest)[1..]
    {
      FirstChar(rest);
      assert bytes[at..][1..] == bytes[at + 1..];
      at := at + 1;
      rest := rest[1..];
    }

    method SkipWs()
      requires Valid()
      modifies this
      ensures Valid() && rest == SkipSpace(old(rest))
    {
      while at < |bytes| && bytes[at] in {0x20, 0x09, 0x0A, 0x0D, 0x0C}
        invariant Valid()
        invariant SkipSpace(rest) == SkipSpace(old(rest))
        decreases |rest|
      {
        assert Peek().Some?;
        Advance();
      }
      assert Peek().Some? ==> Peek().value == bytes[at];
    }

    method Eat(c: char) returns (r: Result<()>)
      requires Valid() && c as int < 0x80
      modifies this
      ensures r.Ok? <==> old(rest) != "" && old(rest)[0] == c
      ensures r.Ok? ==> Valid() && rest == old(rest)[1..]
      ensures r.Err? ==> Valid() && rest == old(rest)
    {
      if Peek() == Some(c as int) {
        Advance();
        r := Ok(());
      } else {
        r := Err;
      }
    }

    method Literal(word: string) returns (r: Result<()>)
      requires Valid() && Ascii(word)
      modifies this
      ensures r.Ok? <==> word <= old(rest)
      ensures r.Ok? ==> Valid() && rest == old(rest)[|word|..]
    {
      AsciiPrefix(word, rest);
      if AsciiBytes(word) <= bytes[at..] {
        assert bytes[at..][|word|..] == bytes[at + |word|..];
        at := at + |word|;
        rest := rest[|word|..];
        r := Ok(());
      } else {
        r := Err;
      }
    }

    method Hex4() returns (r: Result<nat>)
      requires Valid()
      modifies this
      ensures Agrees(r, Hex4F(old(rest)))
    {
      if at + 4 > |bytes| {
        return Err;
      }
      var slice := bytes[at..at + 4];
      Hex4Slice(rest, slice);
      assert slice == bytes[at..][..4] && bytes[at..][4..] == bytes[at + 4..];
      at := at + 4;
      rest := if |rest| >= 4 then rest[4..] else "";
      match Decode(slice)
      case None => r := Err;
      case Some(text) =>
        match FromRadix16(text)
        case None => r := Err;
        case Some(code) => r := Ok(code);
    }

    method Number() returns (r: Result<Json>)
      requires Valid()
      modifies this
      ensures Agrees(r, NumberF(old(rest)))
    {
      var start := at;
      ghost var n := 0;
      while at < |bytes| && bytes[at] < 0x80 && NumberChar(bytes[at] as char)
        invariant Valid() && at == start + n
        invariant n <= |old(rest)| && rest == old(rest)[n..]
        invariant NumberSpan(old(rest)) == n + NumberSpan(rest)
        decreases |rest|
      {
        assert Peek().Some?;
        Advance();
        n := n + 1;
      }
      assert NumberSpan(rest) == 0 by {
        assert Peek().Some? ==> Peek().value == bytes[at];
      }
      NumberSlice(old(rest), bytes[start..at]);
      match Decode(bytes[start..at])
      case None => r := Err;
      case Some(text) =>
        if text == "" {
          return Err;
        }
        match Numeral(text)
        case None => r := Err;
        case Some(x) => r := Ok(Num(x));
    }

    /** The character that an escape stands for, after its backslash. */
    method Escape() returns (r: Result<char>)
      requires Valid()
      modifies this
      ensures Agrees(r, EscapeF(old(rest)))
    {
      var next := Peek();
      if next.None? {
        return Err;
      }
      if next.value >= 0x80 {
        return Err;
      }
      var escape := next.value as char;
      Advance();
      match escape
      case '"' => r := Ok('"');
      case '\\' => r := Ok('\\');
      case '/' => r := Ok('/');
      case 'b' => r := Ok(0x08 as char);
      case 'f' => r := Ok(0x0C as char);
      case 'n' => r := Ok('\n');
      case 'r' => r := Ok('\r');
      case 't' => r := Ok('\t');
      case 'u' => r := Unicode();
      case _ => r := Err;
    }

    method Unicode() returns (r: Result<char>)
      requires Valid()
      modifies this
      ensures Agrees(r, UnicodeF(old(rest)))
    {
      var code :- Hex4();
      if !HighSurrogate(code) {
        return Ok(FromU32(code));
      }
      AsciiPrefix("\\u", rest);
      if at + 1 < |bytes| && bytes[at] == '\\' as int && bytes[at + 1] == 'u' as int {
        assert bytes[at..][..2] == AsciiBytes("\\u");
        assert bytes[at..][2..] == bytes[at + 2..];
        at := at + 2;
        rest := rest[2..];
        var low :- Hex4();
        if LowSurrogate(low) {
          return Ok(FromU32(Combine(code, low)));
        }
      } else {
        assert !(AsciiBytes("\\u") <= bytes[at..]) by {
          assert AsciiBytes("\\u") == ['\\' as int, 'u' as int];
          assert |bytes[at..]| >= 2 ==> bytes[at..][0] == bytes[at] && bytes[at..][1] == bytes[at + 1];
        }
      }
      r := Ok(REPLACEMENT);
    }

    /** A character outside ASCII: its bytes pass through `from_utf8_lossy`. */
    method Wide() returns (r: Result<string>)
      requires Valid() && rest != "" && rest[0] as int >= 0x80
      modifies this
      ensures r == Ok(old(rest)[..1]) && Valid() && rest == old(rest)[1..]
    {
      FirstChar(rest);
      DecodeInvertsEncode(rest[..1]);
      assert Encode(rest[..1]) == EncodeChar(rest[0]);
      assert bytes[at] == bytes[at..][0];
      var lead := bytes[at];
      var width := if 0xC0 <= lead <= 0xDF then 2 else if 0xE0 <= lead <= 0xEF then 3 else 4;
      var start := at;
      at := start + width;
      if at > |bytes| {
        return Err;
      }
      assert bytes[start..][..width] == bytes[start..at] && bytes[start..][width..] == bytes[at..];
      rest := rest[1..];
      r := Ok(DecodeLossy(bytes[start..at]));
    }

    method String() returns (r: Result<string>)
      requires Valid()
      modifies this
      ensures Agrees(r, StringF(old(rest)))
    {
      var _ :- Eat('"');
      var out := "";
      ghost var body := BodyF(rest);
      PushPush(out, out, body);
      while true
        invariant Valid()
        invariant body == Push(out, BodyF(rest))
        decreases |rest|
      {
        var byte := Peek();
        if byte.None? {
          return Err;
        }
        ghost var here := rest;
        if byte.value == '"' as int {
          Advance();
          assert out + "" == out;
          return Ok(out);
        } else if byte.value == '\\' as int {
          Advance();
          var c :- Escape();
          PushPush(out, [c], BodyF(rest));
          out := out + [c];
        } else if byte.value < 0x80 {
          Advance();
          PushPush(out, [here[0]], BodyF(rest));
          out := out + [byte.value as char];
        } else {
          var piece := Wide();
          if piece.Err? {
            return Err;
          }
          assert piece.value == [here[0]];
          PushPush(out, piece.value, BodyF(rest));
          out := out + piece.value;
        }
      }
    }

    method Value() returns (r: Result<Json>)
      requires Valid()
      modifies this
      ensures Agrees(r, ValueF(old(rest)))
      decreases |rest|, 1
    {
      var next := Peek();
      match next
      case None => r := Err;
      case Some(b) =>
        if b == '{' as int {
          r := Object();
        } else if b == '[' as int {
          r := Array();
        } else if b == '"' as int {
          var text :- String();
          r := Ok(Str(text));
        } else if b == 't' as int {
          var _ :- Literal("true");
          r := Ok(Bool(true));
        } else if b == 'f' as int {
          var _ :- Literal("false");
          r := Ok(Bool(false));
        } else if b == 'n' as int {
          var _ :- Literal("null");
          r := Ok(Null);
        } else {
          r := Number();
        }
    }

    /** A key, a colon and a value. */
    method Pair() returns (r: Result<Member>)
      requires Valid()
      modifies this
      ensures Agrees(r, MemberF(old(rest)))
      decreases |rest|, 2
    {
      SkipWs();
      var key :- String();
      SkipWs();
      var _ :- Eat(':');
      SkipWs();
      var value :- Value();
      r := Ok(Member(key, value));
    }

    method Object() returns (r: Result<Json>)
      requires Valid()
      modifies this
      ensures Agrees(r, ObjectF(old(rest)))
      decreases |rest|, 0
    {
      var _ :- Eat('{');
      var pairs: seq<Member> := [];
      SkipWs();
      if Peek() == Some('}' as int) {
        Advance();
        return Ok(Obj(pairs));
      }
      pairs :- Members();
      r := Ok(Obj(pairs));
    }

    /** The loop of `object`, entered after the opening bracket. */
    method Members() returns (r: Result<seq<Member>>)
      requires Valid()
      modifies this
      ensures Agrees(r, MembersF(old(rest)))
      decreases |rest|, 3
    {
      var pairs: seq<Member> := [];
      ghost var all := MembersF(rest);
      PrependPrepend(pairs, pairs, all);
      while true
        invariant Valid() && |rest| <= |old(rest)|
        invariant all == Prepend(pairs, MembersF(rest))
        decreases |rest|
      {
        var pair :- Pair();
        ghost var before := pairs;
        pairs := pairs + [pair];
        SkipWs();
        var next := Peek();
        if next == Some(',' as int) {
          Advance();
          PrependPrepend(before, [pair], MembersF(rest));
        } else if next == Some('}' as int) {
          Advance();
          return Ok(pairs);
        } else {
          return Err;
        }
      }
    }

    method Array() returns (r: Result<Json>)
      requires Valid()
      modifies this
      ensures Agrees(r, ArrayF(old(rest)))
      decreases |rest|, 0
    {
      var _ :- Eat('[');
      var items: seq<Json> := [];
      SkipWs();
      if Peek() == Some(']' as int) {
        Advance();
        return Ok(Arr(items));
      }
      items :- Items();
      r := Ok(Arr(items));
    }

    /** The loop of `array`, entered after the opening bracket. */
    method Items() returns (r: Result<seq<Json>>)
      requires Valid()
      modifies this
      ensures Agrees(r, ItemsF(old(rest)))
      decreases |rest|, 2
    {
      var items: seq<Json> := [];
      ghost var all := ItemsF(rest);
      PrependPrepend(items, items, all);
      while true
        invariant Valid() && |rest| <= |old(rest)|
        invariant all == Prepend(items, ItemsF(rest))
        decreases |rest|
      {
        SkipWs();
        var value :- Value();
        ghost var before := items;
        items := items + [value];
        SkipWs();
        var next := Peek();
        if next == Some(',' as int) {
          Advance();
          PrependPrepend(before, [value], ItemsF(rest));
        } else if next == Some(']' as int) {
          Advance();
          return Ok(items);
        } else {
          return Err;
        }
      }
    }
  }

  /** The four bytes of a `\u` escape read as hex digits exactly when the four characters do. */
  lemma Hex4Slice(s: string, slice: seq<Byte>)
    requires |slice| == 4 && slice <= Encode(s)
    ensures Hex4F(s).Done? <==> Decode(slice).Some? && FromRadix16(Decode(slice).value).Some?
    ensures Hex4F(s).Done? ==> Hex4F(s).value == FromRadix16(Decode(slice).value).value
    ensures Hex4F(s).Done? ==> Encode(s)[4..] == Encode(s[4..])
  {
    if Decode(slice).Some? && FromRadix16(Decode(slice).value).Some? {
      SliceIsHex4(s, slice, Decode(slice).value);
    }
    if Hex4F(s).Done? {
      Hex4IsSlice(s, slice);
    }
  }

  lemma SliceIsHex4(s: string, slice: seq<Byte>, text: string)
    requires |slice| == 4 && slice <= Encode(s) && Decode(slice) == Some(text) && FromRadix16(text).Some?
    ensures Hex4F(s).Done?
  {
    RadixAscii(text);
    EncodeInvertsDecode(slice);
    AsciiEncode(text);
    AsciiPrefix(text, s);
    hide Encode, Decode, FromRadix16;
    assert AsciiBytes(text) == slice;
    assert s[..4] == text;
  }

  lemma Hex4IsSlice(s: string, slice: seq<Byte>)
    requires |slice| == 4 && slice <= Encode(s) && Hex4F(s).Done?
    ensures Decode(slice) == Some(s[..4])
    ensures Encode(s)[4..] == Encode(s[4..])
  {
    var text := s[..4];
    RadixAscii(text);
    AsciiEncode(text);
    AsciiPrefix(text, s);
    DecodeInvertsEncode(text);
    hide Encode, Decode, FromRadix16;
    assert slice == Encode(s)[..4] == AsciiBytes(text);
  }

  /** The bytes under the longest number run decode to that run. */
  lemma NumberSlice(s: string, slice: seq<Byte>)
    requires |slice| == NumberSpan(s) && slice <= Encode(s)
    ensures Decode(slice) == Some(s[..NumberSpan(s)])
  {
    var word := s[..NumberSpan(s)];
    AsciiPrefix(word, s);
    AsciiEncode(word);
    assert slice == Encode(s)[..|slice|] == AsciiBytes(word);
    DecodeInvertsEncode(word);
  }

  lemma {:induction false} HexAscii(s: string)
    requires HexValue(s).Some?
    ensures Ascii(s)
  {
    if s != "" {
      HexAscii(s[..|s| - 1]);
    }
  }

  lemma RadixAscii(s: string)
    requires FromRadix16(s).Some?
    ensures Ascii(s)
  {
    HexAscii(if s[0] == '+' then s[1..] else s);
    assert s[0] == '+' ==> s == ['+'] + s[1..];
  }

  lemma {:induction false} AsciiEncode(s: string)
    requires Ascii(s)
    ensures Encode(s) == AsciiBytes(s)
  {
    if s != "" {
      AsciiEncode(s[1..]);
      assert AsciiBytes(s) == [s[0] as int] + AsciiBytes(s[1..]);
    }
  }

  /** `Json::parse`. */
  method ParseText(text: string) returns (r: Result<Json>)
    ensures r == ParseF(text)
  {
    var cursor := new Cursor(text);
    cursor.SkipWs();
    var value :- cursor.Value();
    cursor.SkipWs();
    if cursor.at != |cursor.bytes| {
      return Err;
    }
    r := Ok(value);
  }
}
