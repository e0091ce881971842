/**
 What escapes stand for, said without the reader's own arithmetic: UTF-16 code
 units (section 2.1 of RFC 2781), the hex digits, and the short escapes of
 section 7 of RFC 8259.
 */
module JsonEscapes {
  import opened JsonGrammar
  import opened JsonPrinter
  import opened JsonStrings
  import opened Wrappers

  // ---- code units ---------------------------------------------------------

  /** The `\u` escapes of one character: one code unit, or a surrogate pair. */
  function Escapes(c: char): (ps: seq<Piece>)
    ensures WellFormed(ps)
  {
    var n := c as int;
    if n < 0x10000 then [Code(Hex4Text(n))]
    else [Code(Hex4Text(0xD800 + (n - 0x10000) / 0x400)), Code(Hex4Text(0xDC00 + (n - 0x10000) % 0x400))]
  }

  function AllEscapes(text: string): (ps: seq<Piece>)
    ensures WellFormed(ps)
  {
    if text == "" then [] else Escapes(text[0]) + AllEscapes(text[1..])
  }

  lemma {:induction false} OneUnit(c: char)
    requires c as int < 0x10000
    ensures var p := Escapes(c)[0]; p.Unit() == c as int && !p.High() && !p.Low() && p.Alone() == c
  {
    Hex4TextUnit(c as int);
  }

  lemma {:induction false} TwoUnits(c: char)
    requires c as int >= 0x10000
    ensures var ps := Escapes(c);
      |ps| == 2 && ps[0].High() && ps[1].Low() && !ps[1].High() && Pair(ps[0], ps[1]) == c
  {
    var n := c as int - 0x10000;
    Halves(n);
    hide Hex4Text, HexValue, FromU32;
    Hex4TextUnit(0xD800 + n / 0x400);
    Hex4TextUnit(0xDC00 + n % 0x400);
  }

  lemma {:induction false} Halves(n: nat)
    requires n < 0x100000
    ensures 0xD800 <= 0xD800 + n / 0x400 < 0xDC00 && 0xDC00 <= 0xDC00 + n % 0x400 < 0xE000
    ensures Combine(0xD800 + n / 0x400, 0xDC00 + n % 0x400) == 0x10000 + n
  {
  }

  lemma {:induction false} MeaningFrom(c: char, ps: seq<Piece>)
    requires WellFormed(ps)
    ensures Meaning(Escapes(c) + ps) == [c] + Meaning(ps)
    ensures !Swallows(ps) ==> !Swallows(Escapes(c) + ps)
  {
    var es := Escapes(c);
    var all := es + ps;
    if c as int < 0x10000 {
      OneUnit(c);
      assert all[1..] == ps;
      SwallowsTail(all, 1);
    } else {
      TwoUnits(c);
      assert all[2..] == ps && all[0] == es[0] && all[1] == es[1];
      SwallowsTail(all, 2);
    }
  }

  /** A text written wholly in `\u` escapes, surrogate pairs where they are needed, means that text. */
  lemma {:induction false} AllEscapesMean(text: string)
    ensures Meaning(AllEscapes(text)) == text && !Swallows(AllEscapes(text))
  {
    if text != "" {
      AllEscapesMean(text[1..]);
      MeaningFrom(text[0], AllEscapes(text[1..]));
      assert text == [text[0]] + text[1..];
    }
  }

  /** And it is read as that text. */
  lemma {:induction false} AllEscapesRead(text: string, rest: string)
    ensures BodyF(PiecesText(AllEscapes(text)) + "\"" + rest) == Done(text, rest)
  {
    AllEscapesMean(text);
    StandardExactlyWhenNotSwallowing(AllEscapes(text));
    BodyReads(AllEscapes(text), rest);
  }

  /** A character outside the basic plane, written as its two code units, is read as that character. */
  lemma {:induction false} PairReads(c: char, rest: string)
    requires c as int >= 0x10000
    ensures var n := c as int - 0x10000;
      var high, low := Code(Hex4Text(0xD800 + n / 0x400)), Code(Hex4Text(0xDC00 + n % 0x400));
      Meaning([high, low]) == [c] && BodyF(PiecesText([high, low]) + "\"" + rest) == Done([c], rest)
  {
    assert [c][1..] == "" && AllEscapes([c]) == Escapes(c) + [] == Escapes(c);
    AllEscapesMean([c]);
    AllEscapesRead([c], rest);
  }

  /** A surrogate on its own is read as U+FFFD. */
  lemma {:induction false} LoneSurrogateReads(unit: nat, rest: string)
    requires 0xD800 <= unit < 0xE000
    ensures BodyF("\\u" + Hex4Text(unit) + "\"" + rest) == Done([0xFFFD as char], rest)
  {
    var p := Code(Hex4Text(unit));
    Hex4TextUnit(unit);
    assert p.Alone() == 0xFFFD as char;
    assert [p][1..] == [] && PiecesText([p]) == p.Text() + PiecesText([]) == p.Text();
    assert ReadAs([p]) == [p.Alone()] + ReadAs([]) == [p.Alone()];
    BodyReads([p], rest);
  }

  lemma {:induction false} LeadingZero(s: string)
    ensures HexValue("0" + s) == HexValue(s)
  {
    if s == "" {
      assert "0"[..0] == "" && "0" + s == "0";
      assert HexValue("0"[..0]) == Some(0);
    } else {
      LeadingZero(s[..|s| - 1]);
      assert ("0" + s)[..|s|] == "0" + s[..|s| - 1];
    }
  }

  /** The reader takes a plus sign and three digits for a code unit too. */
  lemma {:induction false} PlusReads(n: nat, rest: string)
    requires n < 0x1000
    ensures BodyF("\\u+" + Hex4Text(n)[1..] + "\"" + rest) == Done([n as char], rest)
  {
    var digits := "+" + Hex4Text(n)[1..];
    var s := "\\u+" + Hex4Text(n)[1..] + "\"" + rest;
    Hex4TextUnit(n);
    LeadingZero(Hex4Text(n)[1..]);
    assert Hex4Text(n) == "0" + Hex4Text(n)[1..];
    assert digits[1..] == Hex4Text(n)[1..];
    assert s[1..][1..] == s[2..] && s[2..][..4] == digits && s[2..][4..] == "\"" + rest;
    assert ("\"" + rest)[1..] == rest && [n as char] + "" == [n as char];
    HexValueTotal(Hex4Text(n));
    assert |digits| == 4 && digits[0] == '+';
    assert FromRadix16(digits) == Some(n);
    hide HexValue, Hex4Text;
    assert Hex4F(s[2..]) == Done(n, "\"" + rest);
    assert EscapeF(s[1..]) == UnicodeF(s[2..]) == Done(n as char, "\"" + rest);
    assert BodyF("\"" + rest) == Done("", rest);
  }

  // ---- the characters of an escape ----------------------------------------

  /** Sixteen digits, the letters among them in either case, and no other character. */
  lemma {:induction false} HexDigitsAre(c: char, d: nat)
    ensures HexDigit(c) == Some(d) <==> d < 16 && ("0123456789abcdef"[d] == c || "0123456789ABCDEF"[d] == c)
  {
  }

  const LETTERS := "\"\\/bfnrt"
  const MEANT: seq<int> := [0x22, 0x5C, 0x2F, 0x08, 0x0C, 0x0A, 0x0D, 0x09]

  /** The eight short escapes and the characters that they stand for. */
  lemma {:induction false} ShortEscapeReads(i: nat, rest: string)
    requires i < 8
    ensures BodyF(['\\', LETTERS[i], '"'] + rest) == Done([MEANT[i] as char], rest)
  {
    var p := Short(LETTERS[i]);
    assert p.Alone() == MEANT[i] as char;
    assert [p][1..] == [] && PiecesText([p]) == p.Text() + PiecesText([]) == p.Text();
    assert ReadAs([p]) == [p.Alone()] + ReadAs([]) == [p.Alone()];
    BodyReads([p], rest);
    assert PiecesText([p]) + "\"" + rest == ['\\', LETTERS[i], '"'] + rest;
  }

  /** No other character may follow a backslash, except the `u` of a code unit. */
  lemma {:induction false} OtherEscapesFail(c: char, rest: string)
    requires c !in LETTERS && c != 'u'
    ensures BodyF(['\\', c] + rest) == Fail
  {
    var s := ['\\', c] + rest;
    assert s[0] == '\\' && s[1..][0] == c;
  }

  /** The printer escapes quotes, backslashes and control characters, and writes every other character as it is. */
  lemma {:induction false} EscapesOnlyWhatItMust(c: char)
    ensures EscapePiece(c).Text() == [c] <==> c as int >= 0x20 && c != '"' && c != '\\'
    ensures |EscapePiece(c).Text()| == 2 <==> c as int in {0x22, 0x5C, 0x0A, 0x0D, 0x09, 0x08, 0x0C}
    ensures |EscapePiece(c).Text()| in {1, 2, 6}
  {
  }
}
