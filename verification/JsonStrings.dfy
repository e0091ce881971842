/**
 Spellings of JSON strings (section 7 of RFC 8259) and what the reader makes of
 them.

 A literal is a sequence of pieces: raw characters, two-character escapes and
 `\u` escapes. The reader gives every literal the standard meaning except those
 in which a `\u` high surrogate stands right before a `\u` escape that is not a
 low surrogate: there it drops the second escape.
 */
module JsonStrings {
  import opened Utf8
  import opened Wrappers
  import opened JsonGrammar

  datatype Piece =
    | Raw(c: char)
    | Short(letter: char)
    | Code(digits: string)
  {
    predicate WellFormed() {
      match this
      case Raw(c) => c != '"' && c != '\\'
      case Short(letter) => letter in "\"\\/bfnrt"
      case Code(digits) => |digits| == 4 && forall i :: 0 <= i < 4 ==> HexDigit(digits[i]).Some?
    }

    function Text(): string {
      match this
      case Raw(c) => [c]
      case Short(letter) => ['\\', letter]
      case Code(digits) => "\\u" + digits
    }

    /** The UTF-16 code unit of a `\u` escape. */
    function Unit(): (n: nat)
      requires WellFormed() && Code?
      ensures n < 0x10000
    {
      HexValueTotal(digits);
      HexValueBound(digits, 4, 65536);
      HexValue(digits).value
    }

    predicate High()
      requires WellFormed()
    {
      Code? && HighSurrogate(Unit())
    }

    predicate Low()
      requires WellFormed()
    {
      Code? && LowSurrogate(Unit())
    }

    /** The character a piece stands for on its own; a lone surrogate is replaced. */
    function Alone(): char
      requires WellFormed()
    {
      match this
      case Raw(c) => c
      case Short(letter) =>
        (match letter
         case 'b' => 0x08 as char
         case 'f' => 0x0C as char
         case 'n' => '\n'
         case 'r' => '\r'
         case 't' => '\t'
         case _ => letter)
      case Code(_) => FromU32(Unit())
    }
  }

  lemma {:induction false} HexValueTotal(s: string)
    requires forall i :: 0 <= i < |s| ==> HexDigit(s[i]).Some?
    ensures HexValue(s).Some?
  {
    if s != "" {
      HexValueTotal(s[..|s| - 1]);
    }
  }

  predicate WellFormed(ps: seq<Piece>) {
    forall i :: 0 <= i < |ps| ==> ps[i].WellFormed()
  }

  function PiecesText(ps: seq<Piece>): string {
    if ps == [] then "" else ps[0].Text() + PiecesText(ps[1..])
  }

  function Pair(high: Piece, low: Piece): char
    requires high.WellFormed() && low.WellFormed() && high.High() && low.Low()
  {
    Combine(high.Unit(), low.Unit()) as char
  }

  /** Section 7 of RFC 8259, with every surrogate that has no partner replaced by U+FFFD. */
  function Meaning(ps: seq<Piece>): string
    requires WellFormed(ps)
  {
    if ps == [] then ""
    else if ps[0].High() && |ps| > 1 && ps[1].Low() then [Pair(ps[0], ps[1])] + Meaning(ps[2..])
    else [ps[0].Alone()] + Meaning(ps[1..])
  }

  /** What the reader makes of the pieces. */
  function ReadAs(ps: seq<Piece>): string
    requires WellFormed(ps)
  {
    if ps == [] then ""
    else if ps[0].High() && |ps| > 1 && ps[1].Code? then
      [if ps[1].Low() then Pair(ps[0], ps[1]) else REPLACEMENT] + ReadAs(ps[2..])
    else [ps[0].Alone()] + ReadAs(ps[1..])
  }

  /** Position `i` holds a high surrogate with a `\u` escape after it that cannot complete it. */
  predicate SwallowsAt(ps: seq<Piece>, i: nat)
    requires WellFormed(ps)
  {
    i + 1 < |ps| && ps[i].High() && ps[i + 1].Code? && !ps[i + 1].Low()
  }

  predicate Swallows(ps: seq<Piece>)
    requires WellFormed(ps)
  {
    exists i :: 0 <= i < |ps| && SwallowsAt(ps, i)
  }

  lemma SwallowsTail(ps: seq<Piece>, k: nat)
    requires WellFormed(ps) && k <= |ps|
    requires forall i :: 0 <= i < k ==> !SwallowsAt(ps, i)
    ensures Swallows(ps) <==> Swallows(ps[k..])
  {
    forall i | 0 <= i < |ps| && SwallowsAt(ps, i)
      ensures Swallows(ps[k..])
    {
      assert SwallowsAt(ps[k..], i - k);
    }
    forall i | 0 <= i < |ps| - k && SwallowsAt(ps[k..], i)
      ensures Swallows(ps)
    {
      assert SwallowsAt(ps, i + k);
    }
  }

  /** The meaning never gets shorter when a `\u` escape is put in front. */
  lemma {:induction false} MeaningGrows(ps: seq<Piece>)
    requires WellFormed(ps) && ps != [] && ps[0].Code?
    ensures |Meaning(ps[1..])| <= |Meaning(ps)|
  {
    if ps[0].High() && |ps| > 1 && ps[1].Low() {
      assert ps[1..][1..] == ps[2..];
    }
  }

  lemma {:induction false} ReadAsNotLonger(ps: seq<Piece>)
    requires WellFormed(ps)
    ensures |ReadAs(ps)| <= |Meaning(ps)|
    decreases |ps|
  {
    if ps != [] {
      if ps[0].High() && |ps| > 1 && ps[1].Code? {
        ReadAsNotLonger(ps[2..]);
        if !ps[1].Low() {
          MeaningGrows(ps[1..]);
          assert ps[1..][1..] == ps[2..];
        }
      } else {
        ReadAsNotLonger(ps[1..]);
      }
    }
  }

  /** Dropping the escape after an unpaired high surrogate always shows in the result. */
  lemma SwallowingShows(ps: seq<Piece>)
    requires WellFormed(ps) && SwallowsAt(ps, 0)
    ensures ReadAs(ps) != Meaning(ps)
  {
    assert ReadAs(ps)[1..] == ReadAs(ps[2..]);
    assert Meaning(ps)[1..] == Meaning(ps[1..]);
    var tail := ps[1..];
    assert tail[1..] == ps[2..];
    ReadAsNotLonger(ps[2..]);
    if tail[0].High() && |tail| > 1 && tail[1].Low() {
      assert Meaning(tail)[0] == Pair(tail[0], tail[1]);
      assert ReadAs(ps[2..])[0] == tail[1].Alone() == REPLACEMENT;
    } else {
      assert |Meaning(tail)| == 1 + |Meaning(ps[2..])|;
    }
  }

  /** The reader gives a literal its standard meaning exactly when nothing in it is swallowed. */
  lemma {:induction false} StandardExactlyWhenNotSwallowing(ps: seq<Piece>)
    requires WellFormed(ps)
    ensures ReadAs(ps) == Meaning(ps) <==> !Swallows(ps)
    decreases |ps|
  {
    if ps != [] {
      if SwallowsAt(ps, 0) {
        SwallowingShows(ps);
      } else {
        var k := if ps[0].High() && |ps| > 1 && ps[1].Code? then 2 else 1;
        SwallowsTail(ps, k);
        StandardExactlyWhenNotSwallowing(ps[k..]);
        assert ReadAs(ps)[0] == Meaning(ps)[0];
        assert ReadAs(ps)[1..] == ReadAs(ps[k..]) && Meaning(ps)[1..] == Meaning(ps[k..]);
        assert ReadAs(ps) == [ReadAs(ps)[0]] + ReadAs(ps[k..]);
        assert Meaning(ps) == [Meaning(ps)[0]] + Meaning(ps[k..]);
      }
    }
  }

  /** A swallow at `i` that no low surrogate right after it makes up for in length. */
  predicate LosesAt(ps: seq<Piece>, i: nat)
    requires WellFormed(ps)
  {
    SwallowsAt(ps, i) && !(i + 2 < |ps| && ps[i + 1].High() && ps[i + 2].Low())
  }

  predicate Loses(ps: seq<Piece>)
    requires WellFormed(ps)
  {
    exists i :: 0 <= i < |ps| && LosesAt(ps, i)
  }

  lemma {:induction false} LosesTail(ps: seq<Piece>, k: nat)
    requires WellFormed(ps) && k <= |ps|
    requires forall i :: 0 <= i < k ==> !LosesAt(ps, i)
    ensures Loses(ps) <==> Loses(ps[k..])
  {
    forall i | 0 <= i < |ps| && LosesAt(ps, i)
      ensures Loses(ps[k..])
    {
      assert LosesAt(ps[k..], i - k);
    }
    forall i | 0 <= i < |ps| - k && LosesAt(ps[k..], i)
      ensures Loses(ps)
    {
      assert LosesAt(ps, i + k);
    }
  }

  /** Three escapes, high, high and low: the reader pairs the first two and the standard the last two. */
  lemma {:induction false} HighHighLow(ps: seq<Piece>)
    requires WellFormed(ps) && |ps| > 2 && ps[0].High() && ps[1].High() && ps[2].Low()
    ensures |ReadAs(ps)| == 2 + |ReadAs(ps[3..])| && |Meaning(ps)| == 2 + |Meaning(ps[3..])|
  {
    assert ps[2..][1..] == ps[3..] && ps[1..][2..] == ps[3..];
    assert |ReadAs(ps[2..])| == 1 + |ReadAs(ps[3..])|;
    assert |Meaning(ps[1..])| == 1 + |Meaning(ps[3..])|;
  }

  /** What is read is shorter than the meaning exactly when a swallow is not made up for. */
  lemma {:induction false} ShorterExactlyWhenLosing(ps: seq<Piece>)
    requires WellFormed(ps)
    ensures |ReadAs(ps)| < |Meaning(ps)| <==> Loses(ps)
    decreases |ps|
  {
    if ps != [] {
      if !SwallowsAt(ps, 0) {
        var k := if ps[0].High() && |ps| > 1 && ps[1].Code? then 2 else 1;
        LosesTail(ps, k);
        ShorterExactlyWhenLosing(ps[k..]);
      } else if LosesAt(ps, 0) {
        assert ps[1..][1..] == ps[2..];
        ReadAsNotLonger(ps[2..]);
        assert |Meaning(ps[1..])| == 1 + |Meaning(ps[2..])|;
      } else {
        HighHighLow(ps);
        LosesTail(ps, 3);
        ShorterExactlyWhenLosing(ps[3..]);
      }
    }
  }

  lemma {:induction false} HexDigits4(s: string)
    requires |s| == 4 && forall i :: 0 <= i < 4 ==> HexDigit(s[i]).Some?
    ensures HexValue(s) == Some(HexDigit(s[0]).value * 4096 + HexDigit(s[1]).value * 256 +
                                HexDigit(s[2]).value * 16 + HexDigit(s[3]).value)
  {
    assert HexValue(s[..0]) == Some(0);
    HexPrefix(s, 0);
    HexPrefix(s, 1);
    HexPrefix(s, 2);
    HexPrefix(s, 3);
    assert s[..4] == s;
    hide HexValue, HexDigit;
  }

  lemma {:induction false} HexPrefix(s: string, k: nat)
    requires k < |s| && HexDigit(s[k]).Some? && HexValue(s[..k]).Some?
    ensures HexValue(s[..k + 1]) == Some(16 * HexValue(s[..k]).value + HexDigit(s[k]).value)
  {
    assert s[..k + 1][..k] == s[..k];
  }

  // ---- reading a spelling -----------------------------------------------

  lemma Hex4Reads(p: Piece, rest: string)
    requires p.WellFormed() && p.Code?
    ensures Hex4F(p.digits + rest) == Done(p.Unit(), rest)
  {
    var s := p.digits + rest;
    assert s[..4] == p.digits && s[4..] == rest;
    HexValueTotal(p.digits);
    assert HexDigit(p.digits[0]).Some?;
  }

  /** An escape is read by what follows its backslash. */
  lemma {:induction false} BackslashReads(s: string, c: char, r: string)
    requires EscapeF(s) == Done(c, r) && |r| < |s|
    ensures BodyF("\\" + s) == Push([c], BodyF(r))
  {
    hide EscapeF;
    assert ("\\" + s)[1..] == s;
  }

  lemma {:induction false} ShortReads(p: Piece, s: string)
    requires p.WellFormed() && p.Short?
    ensures EscapeF([p.letter] + s) == Done(p.Alone(), s)
  {
    assert ([p.letter] + s)[1..] == s;
  }

  lemma {:induction false} PlainReads(p: Piece, s: string)
    requires p.WellFormed() && !p.Code?
    ensures BodyF(p.Text() + s) == Push([p.Alone()], BodyF(s))
  {
    if p.Raw? {
      assert (p.Text() + s)[1..] == s;
    } else {
      ShortReads(p, s);
      hide EscapeF;
      BackslashReads([p.letter] + s, p.Alone(), s);
      assert p.Text() + s == "\\" + ([p.letter] + s);
    }
  }

  lemma CodeReads(p: Piece, s: string)
    requires p.WellFormed() && p.Code? && (p.High() ==> !("\\u" <= s))
    ensures BodyF(p.Text() + s) == Push([p.Alone()], BodyF(s))
  {
    var all := p.Text() + s;
    assert all[1..][1..] == p.digits + s;
    Hex4Reads(p, s);
  }

  lemma PairReads(p: Piece, q: Piece, s: string)
    requires p.WellFormed() && p.Code? && p.High() && q.WellFormed() && q.Code?
    ensures BodyF(p.Text() + (q.Text() + s)) == Push([if q.Low() then Pair(p, q) else REPLACEMENT], BodyF(s))
  {
    var s1 := q.Text() + s;
    var all := p.Text() + s1;
    assert all[1..][1..] == p.digits + s1;
    Hex4Reads(p, s1);
    assert s1[2..] == q.digits + s && "\\u" <= s1;
    Hex4Reads(q, s);
  }

  lemma {:induction false} LeadText(ps: seq<Piece>, rest: string)
    requires ps != []
    ensures PiecesText(ps) + "\"" + rest == ps[0].Text() + (PiecesText(ps[1..]) + "\"" + rest)
  {
  }

  /** Only a `\u` piece starts with the two characters of a `\u` escape. */
  lemma {:induction false} NoUnicodeAhead(ps: seq<Piece>, rest: string)
    requires WellFormed(ps) && (ps == [] || !ps[0].Code?)
    ensures !("\\u" <= PiecesText(ps) + "\"" + rest)
  {
    var s := PiecesText(ps) + "\"" + rest;
    assert "\\u"[0] == '\\' && "\\u"[1] == 'u';
    if ps == [] {
      assert s[0] == '"';
    } else {
      LeadText(ps, rest);
      hide PiecesText;
      assert ps[0].Short? ==> s[1] == ps[0].letter;
    }
  }

  /** The reader's view of the pieces, for every spelling and everything after it. */
  lemma {:induction false} BodyReads(ps: seq<Piece>, rest: string)
    requires WellFormed(ps)
    ensures BodyF(PiecesText(ps) + "\"" + rest) == Done(ReadAs(ps), rest)
    decreases |ps|
  {
    if ps == [] {
      QuoteEnds(rest);
    } else {
      var s1 := PiecesText(ps[1..]) + "\"" + rest;
      LeadText(ps, rest);
      if ps[0].High() && |ps| > 1 && ps[1].Code? {
        LeadText(ps[1..], rest);
        assert ps[1..][1..] == ps[2..];
        var s2 := PiecesText(ps[2..]) + "\"" + rest;
        hide BodyF, PiecesText, Piece.Text;
        PairReads(ps[0], ps[1], s2);
        BodyReads(ps[2..], rest);
      } else {
        if ps[0].High() {
          NoUnicodeAhead(ps[1..], rest);
        }
        hide BodyF, PiecesText, Piece.Text;
        if ps[0].Code? {
          CodeReads(ps[0], s1);
        } else {
          PlainReads(ps[0], s1);
        }
        BodyReads(ps[1..], rest);
      }
    }
  }

  lemma {:induction false} QuoteEnds(rest: string)
    ensures BodyF(PiecesText([]) + "\"" + rest) == Done("", rest)
  {
    var s := PiecesText([]) + "\"" + rest;
    assert s == "\"" + rest && s[1..] == rest;
  }

  /** The shortest failing literal: the letter after the unpaired surrogate is lost. */
  lemma SwallowedLetter()
    ensures BodyF("\\ud800\\u0041\"") == Done([REPLACEMENT], "")
    ensures var ps := [Code("d800"), Code("0041")];
      WellFormed(ps) && PiecesText(ps) + "\"" == "\\ud800\\u0041\"" && Meaning(ps) == [REPLACEMENT, 'A']
  {
    hide BodyF, PiecesText, ReadAs, Meaning;
    var high, letter := Code("d800"), Code("0041");
    HexDigits4("d800");
    HexDigits4("0041");
    assert high.High() && letter.Unit() == 0x41;
    TwoPieces(high, letter);
    BodyReads([high, letter], "");
    assert PiecesText([high, letter]) + "\"" + "" == "\\ud800\\u0041\"";
    assert ReadAs([high, letter]) == [REPLACEMENT];
  }

  lemma TwoPieces(a: Piece, b: Piece)
    requires a.WellFormed() && b.WellFormed() && !b.Low() && b.Code?
    ensures PiecesText([a, b]) == a.Text() + b.Text()
    ensures Meaning([a, b]) == [a.Alone(), b.Alone()]
    ensures ReadAs([a, b]) == if a.High() then [REPLACEMENT] else [a.Alone(), b.Alone()]
  {
    var ps := [a, b];
    assert ps[1..] == [b] && ps[2..] == [] && [b][1..] == [];
    assert PiecesText([b]) == b.Text() + "" == b.Text();
    assert Meaning([b]) == [b.Alone()] + "" == [b.Alone()];
    assert ReadAs([b]) == [b.Alone()] + "" == [b.Alone()];
    assert ReadAs([]) == "";
  }

}
