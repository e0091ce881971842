/**
 What the JSON reader accepts, and nothing else. `JsonDocs` says that documents
 are read; here every text that is read turns out to be a document, with the
 reader's own leniencies spelled out: raw control characters in strings, a plus
 sign in place of the first digit of a `\u` escape, and the numerals of
 `f64::from_str`.
 */
module JsonAccepts {
  import opened JsonDocs
  import opened JsonGrammar
  import opened JsonStrings

  // ---- strings ------------------------------------------------------------

  /** Four hex digits, or a plus sign and three. */
  predicate FourHex(d: string) {
    |d| == 4 && (HexDigit(d[0]).Some? || d[0] == '+') &&
    HexDigit(d[1]).Some? && HexDigit(d[2]).Some? && HexDigit(d[3]).Some?
  }

  /** What may stand between two quotes. */
  predicate BodyOk(b: string)
    decreases |b|
  {
    b == "" ||
    (b[0] != '"' && b[0] != '\\' && BodyOk(b[1..])) ||
    (|b| >= 2 && b[0] == '\\' && b[1] in "\"\\/bfnrt" && BodyOk(b[2..])) ||
    (|b| >= 6 && b[0] == '\\' && b[1] == 'u' && FourHex(b[2..6]) && BodyOk(b[6..]))
  }

  lemma {:induction false} HexValueDigits(s: string)
    requires HexValue(s).Some?
    ensures forall i :: 0 <= i < |s| ==> HexDigit(s[i]).Some?
  {
    if s != "" {
      HexValueDigits(s[..|s| - 1]);
      assert forall i :: 0 <= i < |s| - 1 ==> s[i] == s[..|s| - 1][i];
    }
  }

  lemma {:induction false} FourHexIs(d: string)
    requires |d| == 4
    ensures FromRadix16(d).Some? <==> FourHex(d)
  {
    var tail := d[1..];
    assert tail[0] == d[1] && tail[1] == d[2] && tail[2] == d[3];
    if FromRadix16(d).Some? {
      HexValueDigits(if d[0] == '+' then tail else d);
    }
    if FourHex(d) {
      if d[0] == '+' {
        HexValueTotal(tail);
      } else {
        HexValueTotal(d);
      }
    }
  }

  /** A `\u` escape, with the one after it that the reader may take along. */
  lemma {:induction false} UnicodeAccepted(s: string) returns (n: nat)
    requires |s| >= 2 && s[0] == '\\' && s[1] == 'u' && UnicodeF(s[2..]).Done?
    ensures n <= |s| && UnicodeF(s[2..]).rest == s[n..]
    ensures (n == 6 && FourHex(s[2..6])) ||
      (n == 12 && FourHex(s[2..6]) && s[6] == '\\' && s[7] == 'u' && FourHex(s[8..12]))
  {
    var t := s[2..];
    assert Hex4F(t).Done?;
    assert t[..4] == s[2..6] && t[4..] == s[6..];
    FourHexIs(s[2..6]);
    n := 6;
    var code, r := Hex4F(t).value, s[6..];
    if HighSurrogate(code) && "\\u" <= r {
      assert r[..2] == "\\u" && r[0] == '\\' && r[1] == 'u' && r[2..] == s[8..];
      assert Hex4F(s[8..]).Done?;
      assert s[8..][..4] == s[8..12] && s[8..][4..] == s[12..];
      FourHexIs(s[8..12]);
      n := 12;
    }
  }

  lemma {:induction false} ShortAccepted(s: string)
    requires s != "" && s[0] != 'u' && EscapeF(s).Done?
    ensures s[0] in "\"\\/bfnrt" && EscapeF(s).rest == s[1..]
  {
  }

  lemma {:induction false} OneMore(s: string, n: nat, body: string, rest: string)
    requires n <= |s| && s[n..] == body + ("\"" + rest)
    ensures s == (s[..n] + body) + ("\"" + rest)
  {
    assert s == s[..n] + s[n..];
  }

  /** A string that is read is a proper body up to its closing quote. */
  lemma {:induction false} BodyAccepted(s: string) returns (body: string)
    requires BodyF(s).Done?
    ensures BodyOk(body) && s == body + ("\"" + BodyF(s).rest)
    decreases |s|
  {
    var rest := BodyF(s).rest;
    if s[0] == '"' {
      body := "";
      assert s == "\"" + s[1..] && "" + ("\"" + rest) == "\"" + rest;
    } else if s[0] != '\\' {
      var more := BodyAccepted(s[1..]);
      body := s[..1] + more;
      OneMore(s, 1, more, rest);
      assert body[0] == s[0] && body[1..] == more;
    } else if s[1..][0] != 'u' {
      ShortAccepted(s[1..]);
      assert s[1..][1..] == s[2..];
      hide EscapeF;
      var more := BodyAccepted(s[2..]);
      body := s[..2] + more;
      OneMore(s, 2, more, rest);
      assert body[0] == s[0] && body[1] == s[1] && body[2..] == more;
    } else {
      assert s[1..][1..] == s[2..] && EscapeF(s[1..]) == UnicodeF(s[2..]);
      var n := UnicodeAccepted(s);
      hide EscapeF, UnicodeF;
      var more := BodyAccepted(s[n..]);
      body := s[..n] + more;
      OneMore(s, n, more, rest);
      CodesOk(s, n, body, more);
    }
  }

  lemma {:induction false} CodesOk(s: string, n: nat, body: string, more: string)
    requires n <= |s| && body == s[..n] + more && BodyOk(more) && n >= 6 && s[0] == '\\' && s[1] == 'u'
    requires FourHex(s[2..6])
    requires n == 6 || (n == 12 && s[6] == '\\' && s[7] == 'u' && FourHex(s[8..12]))
    ensures BodyOk(body)
  {
    assert body[2..6] == s[2..6] && body[0] == s[0] && body[1] == s[1];
    if n == 6 {
      assert body[6..] == more;
    } else {
      var tail := body[6..];
      assert tail[0] == s[6] && tail[1] == s[7] && tail[2..6] == s[8..12] && tail[6..] == more;
      hide FourHex;
      assert BodyOk(tail);
    }
  }

  // ---- trees --------------------------------------------------------------

  /** The tokens of a text with the whitespace between them. */
  datatype Tree =
    | Keyword(word: string)
    | Numeric(lexeme: string)
    | Literal(body: string)
    | Brackets(inner: string, items: seq<Item>)
    | Braces(inner: string, entries: seq<Entry>)

  datatype Item = Item(before: string, tree: Tree, after: string)

  datatype Entry = Entry(before: string, key: string, mid: string, gap: string, tree: Tree, after: string)

  predicate TreeOk(t: Tree)
    decreases t
  {
    match t
    case Keyword(word) => word == "true" || word == "false" || word == "null"
    case Numeric(lexeme) => (forall i :: 0 <= i < |lexeme| ==> NumberChar(lexeme[i])) && Numeral(lexeme).Some?
    case Literal(body) => BodyOk(body)
    case Brackets(inner, items) => Blank(inner) && ItemsOk(items)
    case Braces(inner, entries) => Blank(inner) && EntriesOk(entries)
  }

  predicate ItemsOk(items: seq<Item>)
    decreases items
  {
    items == [] ||
    (Blank(items[0].before) && TreeOk(items[0].tree) && Blank(items[0].after) && ItemsOk(items[1..]))
  }

  predicate EntriesOk(entries: seq<Entry>)
    decreases entries
  {
    entries == [] ||
    (EntryBlanks(entries[0]) && BodyOk(entries[0].key) && TreeOk(entries[0].tree) && EntriesOk(entries[1..]))
  }

  predicate EntryBlanks(e: Entry) {
    Blank(e.before) && Blank(e.mid) && Blank(e.gap) && Blank(e.after)
  }

  function TreeText(t: Tree): string
    decreases t
  {
    match t
    case Keyword(word) => word
    case Numeric(lexeme) => lexeme
    case Literal(body) => "\"" + (body + "\"")
    case Brackets(inner, items) => "[" + (inner + (ItemsText(items) + "]"))
    case Braces(inner, entries) => "{" + (inner + (EntriesText(entries) + "}"))
  }

  function ItemsText(items: seq<Item>): string
    decreases items
  {
    if items == [] then ""
    else ItemText(items[0]) + (if |items| > 1 then "," + ItemsText(items[1..]) else "")
  }

  function ItemText(i: Item): string
    decreases i
  {
    i.before + (TreeText(i.tree) + i.after)
  }

  function EntriesText(entries: seq<Entry>): string
    decreases entries
  {
    if entries == [] then ""
    else EntryText(entries[0]) + (if |entries| > 1 then "," + EntriesText(entries[1..]) else "")
  }

  function EntryText(e: Entry): string
    decreases e
  {
    e.before + ("\"" + (e.key + "\"") + (e.mid + (":" + (e.gap + (TreeText(e.tree) + e.after)))))
  }

  // ---- every text that is read --------------------------------------------

  lemma {:induction false} SkipSplits(s: string) returns (ws: string)
    ensures Blank(ws) && s == ws + SkipSpace(s)
  {
    if s == "" || !Space(s[0]) {
      ws := "";
    } else {
      var more := SkipSplits(s[1..]);
      ws := [s[0]] + more;
      assert s == [s[0]] + (more + SkipSpace(s[1..]));
    }
  }

  lemma {:induction false} WordAccepted(word: string, value: Json, s: string)
    requires word != "" && WordF(word, value, s).Done?
    ensures s == word + WordF(word, value, s).rest
  {
  }

  lemma {:induction false} StringAccepted(s: string) returns (body: string)
    requires StringF(s).Done?
    ensures BodyOk(body) && s == "\"" + (body + "\"") + StringF(s).rest
  {
    body := BodyAccepted(s[1..]);
    var rest := BodyF(s[1..]).rest;
    assert s == "\"" + s[1..];
    assert "\"" + (body + ("\"" + rest)) == "\"" + (body + "\"") + rest;
  }

  lemma {:induction false} NumberAccepted(s: string)
    requires NumberF(s).Done?
    ensures var n := NumberSpan(s);
      TreeOk(Numeric(s[..n])) && s == s[..n] + NumberF(s).rest
  {
    hide Numeral;
  }

  /** A text whose value is read begins with a tree of tokens; what is left is what follows it. */
  lemma {:induction false} ValueAccepted(s: string) returns (t: Tree)
    requires ValueF(s).Done?
    ensures TreeOk(t) && s == TreeText(t) + ValueF(s).rest
    decreases |s|, 1
  {
    if s[0] == '{' {
      t := ObjectAccepted(s);
    } else if s[0] == '[' {
      t := ArrayAccepted(s);
    } else if s[0] == '"' {
      var body := StringAccepted(s);
      t := Literal(body);
    } else if s[0] == 't' {
      WordAccepted("true", Bool(true), s);
      t := Keyword("true");
    } else if s[0] == 'f' {
      WordAccepted("false", Bool(false), s);
      t := Keyword("false");
    } else if s[0] == 'n' {
      WordAccepted("null", Null, s);
      t := Keyword("null");
    } else {
      NumberAccepted(s);
      t := Numeric(s[..NumberSpan(s)]);
    }
  }

  lemma {:induction false} ArrayAccepted(s: string) returns (t: Tree)
    requires ArrayF(s).Done?
    ensures TreeOk(t) && s == TreeText(t) + ArrayF(s).rest
    decreases |s|, 0
  {
    var inner := SkipSpace(s[1..]);
    var ws := SkipSplits(s[1..]);
    var rest := ArrayF(s).rest;
    if inner != "" && inner[0] == ']' {
      t := Brackets(ws, []);
      assert inner == "]" + rest && "" + "]" == "]";
      Bracketed(s, "[", ws, "", "]", rest);
    } else {
      var items := ItemsAccepted(inner);
      t := Brackets(ws, items);
      Bracketed(s, "[", ws, ItemsText(items), "]", rest);
    }
  }

  lemma {:induction false} Bracketed(s: string, open: string, ws: string, body: string, close: string, rest: string)
    requires s != "" && open == [s[0]] && s[1..] == ws + (body + (close + rest))
    ensures s == (open + (ws + (body + close))) + rest
  {
    assert s == open + s[1..];
    assert ws + (body + (close + rest)) == (ws + (body + close)) + rest;
  }

  lemma {:induction false} ItemsAccepted(s: string) returns (items: seq<Item>)
    requires ItemsF(s).Done?
    ensures items != [] && ItemsOk(items) && s == ItemsText(items) + ("]" + ItemsF(s).rest)
    decreases |s|, 2
  {
    var before := SkipSplits(s);
    var here := SkipSpace(s);
    var tree := ValueAccepted(here);
    var r := ValueF(here).rest;
    var after := SkipSplits(r);
    var t := SkipSpace(r);
    var rest := ItemsF(s).rest;
    var item := Item(before, tree, after);
    assert s == ItemText(item) + t by {
      Flattened(before, TreeText(tree), after, t);
    }
    if t[0] == ']' {
      items := [item];
      assert t == "]" + rest && ItemsText(items) == ItemText(item) + "" == ItemText(item);
      assert ItemsOk(items[1..]);
    } else {
      var more := ItemsAccepted(t[1..]);
      items := [item] + more;
      assert items[1..] == more;
      MoreOf(s, ItemText(item), t, ItemsText(more), "]" + rest);
    }
  }

  lemma {:induction false} Flattened(before: string, text: string, after: string, t: string)
    ensures before + (text + (after + t)) == (before + (text + after)) + t
  {
  }

  lemma {:induction false} MoreOf(s: string, first: string, t: string, more: string, end: string)
    requires s == first + t && t != "" && t[0] == ',' && t[1..] == more + end
    ensures s == (first + ("," + more)) + end
  {
    assert t == "," + t[1..];
    assert "," + (more + end) == ("," + more) + end;
  }

  lemma {:induction false} ObjectAccepted(s: string) returns (t: Tree)
    requires ObjectF(s).Done?
    ensures TreeOk(t) && s == TreeText(t) + ObjectF(s).rest
    decreases |s|, 0
  {
    var inner := SkipSpace(s[1..]);
    var ws := SkipSplits(s[1..]);
    var rest := ObjectF(s).rest;
    if inner != "" && inner[0] == '}' {
      t := Braces(ws, []);
      assert inner == "}" + rest && "" + "}" == "}";
      Bracketed(s, "{", ws, "", "}", rest);
    } else {
      var entries := MembersAccepted(inner);
      t := Braces(ws, entries);
      Bracketed(s, "{", ws, EntriesText(entries), "}", rest);
    }
  }

  /** A key, a colon and a value, with the blanks before and between them. */
  lemma {:induction false} MemberAccepted(s: string) returns (e: Entry)
    requires MemberF(s).Done?
    ensures EntryBlanks(e) && BodyOk(e.key) && TreeOk(e.tree) && e.after == ""
    ensures s == EntryText(e) + MemberF(s).rest
    decreases |s|, 2
  {
    hide TreeOk, TreeText, BodyOk, StringF, SkipSpace;
    var before := SkipSplits(s);
    var here := SkipSpace(s);
    var key := StringAccepted(here);
    var r := StringF(here).rest;
    var mid := SkipSplits(r);
    var t := SkipSpace(r);
    var gap := SkipSplits(t[1..]);
    var u := SkipSpace(t[1..]);
    var tree := ValueAccepted(u);
    var rest := ValueF(u).rest;
    e := Entry(before, key, mid, gap, tree, "");
    assert t == ":" + t[1..];
    Chained(before, "\"" + (key + "\""), mid, gap, TreeText(tree), rest);
  }

  lemma {:induction false} Chained(before: string, key: string, mid: string, gap: string, text: string, rest: string)
    ensures before + (key + (mid + (":" + (gap + (text + rest))))) ==
      (before + (key + (mid + (":" + (gap + (text + "")))))) + rest
  {
    assert text + "" == text;
    assert mid + (":" + (gap + (text + rest))) == (mid + (":" + (gap + text))) + rest;
    assert key + ((mid + (":" + (gap + text))) + rest) == (key + (mid + (":" + (gap + text)))) + rest;
  }

  lemma {:induction false} MembersAccepted(s: string) returns (entries: seq<Entry>)
    requires MembersF(s).Done?
    ensures entries != [] && EntriesOk(entries) && s == EntriesText(entries) + ("}" + MembersF(s).rest)
    decreases |s|, 3
  {
    hide EntryText, TreeOk, BodyOk, MemberF, SkipSpace, EntryBlanks;
    var first := MemberAccepted(s);
    var r := MemberF(s).rest;
    var after := SkipSplits(r);
    var t := SkipSpace(r);
    var rest := MembersF(s).rest;
    var entry := first.(after := after);
    AfterIs(first, after, t);
    if t[0] == '}' {
      entries := [entry];
      OneEntry(entry);
      assert t == "}" + rest;
    } else {
      var more := MembersAccepted(t[1..]);
      entries := [entry] + more;
      MoreEntries(entry, more);
      hide EntriesOk, EntriesText;
      MoreOf(s, EntryText(entry), t, EntriesText(more), "}" + rest);
    }
  }

  lemma {:induction false} OneEntry(e: Entry)
    requires EntryBlanks(e) && BodyOk(e.key) && TreeOk(e.tree)
    ensures EntriesOk([e]) && EntriesText([e]) == EntryText(e)
  {
    hide EntryText, TreeOk, BodyOk;
    assert [e][1..] == [] && EntryText(e) + "" == EntryText(e);
  }

  lemma {:induction false} MoreEntries(e: Entry, more: seq<Entry>)
    requires EntryBlanks(e) && BodyOk(e.key) && TreeOk(e.tree) && more != [] && EntriesOk(more)
    ensures EntriesOk([e] + more) && EntriesText([e] + more) == EntryText(e) + ("," + EntriesText(more))
  {
    hide EntryText, TreeOk, BodyOk;
    assert ([e] + more)[1..] == more;
  }

  lemma {:induction false} AfterIs(e: Entry, after: string, t: string)
    requires e.after == "" && EntryBlanks(e) && Blank(after)
    ensures EntryBlanks(e.(after := after))
    ensures EntryText(e) + (after + t) == EntryText(e.(after := after)) + t
  {
    var key, text := "\"" + (e.key + "\""), TreeText(e.tree);
    Chained(e.before, key, e.mid, e.gap, text, after);
    assert EntryText(e) + after == EntryText(e.(after := after));
    assert EntryText(e) + (after + t) == (EntryText(e) + after) + t;
  }

  lemma {:induction false} ParseAccepted(text: string) returns (before: string, t: Tree, after: string)
    requires ParseF(text).Ok?
    ensures Blank(before) && TreeOk(t) && Blank(after) && text == before + (TreeText(t) + after)
  {
    before := SkipSplits(text);
    t := ValueAccepted(SkipSpace(text));
    var r := ValueF(SkipSpace(text)).rest;
    after := SkipSplits(r);
    assert after + "" == after;
  }

  // ---- every tree is read -------------------------------------------------

  lemma {:induction false} Hex4Taken(s: string)
    requires |s| >= 4 && FourHex(s[..4])
    ensures Hex4F(s).Done? && Hex4F(s).rest == s[4..]
  {
    FourHexIs(s[..4]);
    hide FourHex;
  }

  /** How many characters of a body the reader takes for a `\u` escape. */
  lemma {:induction false} UnicodeTaken(body: string, end: string) returns (n: nat)
    requires BodyOk(body) && |body| >= 2 && body[0] == '\\' && body[1] == 'u' && end != "" && end[0] == '"'
    ensures 6 <= n <= |body| && BodyOk(body[n..])
    ensures var s := body + end; UnicodeF(s[2..]).Done? && UnicodeF(s[2..]).rest == s[n..]
  {
    var s := body + end;
    var t := s[2..];
    assert FourHex(body[2..6]) && BodyOk(body[6..]);
    assert t[..4] == body[2..6] && t[4..] == s[6..] && s[6..] == body[6..] + end;
    Hex4Taken(t);
    n := 6;
    var tail := body[6..];
    if HighSurrogate(Hex4F(t).value) && "\\u" <= s[6..] {
      EscapeAhead(tail, end);
      assert FourHex(tail[2..6]) && BodyOk(tail[6..]);
      assert s[6..][2..] == s[8..] && s[8..][..4] == tail[2..6] && s[8..][4..] == s[12..] && tail[6..] == body[12..];
      Hex4Taken(s[8..]);
      n := 12;
    }
  }

  /** A `\u` that stands before the closing quote stands in the body. */
  lemma {:induction false} EscapeAhead(tail: string, end: string)
    requires BodyOk(tail) && end != "" && end[0] == '"' && "\\u" <= tail + end
    ensures |tail| >= 2 && tail[0] == '\\' && tail[1] == 'u'
  {
    var s := tail + end;
    assert "\\u"[0] == '\\' && "\\u"[1] == 'u' && s[0] == '\\' && s[1] == 'u';
  }

  lemma {:induction false} UnicodeStep(s: string, n: nat, rest: string)
    requires |s| >= 2 && n <= |s| && s[0] == '\\' && s[1] == 'u'
    requires UnicodeF(s[2..]).Done? && UnicodeF(s[2..]).rest == s[n..]
    requires BodyF(s[n..]).Done? && BodyF(s[n..]).rest == rest
    ensures BodyF(s).Done? && BodyF(s).rest == rest
  {
    assert s[1..][0] == 'u' && s[1..][1..] == s[2..];
    assert EscapeF(s[1..]) == UnicodeF(s[2..]);
    hide EscapeF, UnicodeF;
  }

  lemma {:induction false} BodyTaken(body: string, rest: string)
    requires BodyOk(body)
    ensures BodyF(body + ("\"" + rest)).Done? && BodyF(body + ("\"" + rest)).rest == rest
    decreases |body|
  {
    var end := "\"" + rest;
    var s := body + end;
    if body == "" {
      assert s == end && s[1..] == rest;
    } else if body[0] != '\\' {
      assert s[1..] == body[1..] + end;
      BodyTaken(body[1..], rest);
    } else if body[1] != 'u' {
      assert s[1..][0] == body[1] && s[1..][1..] == s[2..] && s[2..] == body[2..] + end;
      ShortTaken(s[1..]);
      hide EscapeF;
      BodyTaken(body[2..], rest);
    } else {
      var n := UnicodeTaken(body, end);
      hide EscapeF, UnicodeF, FourHex, BodyOk;
      assert s[n..] == body[n..] + end && s[0] == body[0] && s[1] == body[1];
      BodyTaken(body[n..], rest);
      UnicodeStep(s, n, rest);
    }
  }

  lemma {:induction false} ShortTaken(s: string)
    requires s != "" && s[0] in "\"\\/bfnrt"
    ensures EscapeF(s).Done? && EscapeF(s).rest == s[1..]
  {
  }

  lemma {:induction false} StringTaken(body: string, rest: string)
    requires BodyOk(body)
    ensures var s := "\"" + (body + "\"") + rest; StringF(s).Done? && StringF(s).rest == rest
  {
    var s := "\"" + (body + "\"") + rest;
    BodyTaken(body, rest);
    assert s == "\"" + (body + ("\"" + rest));
    StringStep(s, body + ("\"" + rest));
  }

  lemma {:induction false} TreeStarts(t: Tree)
    requires TreeOk(t)
    ensures TreeText(t) != "" && !Space(TreeText(t)[0]) && TreeText(t)[0] != ']' && TreeText(t)[0] != '}'
  {
    match t
    case Numeric(lexeme) => assert lexeme != "" && NumberChar(lexeme[0]);
    case _ =>
  }

  /** Every tree is read up to where it ends. */
  lemma {:induction false} TreeTaken(t: Tree, rest: string)
    requires TreeOk(t) && Delimits(rest)
    ensures ValueF(TreeText(t) + rest).Done? && ValueF(TreeText(t) + rest).rest == rest
    decreases t, 1
  {
    match t
    case Keyword(word) => KeywordTaken(word, rest);
    case Numeric(lexeme) => NumberReads(lexeme, rest);
    case Literal(body) =>
      StringTaken(body, rest);
      ValueIsString(TreeText(t) + rest);
    case Brackets(inner, items) =>
      if items == [] {
        EmptyTaken('[', inner, ']', rest);
      } else {
        ItemsTaken(items, rest);
        BracketsTaken(inner, items, rest);
      }
    case Braces(inner, entries) =>
      if entries == [] {
        EmptyTaken('{', inner, '}', rest);
      } else {
        EntriesTaken(entries, rest);
        BracesTaken(inner, entries, rest);
      }
  }

  lemma {:induction false} KeywordTaken(word: string, rest: string)
    requires word == "true" || word == "false" || word == "null"
    ensures ValueF(word + rest).Done? && ValueF(word + rest).rest == rest
  {
    assert word <= word + rest && (word + rest)[|word|..] == rest;
  }

  lemma {:induction false} EmptyTaken(open: char, inner: string, close: char, rest: string)
    requires Blank(inner) && ((open == '[' && close == ']') || (open == '{' && close == '}'))
    ensures var s := ([open] + (inner + ("" + [close]))) + rest; ValueF(s).Done? && ValueF(s).rest == rest
  {
    var s := ([open] + (inner + ("" + [close]))) + rest;
    var end := [close] + rest;
    assert s[1..] == inner + end && end[1..] == rest;
    SkipTo(inner, end);
    if open == '[' {
      ListStep(s, end);
    } else {
      RecordStep(s, end);
    }
  }

  /** After a blank that stands before the first item or member, reading goes on as without it. */
  lemma {:induction false} BlankFirst(inner: string, s: string)
    requires Blank(inner)
    ensures SkipSpace(inner + s) == SkipSpace(s)
    ensures ItemsF(SkipSpace(inner + s)) == ItemsF(s) && MembersF(SkipSpace(inner + s)) == MembersF(s)
  {
    SkipBlank(inner, s);
    SkipIdempotent(s);
  }

  lemma {:induction false} BracketsTaken(inner: string, items: seq<Item>, rest: string)
    requires Blank(inner) && ItemsOk(items) && items != []
    requires ItemsF(ItemsText(items) + ("]" + rest)).Done? && ItemsF(ItemsText(items) + ("]" + rest)).rest == rest
    ensures var s := TreeText(Brackets(inner, items)) + rest; ValueF(s).Done? && ValueF(s).rest == rest
  {
    var body := ItemsText(items) + ("]" + rest);
    var s := TreeText(Brackets(inner, items)) + rest;
    BracketsText(inner, items, rest);
    FirstItem(items, rest);
    hide ValueF, ItemsF, TreeText, ItemsText, ItemsOk;
    assert s[1..] == inner + body;
    BlankFirst(inner, body);
    ListStep(s, SkipSpace(s[1..]));
  }

  lemma {:induction false} BracketsText(inner: string, items: seq<Item>, rest: string)
    ensures TreeText(Brackets(inner, items)) + rest == "[" + (inner + (ItemsText(items) + ("]" + rest)))
  {
    hide ItemsText;
  }

  /** What the first item leaves of the text of the items. */
  lemma {:induction false} FirstItem(items: seq<Item>, rest: string)
    requires ItemsOk(items) && items != []
    ensures var body := ItemsText(items) + ("]" + rest);
      SkipSpace(body) == TreeText(items[0].tree) + (items[0].after + AfterItem(items, rest)) &&
      SkipSpace(body) != "" && SkipSpace(body)[0] != ']'
  {
    var item := items[0];
    hide TreeOk, TreeText;
    var next := AfterItem(items, rest);
    var text := TreeText(item.tree) + (item.after + next);
    assert ItemsText(items) + ("]" + rest) == item.before + text;
    TreeStarts(item.tree);
    SkipTo(item.before, text);
  }

  function AfterItem(items: seq<Item>, rest: string): (next: string)
    requires items != []
    ensures Delimits(next)
  {
    if |items| == 1 then "]" + rest else "," + (ItemsText(items[1..]) + ("]" + rest))
  }

  lemma {:induction false} ItemsTaken(items: seq<Item>, rest: string)
    requires ItemsOk(items) && items != []
    ensures var body := ItemsText(items) + ("]" + rest); ItemsF(body).Done? && ItemsF(body).rest == rest
    decreases items, 0
  {
    var item, next := items[0], AfterItem(items, rest);
    FirstItem(items, rest);
    BlankDelimits(item.after, next);
    TreeTaken(item.tree, item.after + next);
    var body := ItemsText(items) + ("]" + rest);
    var v := ValueF(SkipSpace(body)).value;
    if |items| == 1 {
      ItemsStep(body, v, item.after, true, "", [], rest);
    } else {
      ItemsTaken(items[1..], rest);
      var tail := ItemsText(items[1..]) + ("]" + rest);
      ItemsStep(body, v, item.after, false, tail, ItemsF(tail).value, rest);
    }
  }

  lemma {:induction false} BracesTaken(inner: string, entries: seq<Entry>, rest: string)
    requires Blank(inner) && EntriesOk(entries) && entries != []
    requires var body := EntriesText(entries) + ("}" + rest); MembersF(body).Done? && MembersF(body).rest == rest
    ensures var s := TreeText(Braces(inner, entries)) + rest; ValueF(s).Done? && ValueF(s).rest == rest
  {
    var body := EntriesText(entries) + ("}" + rest);
    var s := TreeText(Braces(inner, entries)) + rest;
    BracesText(inner, entries, rest);
    FirstEntry(entries, rest);
    hide ValueF, MembersF, TreeText, EntriesText, EntriesOk;
    assert s[1..] == inner + body;
    BlankFirst(inner, body);
    RecordStep(s, SkipSpace(s[1..]));
  }

  lemma {:induction false} BracesText(inner: string, entries: seq<Entry>, rest: string)
    ensures TreeText(Braces(inner, entries)) + rest == "{" + (inner + (EntriesText(entries) + ("}" + rest)))
  {
    hide EntriesText;
  }

  function AfterEntry(entries: seq<Entry>, rest: string): (next: string)
    requires entries != []
    ensures Delimits(next)
  {
    if |entries| == 1 then "}" + rest else "," + (EntriesText(entries[1..]) + ("}" + rest))
  }

  /** A member from its key on, up to the value and what follows it. */
  function FromKey(e: Entry, next: string): string {
    "\"" + (e.key + "\"") + (e.mid + (":" + (e.gap + (TreeText(e.tree) + (e.after + next)))))
  }

  lemma {:induction false} EntryThen(e: Entry, next: string)
    ensures EntryText(e) + next == e.before + FromKey(e, next)
  {
    hide TreeText;
    var key, text := "\"" + (e.key + "\""), TreeText(e.tree);
    assert text + (e.after + next) == (text + e.after) + next;
    assert e.mid + (":" + (e.gap + ((text + e.after) + next))) == (e.mid + (":" + (e.gap + (text + e.after)))) + next;
    assert key + ((e.mid + (":" + (e.gap + (text + e.after)))) + next) ==
      (key + (e.mid + (":" + (e.gap + (text + e.after))))) + next;
  }

  lemma {:induction false} FirstEntry(entries: seq<Entry>, rest: string)
    requires EntriesOk(entries) && entries != []
    ensures var body := EntriesText(entries) + ("}" + rest);
      body == entries[0].before + FromKey(entries[0], AfterEntry(entries, rest)) &&
      SkipSpace(body) == FromKey(entries[0], AfterEntry(entries, rest)) && SkipSpace(body)[0] == '"'
  {
    var e, next := entries[0], AfterEntry(entries, rest);
    EntryThen(e, next);
    hide TreeOk, TreeText, EntryText, BodyOk;
    assert EntriesText(entries) + ("}" + rest) == EntryText(e) + next;
    SkipTo(e.before, FromKey(e, next));
  }

  lemma {:induction false} EntryTaken(e: Entry, next: string)
    requires EntryBlanks(e) && BodyOk(e.key) && TreeOk(e.tree)
    requires var text := TreeText(e.tree) + (e.after + next);
      ValueF(text).Done? && ValueF(text).rest == e.after + next
    ensures var s := e.before + FromKey(e, next); MemberF(s).Done? && MemberF(s).rest == e.after + next
  {
    var value := TreeText(e.tree) + (e.after + next);
    var colon := ":" + (e.gap + value);
    TreeStarts(e.tree);
    hide TreeOk, TreeText, BodyOk, ValueF;
    SkipTo(e.before, FromKey(e, next));
    StringTaken(e.key, e.mid + colon);
    SkipTo(e.mid, colon);
    assert colon[1..] == e.gap + value;
    SkipTo(e.gap, value);
    MemberStep(e.before + FromKey(e, next), StringF(FromKey(e, next)).value, e.mid + colon, colon, value,
               ValueF(value).value, e.after + next);
  }

  lemma {:induction false} EntriesTaken(entries: seq<Entry>, rest: string)
    requires EntriesOk(entries) && entries != []
    ensures var body := EntriesText(entries) + ("}" + rest); MembersF(body).Done? && MembersF(body).rest == rest
    decreases entries, 0
  {
    var e, next := entries[0], AfterEntry(entries, rest);
    FirstEntry(entries, rest);
    BlankDelimits(e.after, next);
    TreeTaken(e.tree, e.after + next);
    EntryTaken(e, next);
    var body := EntriesText(entries) + ("}" + rest);
    hide TreeOk, TreeText, EntryText, BodyOk, MemberF, FromKey;
    var m := MemberF(body).value;
    if |entries| == 1 {
      MembersStep(body, m, e.after, true, "", [], rest);
    } else {
      EntriesTaken(entries[1..], rest);
      var tail := EntriesText(entries[1..]) + ("}" + rest);
      MembersStep(body, m, e.after, false, tail, MembersF(tail).value, rest);
    }
  }

  /** A text parses exactly when it is one tree of tokens with whitespace around it. */
  lemma {:induction false} ParsesExactly(text: string)
    ensures ParseF(text).Ok? <==>
      exists before, t, after :: Blank(before) && TreeOk(t) && Blank(after) && text == before + (TreeText(t) + after)
  {
    hide TreeOk, TreeText;
    if ParseF(text).Ok? {
      var before, t, after := ParseAccepted(text);
    }
    if before, t, after :| Blank(before) && TreeOk(t) && Blank(after) && text == before + (TreeText(t) + after) {
      TreeStarts(t);
      SkipTo(before, TreeText(t) + after);
      BlankDelimits(after, "");
      assert after + "" == after;
      TreeTaken(t, after);
      SkipBlank(after, "");
    }
  }
}
