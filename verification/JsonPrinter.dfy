/**
 The compact and the pretty printer, and the round trip through the reader.

 Each printer is a method that appends to a buffer and is proved to append the
 text of one document of `JsonDocs` with the printed value. Reading that
 document back is `ParseDoc`.
 */
module JsonPrinter {
  import opened Decimal
  import opened Hexadecimal
  import opened Wrappers
  import opened JsonGrammar
  import opened JsonStrings
  import opened JsonDocs

  /** The `String` that the printers push onto. */
  class Buffer {
    var text: string

    constructor ()
      ensures text == ""
    {
      text := "";
    }

    method Push(c: char)
      modifies this
      ensures text == old(text) + [c]
    {
      text := text + [c];
    }

    method PushStr(s: string)
      modifies this
      ensures text == old(text) + s
    {
      text := text + s;
    }
  }

  // ---- numbers ----------------------------------------------------------

  /** The numbers that are printed as integers. */
  predicate Whole(x: real) {
    x == x.Floor as real && -9200000000000000000.0 < x < 9200000000000000000.0
  }

  function NumberText(x: real): string
    requires Whole(x)
  {
    IntText(x.Floor)
  }

  lemma {:induction false} DigitSpanAll(s: string)
    requires Digits(s)
    ensures DigitSpan(s) == |s|
  {
    if s != "" {
      DigitSpanAll(s[1..]);
    }
  }

  lemma {:induction false} DigitsMagnitude(s: string)
    requires Digits(s) && s != ""
    ensures Magnitude(s) == Some(DigitsValue(s) as real)
  {
    DigitSpanAll(s);
    assert TimesPow10(DigitsValue(s), 0) == DigitsValue(s) as real;
    assert Exponent("") == Some(0);
    hide TimesPow10, DigitSpan, DigitsValue, Exponent;
    assert s[..|s|] + "" == s && s[|s|..] == "";
  }

  lemma {:induction false} UnsignedReads(s: string)
    requires Digits(s) && s != ""
    ensures Numeral(s) == Some(DigitsValue(s) as real)
    ensures Numeral("-" + s) == Some(-(DigitsValue(s) as real))
  {
    DigitsMagnitude(s);
    hide Magnitude, DigitsValue;
    assert ("-" + s)[1..] == s;
    assert Digit(s[0]);
  }

  /** A printed integer is a numeral with that value. */
  lemma IntTextReads(n: int)
    ensures Numeral(IntText(n)) == Some(n as real)
    ensures forall i :: 0 <= i < |IntText(n)| ==> NumberChar(IntText(n)[i])
  {
    var digits := NatText(if n < 0 then -n else n);
    NatTextValue(if n < 0 then -n else n);
    UnsignedReads(digits);
  }

  // ---- strings ----------------------------------------------------------

  /** `format!("{:04x}")`. */
  function Hex4Text(n: nat): (s: string)
    requires n < 0x10000
    ensures |s| == 4
    ensures Code(s).WellFormed()
  {
    [HexChar(n / 4096), HexChar(n / 256 % 16), HexChar(n / 16 % 16), HexChar(n % 16)]
  }

  lemma HexCharReads(d: nat)
    requires d < 16
    ensures HexDigit(HexChar(d)) == Some(d)
  {
  }

  lemma Hex4TextUnit(n: nat)
    requires n < 0x10000
    ensures Code(Hex4Text(n)).Unit() == n
  {
    var s := Hex4Text(n);
    HexDigits4(s);
    HexCharReads(n / 4096);
    HexCharReads(n / 256 % 16);
    HexCharReads(n / 16 % 16);
    HexCharReads(n % 16);
    HexDigitsSum(n);
  }

  lemma HexDigitsSum(n: nat)
    ensures n / 4096 * 4096 + n / 256 % 16 * 256 + n / 16 % 16 * 16 + n % 16 == n
  {
    assert n / 16 / 16 == n / 256 && n / 256 / 16 == n / 4096;
  }

  function EscapePiece(c: char): (p: Piece)
    ensures p.WellFormed()
  {
    if c == '"' then Short('"')
    else if c == '\\' then Short('\\')
    else if c == '\n' then Short('n')
    else if c == '\r' then Short('r')
    else if c == '\t' then Short('t')
    else if c as int == 0x08 then Short('b')
    else if c as int == 0x0C then Short('f')
    else if c as int < 0x20 then Code(Hex4Text(c as int))
    else Raw(c)
  }

  lemma EscapePieceAlone(c: char)
    ensures EscapePiece(c).Alone() == c && !EscapePiece(c).High()
  {
    if EscapePiece(c).Code? {
      Hex4TextUnit(c as int);
    }
  }

  function EscapePieces(text: string): (ps: seq<Piece>)
    ensures WellFormed(ps)
  {
    if text == "" then [] else [EscapePiece(text[0])] + EscapePieces(text[1..])
  }

  /** What the printer writes for a string is a spelling of exactly that string. */
  lemma {:induction false} EscapeMeans(text: string)
    ensures Spelling(EscapePieces(text)) && Meaning(EscapePieces(text)) == text
    ensures forall i :: 0 <= i < |EscapePieces(text)| ==> !EscapePieces(text)[i].High()
  {
    if text != "" {
      EscapePieceAlone(text[0]);
      EscapeMeans(text[1..]);
      var ps := EscapePieces(text);
      assert ps[1..] == EscapePieces(text[1..]);
      assert forall i :: 0 < i < |ps| ==> ps[i] == ps[1..][i - 1];
      assert [text[0]] + text[1..] == text;
    }
  }

  method EscapeChar(ch: char, out: Buffer)
    modifies out
    ensures out.text == old(out.text) + EscapePiece(ch).Text()
  {
    if ch == '"' {
      out.PushStr("\\\"");
    } else if ch == '\\' {
      out.PushStr("\\\\");
    } else if ch == '\n' {
      out.PushStr("\\n");
    } else if ch == '\r' {
      out.PushStr("\\r");
    } else if ch == '\t' {
      out.PushStr("\\t");
    } else if ch as int == 0x08 {
      out.PushStr("\\b");
    } else if ch as int == 0x0C {
      out.PushStr("\\f");
    } else if ch as int < 0x20 {
      out.PushStr("\\u" + Hex4Text(ch as int));
    } else {
      out.Push(ch);
    }
  }

  method Escape(text: string, out: Buffer)
    modifies out
    ensures out.text == old(out.text) + QuotedText(EscapePieces(text))
  {
    hide PiecesText, EscapePieces, EscapePiece, Piece.Text;
    out.Push('"');
    ghost var all := out.text + PiecesText(EscapePieces(text));
    ghost var left := PiecesText(EscapePieces(text));
    for i := 0 to |text|
      invariant left == PiecesText(EscapePieces(text[i..]))
      invariant out.text + left == all
    {
      PiecesStep(text[i..]);
      assert text[i..][1..] == text[i + 1..];
      left := PiecesText(EscapePieces(text[i + 1..]));
      Reassociate(out.text, EscapePiece(text[i]).Text(), left);
      EscapeChar(text[i], out);
    }
    NoPieces();
    assert out.text + "" == out.text;
    out.Push('"');
  }

  lemma NoPieces()
    ensures PiecesText(EscapePieces("")) == ""
  {
  }

  lemma Reassociate(a: string, b: string, c: string)
    ensures a + (b + c) == a + b + c
  {
  }

  lemma PiecesStep(text: string)
    requires text != ""
    ensures PiecesText(EscapePieces(text)) == EscapePiece(text[0]).Text() + PiecesText(EscapePieces(text[1..]))
  {
    assert EscapePieces(text)[1..] == EscapePieces(text[1..]);
  }

  // ---- values -----------------------------------------------------------

  /** Every number in the value is one that prints as an integer. */
  predicate Printable(v: Json)
    decreases v
  {
    match v
    case Num(x) => Whole(x)
    case Arr(items) => AllPrintable(items)
    case Obj(members) => AllMembersPrintable(members)
    case _ => true
  }

  predicate AllPrintable(items: seq<Json>)
    decreases items
  {
    items == [] || (Printable(items[0]) && AllPrintable(items[1..]))
  }

  predicate AllMembersPrintable(members: seq<Member>)
    decreases members
  {
    members == [] || (Printable(members[0].value) && AllMembersPrintable(members[1..]))
  }

  /** The document that `write_compact` writes: no whitespace at all. */
  function CompactDoc(v: Json): Doc
    requires Printable(v)
    decreases v
  {
    match v
    case Null => Word(v)
    case Bool(_) => Word(v)
    case Num(x) => Number(NumberText(x))
    case Str(text) => Quoted(EscapePieces(text))
    case Arr(items) => List("", CompactSlots(items))
    case Obj(members) => Record("", CompactFields(members))
  }

  function CompactSlots(items: seq<Json>): (slots: seq<Slot>)
    requires AllPrintable(items)
    ensures |slots| == |items|
    decreases items
  {
    if items == [] then [] else [Slot("", CompactDoc(items[0]), "")] + CompactSlots(items[1..])
  }

  function CompactFields(members: seq<Member>): (fields: seq<Field>)
    requires AllMembersPrintable(members)
    ensures |fields| == |members|
    decreases members
  {
    if members == [] then []
    else
      [Field("", EscapePieces(members[0].key), "", "", CompactDoc(members[0].value), "")] +
      CompactFields(members[1..])
  }

  function Indent(depth: nat): (s: string)
    ensures Blank(s)
  {
    if depth == 0 then "" else "  " + Indent(depth - 1)
  }

  function NewLine(depth: nat): (s: string)
    ensures Blank(s)
  {
    "\n" + Indent(depth)
  }

  /** The document that `write_pretty` writes: one item or member per line. */
  function PrettyDoc(v: Json, depth: nat): Doc
    requires Printable(v)
    decreases v
  {
    match v
    case Arr(items) => List("", PrettySlots(items, depth))
    case Obj(members) => Record("", PrettyFields(members, depth))
    case _ => CompactDoc(v)
  }

  function PrettySlots(items: seq<Json>, depth: nat): (slots: seq<Slot>)
    requires AllPrintable(items)
    ensures |slots| == |items|
    decreases items
  {
    if items == [] then []
    else
      [Slot(NewLine(depth + 1), PrettyDoc(items[0], depth + 1), if |items| == 1 then NewLine(depth) else "")] +
      PrettySlots(items[1..], depth)
  }

  function PrettyFields(members: seq<Member>, depth: nat): (fields: seq<Field>)
    requires AllMembersPrintable(members)
    ensures |fields| == |members|
    decreases members
  {
    if members == [] then []
    else
      [Field(NewLine(depth + 1), EscapePieces(members[0].key), "", " ", PrettyDoc(members[0].value, depth + 1),
             if |members| == 1 then NewLine(depth) else "")] +
      PrettyFields(members[1..], depth)
  }

  // ---- the documents carry the value ------------------------------------

  lemma {:induction false} CompactCarries(v: Json)
    requires Printable(v)
    ensures DocOk(CompactDoc(v)) && DocValue(CompactDoc(v)) == v
    decreases v, 1
  {
    match v
    case Num(x) => IntTextReads(x.Floor);
    case Str(text) => EscapeMeans(text);
    case Arr(items) => CompactSlotsCarry(items);
    case Obj(members) => CompactFieldsCarry(members);
    case _ =>
  }

  lemma {:induction false} CompactSlotsCarry(items: seq<Json>)
    requires AllPrintable(items)
    ensures SlotsOk(CompactSlots(items)) && SlotsValue(CompactSlots(items)) == items
    decreases items, 0
  {
    if items != [] {
      CompactCarries(items[0]);
      CompactSlotsCarry(items[1..]);
      assert CompactSlots(items)[1..] == CompactSlots(items[1..]);
      assert [items[0]] + items[1..] == items;
    }
  }

  lemma {:induction false} CompactFieldsCarry(members: seq<Member>)
    requires AllMembersPrintable(members)
    ensures FieldsOk(CompactFields(members)) && FieldsValue(CompactFields(members)) == members
    decreases members, 0
  {
    if members != [] {
      CompactCarries(members[0].value);
      EscapeMeans(members[0].key);
      CompactFieldsCarry(members[1..]);
      assert CompactFields(members)[1..] == CompactFields(members[1..]);
      assert [members[0]] + members[1..] == members;
    }
  }

  lemma {:induction false} PrettyCarries(v: Json, depth: nat)
    requires Printable(v)
    ensures DocOk(PrettyDoc(v, depth)) && DocValue(PrettyDoc(v, depth)) == v
    decreases v, 1
  {
    match v
    case Arr(items) => PrettySlotsCarry(items, depth);
    case Obj(members) => PrettyFieldsCarry(members, depth);
    case _ => CompactCarries(v);
  }

  lemma {:induction false} PrettySlotsCarry(items: seq<Json>, depth: nat)
    requires AllPrintable(items)
    ensures SlotsOk(PrettySlots(items, depth)) && SlotsValue(PrettySlots(items, depth)) == items
    decreases items, 0
  {
    if items != [] {
      PrettyCarries(items[0], depth + 1);
      PrettySlotsCarry(items[1..], depth);
      assert PrettySlots(items, depth)[1..] == PrettySlots(items[1..], depth);
      assert [items[0]] + items[1..] == items;
    }
  }

  lemma {:induction false} PrettyFieldsCarry(members: seq<Member>, depth: nat)
    requires AllMembersPrintable(members)
    ensures FieldsOk(PrettyFields(members, depth)) && FieldsValue(PrettyFields(members, depth)) == members
    decreases members, 0
  {
    if members != [] {
      PrettyCarries(members[0].value, depth + 1);
      EscapeMeans(members[0].key);
      PrettyFieldsCarry(members[1..], depth);
      assert PrettyFields(members, depth)[1..] == PrettyFields(members[1..], depth);
      assert [members[0]] + members[1..] == members;
    }
  }

  // ---- the printers write those documents --------------------------------

  lemma {:induction false} SlotsTextStep(slots: seq<Slot>)
    requires slots != [] && slots[0].before == ""
    ensures SlotsText(slots) == DocText(slots[0].doc) + (slots[0].after + MoreSlots(slots))
  {
    var text := DocText(slots[0].doc) + (slots[0].after + MoreSlots(slots));
    assert "" + text == text;
  }

  /** What the text of the items has after the first of them. */
  function MoreSlots(slots: seq<Slot>): string
    requires slots != []
  {
    if |slots| > 1 then "," + SlotsText(slots[1..]) else ""
  }

  lemma {:induction false} CompactItemsStep(items: seq<Json>)
    requires AllPrintable(items) && items != []
    ensures SlotsText(CompactSlots(items)) == DocText(CompactDoc(items[0])) + CompactMore(items)
  {
    var slots := CompactSlots(items);
    assert slots[1..] == CompactSlots(items[1..]);
    SlotsTextStep(slots);
    assert "" + MoreSlots(slots) == MoreSlots(slots);
  }

  function CompactMore(items: seq<Json>): string
    requires AllPrintable(items) && items != []
  {
    if |items| > 1 then "," + SlotsText(CompactSlots(items[1..])) else ""
  }

  lemma {:induction false} CompactMembersStep(members: seq<Member>)
    requires AllMembersPrintable(members) && members != []
    ensures FieldsText(CompactFields(members))
      == QuotedText(EscapePieces(members[0].key)) +
         (":" + (DocText(CompactDoc(members[0].value)) + CompactMoreMembers(members)))
  {
    var fields := CompactFields(members);
    assert fields[1..] == CompactFields(members[1..]);
    var more := CompactMoreMembers(members);
    var v := DocText(fields[0].doc);
    assert "" + more == more && "" + (v + more) == v + more;
    assert "" + (":" + (v + more)) == ":" + (v + more);
  }

  function CompactMoreMembers(members: seq<Member>): string
    requires AllMembersPrintable(members) && members != []
  {
    if |members| > 1 then "," + FieldsText(CompactFields(members[1..])) else ""
  }

  lemma {:induction false} PrintableSuffix(items: seq<Json>, i: nat)
    requires AllPrintable(items) && i <= |items|
    ensures AllPrintable(items[i..])
    ensures i < |items| ==> Printable(items[i])
  {
    if i > 0 {
      PrintableSuffix(items[1..], i - 1);
      assert items[1..][i - 1..] == items[i..];
    }
  }

  lemma {:induction false} MembersPrintableSuffix(members: seq<Member>, i: nat)
    requires AllMembersPrintable(members) && i <= |members|
    ensures AllMembersPrintable(members[i..])
    ensures i < |members| ==> Printable(members[i].value)
  {
    if i > 0 {
      MembersPrintableSuffix(members[1..], i - 1);
      assert members[1..][i - 1..] == members[i..];
    }
  }

  method WriteCompact(value: Json, out: Buffer)
    requires Printable(value)
    modifies out
    ensures out.text == old(out.text) + DocText(CompactDoc(value))
    decreases value
  {
    match value
    case Null => out.PushStr("null");
    case Bool(b) =>
      if b {
        out.PushStr("true");
      } else {
        out.PushStr("false");
      }
    case Num(x) => out.PushStr(NumberText(x));
    case Str(text) => Escape(text, out);
    case Arr(items) =>
      CompactArrayText(out.text, items);
      out.Push('[');
      WriteCompactItems(items, out);
      out.Push(']');
    case Obj(members) =>
      CompactObjectText(out.text, members);
      out.Push('{');
      WriteCompactMembers(members, out);
      out.Push('}');
  }

  lemma {:induction false} CompactArrayText(before: string, items: seq<Json>)
    requires AllPrintable(items)
    ensures before + DocText(CompactDoc(Arr(items))) == before + "[" + SlotsText(CompactSlots(items)) + "]"
  {
    hide SlotsText, CompactSlots;
    var text := SlotsText(CompactSlots(items));
    assert "[" + "" + text + "]" == "[" + text + "]";
    assert before + ("[" + text + "]") == before + "[" + text + "]";
  }

  lemma {:induction false} CompactObjectText(before: string, members: seq<Member>)
    requires AllMembersPrintable(members)
    ensures before + DocText(CompactDoc(Obj(members))) == before + "{" + FieldsText(CompactFields(members)) + "}"
  {
    hide FieldsText, CompactFields;
    var text := FieldsText(CompactFields(members));
    assert "{" + "" + text + "}" == "{" + text + "}";
    assert before + ("{" + text + "}") == before + "{" + text + "}";
  }

  /** The loop of `write_compact` over the items of an array. */
  method WriteCompactItems(items: seq<Json>, out: Buffer)
    requires AllPrintable(items)
    modifies out
    ensures out.text == old(out.text) + SlotsText(CompactSlots(items))
    decreases items
  {
    ghost var left := SlotsText(CompactSlots(items));
    ghost var all := out.text + left;
    for i := 0 to |items|
      invariant AllPrintable(items[i..])
      invariant var rest := SlotsText(CompactSlots(items[i..]));
        left == if 0 < i < |items| then "," + rest else rest
      invariant out.text + left == all
    {
      PrintableSuffix(items, i + 1);
      PrintableSuffix(items, i);
      ghost var item, more := DocText(CompactDoc(items[i])), CompactMore(items[i..]);
      CompactItemsStep(items[i..]);
      assert items[i..][1..] == items[i + 1..];
      if i > 0 {
        Reassociate(out.text, ",", item + more);
        out.Push(',');
      }
      Reassociate(out.text, item, more);
      WriteCompact(items[i], out);
      left := more;
    }
    assert out.text + "" == out.text;
  }

  method WriteCompactMembers(members: seq<Member>, out: Buffer)
    requires AllMembersPrintable(members)
    modifies out
    ensures out.text == old(out.text) + FieldsText(CompactFields(members))
    decreases members
  {
    ghost var left := FieldsText(CompactFields(members));
    ghost var all := out.text + left;
    for i := 0 to |members|
      invariant AllMembersPrintable(members[i..])
      invariant var rest := FieldsText(CompactFields(members[i..]));
        left == if 0 < i < |members| then "," + rest else rest
      invariant out.text + left == all
    {
      MembersPrintableSuffix(members, i + 1);
      MembersPrintableSuffix(members, i);
      ghost var key := QuotedText(EscapePieces(members[i].key));
      ghost var item, more := DocText(CompactDoc(members[i].value)), CompactMoreMembers(members[i..]);
      CompactMembersStep(members[i..]);
      assert members[i..][1..] == members[i + 1..];
      if i > 0 {
        Reassociate(out.text, ",", key + (":" + (item + more)));
        out.Push(',');
      }
      Reassociate(out.text, key, ":" + (item + more));
      Escape(members[i].key, out);
      Reassociate(out.text, ":", item + more);
      out.Push(':');
      Reassociate(out.text, item, more);
      WriteCompact(members[i].value, out);
      left := more;
    }
    assert out.text + "" == out.text;
  }

  /** The lines of the items still to be written, up to the closing bracket's indentation. */
  function PrettyLines(items: seq<Json>, depth: nat): string
    requires AllPrintable(items)
    decreases items
  {
    if items == [] then Indent(depth)
    else
      Indent(depth + 1) + (DocText(PrettyDoc(items[0], depth + 1)) +
      ((if |items| > 1 then "," else "") + ("\n" + PrettyLines(items[1..], depth))))
  }

  function PrettyMemberLines(members: seq<Member>, depth: nat): string
    requires AllMembersPrintable(members)
    decreases members
  {
    if members == [] then Indent(depth)
    else
      Indent(depth + 1) + (QuotedText(EscapePieces(members[0].key)) + (": " +
      (DocText(PrettyDoc(members[0].value, depth + 1)) +
      ((if |members| > 1 then "," else "") + ("\n" + PrettyMemberLines(members[1..], depth))))))
  }

  /** The text after an item or member: its own closing line, or a comma and the next line. */
  lemma LineEnd(last: bool, depth: nat, lines: string)
    ensures (if last then NewLine(depth) else "") + (if last then "" else "," + ("\n" + lines))
      == (if last then "" else ",") + ("\n" + if last then Indent(depth) else lines)
  {
  }

  lemma SlotLine(slot: Slot, tail: string, depth: nat, end: string)
    requires slot.before == NewLine(depth) && slot.after + tail == end
    ensures SlotText(slot, tail) == "\n" + (Indent(depth) + (DocText(slot.doc) + end))
  {
    Reassociate("\n", Indent(depth), DocText(slot.doc) + end);
  }

  lemma FieldLine(f: Field, tail: string, depth: nat, end: string)
    requires f.before == NewLine(depth) && f.mid == "" && f.gap == " " && f.after + tail == end
    ensures FieldText(f, tail)
      == "\n" + (Indent(depth) + (QuotedText(f.key) + (": " + (DocText(f.doc) + end))))
  {
    var rest := DocText(f.doc) + end;
    assert "" + (":" + (" " + rest)) == ": " + rest;
    Reassociate("\n", Indent(depth), QuotedText(f.key) + (": " + rest));
  }

  lemma {:induction false} PrettyLinesAreSlots(items: seq<Json>, depth: nat)
    requires AllPrintable(items) && items != []
    ensures SlotsText(PrettySlots(items, depth)) == "\n" + PrettyLines(items, depth)
    decreases items
  {
    var slots := PrettySlots(items, depth);
    assert slots[1..] == PrettySlots(items[1..], depth);
    var last := |items| == 1;
    if !last {
      PrettyLinesAreSlots(items[1..], depth);
    }
    var lines := PrettyLines(items[1..], depth);
    LineEnd(last, depth, lines);
    SlotLine(slots[0], if last then "" else "," + ("\n" + lines), depth + 1,
             (if last then "" else ",") + ("\n" + lines));
  }

  lemma {:induction false} PrettyMemberLinesAreFields(members: seq<Member>, depth: nat)
    requires AllMembersPrintable(members) && members != []
    ensures FieldsText(PrettyFields(members, depth)) == "\n" + PrettyMemberLines(members, depth)
    decreases members
  {
    var fields := PrettyFields(members, depth);
    assert fields[1..] == PrettyFields(members[1..], depth);
    var last := |members| == 1;
    if !last {
      PrettyMemberLinesAreFields(members[1..], depth);
    }
    var lines := PrettyMemberLines(members[1..], depth);
    LineEnd(last, depth, lines);
    FieldLine(fields[0], if last then "" else "," + ("\n" + lines), depth + 1,
              (if last then "" else ",") + ("\n" + lines));
  }

  lemma Enclose(before: string, open: string, lines: string, close: string)
    ensures before + (open + "\n") + lines + close == before + (open + "" + ("\n" + lines) + close)
  {
  }

  lemma {:induction false} EncloseItems(before: string, items: seq<Json>, depth: nat)
    requires AllPrintable(items) && items != []
    ensures before + "[\n" + PrettyLines(items, depth) + "]" == before + DocText(PrettyDoc(Arr(items), depth))
  {
    PrettyLinesAreSlots(items, depth);
    Enclose(before, "[", PrettyLines(items, depth), "]");
    assert "[" + "\n" == "[\n";
  }

  lemma {:induction false} EncloseMembers(before: string, members: seq<Member>, depth: nat)
    requires AllMembersPrintable(members) && members != []
    ensures before + "{\n" + PrettyMemberLines(members, depth) + "}"
      == before + DocText(PrettyDoc(Obj(members), depth))
  {
    PrettyMemberLinesAreFields(members, depth);
    Enclose(before, "{", PrettyMemberLines(members, depth), "}");
    assert "{" + "\n" == "{\n";
  }

  method WritePretty(value: Json, depth: nat, out: Buffer)
    requires Printable(value)
    modifies out
    ensures out.text == old(out.text) + DocText(PrettyDoc(value, depth))
    decreases value
  {
    match value
    case Arr(items) =>
      if items == [] {
        WriteCompact(value, out);
      } else {
        EncloseItems(out.text, items, depth);
        out.PushStr("[\n");
        WritePrettyItems(items, depth, out);
        out.Push(']');
      }
    case Obj(members) =>
      if members == [] {
        WriteCompact(value, out);
      } else {
        EncloseMembers(out.text, members, depth);
        out.PushStr("{\n");
        WritePrettyMembers(members, depth, out);
        out.Push('}');
      }
    case _ => WriteCompact(value, out);
  }

  /** The loop of `write_pretty` over the items of an array, and the indentation after it. */
  method WritePrettyItems(items: seq<Json>, depth: nat, out: Buffer)
    requires AllPrintable(items)
    modifies out
    ensures out.text == old(out.text) + PrettyLines(items, depth)
    decreases items
  {
    ghost var left := PrettyLines(items, depth);
    ghost var all := out.text + left;
    for i := 0 to |items|
      invariant AllPrintable(items[i..])
      invariant left == PrettyLines(items[i..], depth)
      invariant out.text + left == all
    {
      PrintableSuffix(items, i + 1);
      PrintableSuffix(items, i);
      assert items[i..][1..] == items[i + 1..];
      ghost var doc := DocText(PrettyDoc(items[i], depth + 1));
      ghost var comma := if i + 1 < |items| then "," else "";
      ghost var lines := PrettyLines(items[i + 1..], depth);
      Reassociate(out.text, Indent(depth + 1), doc + (comma + ("\n" + lines)));
      out.PushStr(Indent(depth + 1));
      Reassociate(out.text, doc, comma + ("\n" + lines));
      WritePretty(items[i], depth + 1, out);
      Reassociate(out.text, comma, "\n" + lines);
      if i + 1 < |items| {
        out.Push(',');
      } else {
        assert out.text + "" == out.text;
      }
      Reassociate(out.text, "\n", lines);
      out.Push('\n');
      left := lines;
    }
    out.PushStr(Indent(depth));
  }

  method WritePrettyMembers(members: seq<Member>, depth: nat, out: Buffer)
    requires AllMembersPrintable(members)
    modifies out
    ensures out.text == old(out.text) + PrettyMemberLines(members, depth)
    decreases members
  {
    ghost var left := PrettyMemberLines(members, depth);
    ghost var all := out.text + left;
    for i := 0 to |members|
      invariant AllMembersPrintable(members[i..])
      invariant left == PrettyMemberLines(members[i..], depth)
      invariant out.text + left == all
    {
      MembersPrintableSuffix(members, i + 1);
      MembersPrintableSuffix(members, i);
      assert members[i..][1..] == members[i + 1..];
      ghost var key := QuotedText(EscapePieces(members[i].key));
      ghost var doc := DocText(PrettyDoc(members[i].value, depth + 1));
      ghost var comma := if i + 1 < |members| then "," else "";
      ghost var lines := PrettyMemberLines(members[i + 1..], depth);
      Reassociate(out.text, Indent(depth + 1), key + (": " + (doc + (comma + ("\n" + lines)))));
      out.PushStr(Indent(depth + 1));
      Reassociate(out.text, key, ": " + (doc + (comma + ("\n" + lines))));
      Escape(members[i].key, out);
      Reassociate(out.text, ": ", doc + (comma + ("\n" + lines)));
      out.PushStr(": ");
      Reassociate(out.text, doc, comma + ("\n" + lines));
      WritePretty(members[i].value, depth + 1, out);
      Reassociate(out.text, comma, "\n" + lines);
      if i + 1 < |members| {
        out.Push(',');
      } else {
        assert out.text + "" == out.text;
      }
      Reassociate(out.text, "\n", lines);
      out.Push('\n');
      left := lines;
    }
    out.PushStr(Indent(depth));
  }

  // ---- the round trip ----------------------------------------------------

  function CompactText(v: Json): string
    requires Printable(v)
  {
    DocText(CompactDoc(v))
  }

  /** The text of `to_pretty`, with its final newline. */
  function PrettyText(v: Json): string
    requires Printable(v)
  {
    DocText(PrettyDoc(v, 0)) + "\n"
  }

  method ToPretty(v: Json) returns (text: string)
    requires Printable(v)
    ensures text == PrettyText(v)
  {
    var out := new Buffer();
    WritePretty(v, 0, out);
    out.Push('\n');
    text := out.text;
  }

  /** Printing, in either form, and parsing gives the value back. */
  lemma PrintParse(v: Json)
    requires Printable(v)
    ensures ParseF(PrettyText(v)) == Ok(v)
    ensures ParseF(CompactText(v)) == Ok(v)
  {
    hide ParseF, DocText, DocValue, DocOk, PrettyDoc, CompactDoc;
    PrettyCarries(v, 0);
    ParseDoc("", PrettyDoc(v, 0), "\n");
    assert "" + DocText(PrettyDoc(v, 0)) + "\n" == PrettyText(v);
    CompactCarries(v);
    ParseDoc("", CompactDoc(v), "");
    assert "" + DocText(CompactDoc(v)) + "" == CompactText(v);
  }

  /** Values with the same printed text, even across the two forms, are the same value. */
  lemma PrintInjective(v: Json, w: Json)
    requires Printable(v) && Printable(w)
    ensures PrettyText(v) == PrettyText(w) ==> v == w
    ensures CompactText(v) == CompactText(w) ==> v == w
    ensures PrettyText(v) == CompactText(w) ==> v == w
  {
    PrintParse(v);
    PrintParse(w);
  }
}
