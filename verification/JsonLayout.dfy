/**
 How printed JSON is laid out: what stands between the items of an array and the
 members of an object, in the compact form and in the indented one, and which
 characters the reader takes for whitespace and for parts of a number.
 */
module JsonLayout {
  import opened Decimal
  import opened JsonDocs
  import opened JsonGrammar
  import opened JsonPrinter

  /** The parts with a separator between every two. */
  function Joined(parts: seq<string>, separator: string): string {
    if parts == [] then ""
    else parts[0] + (if |parts| > 1 then separator + Joined(parts[1..], separator) else "")
  }

  function Spaces(n: nat): string {
    seq(n, _ => ' ')
  }

  lemma {:induction false} IndentIs(depth: nat)
    ensures Indent(depth) == Spaces(2 * depth)
  {
    if depth > 0 {
      IndentIs(depth - 1);
    }
  }

  // ---- values without parts -----------------------------------------------

  /** Both forms of the words, of integers, of texts and of empty arrays and objects. */
  lemma {:induction false} LeafTexts(b: bool, n: int, text: string, depth: nat)
    ensures CompactText(Null) == "null" && CompactText(Bool(b)) == if b then "true" else "false"
    ensures -9200000000000000000 < n < 9200000000000000000 ==>
      Printable(Num(n as real)) && CompactText(Num(n as real)) == IntText(n)
    ensures CompactText(Str(text)) == QuotedText(EscapePieces(text))
    ensures CompactText(Arr([])) == "[]" && CompactText(Obj([])) == "{}"
    ensures PrettyDoc(Arr([]), depth) == CompactDoc(Arr([])) && PrettyDoc(Obj([]), depth) == CompactDoc(Obj([]))
  {
    assert (n as real).Floor == n;
    assert CompactSlots([]) == [] && CompactFields([]) == [];
    assert PrettySlots([], depth) == [] && PrettyFields([], depth) == [];
  }

  // ---- the compact form ---------------------------------------------------

  function CompactItems(items: seq<Json>): seq<string>
    requires AllPrintable(items)
  {
    if items == [] then [] else [CompactText(items[0])] + CompactItems(items[1..])
  }

  function CompactMembers(members: seq<Member>): seq<string>
    requires AllMembersPrintable(members)
  {
    if members == [] then []
    else [CompactText(Str(members[0].key)) + (":" + CompactText(members[0].value))] + CompactMembers(members[1..])
  }

  lemma {:induction false} ItemsJoined(items: seq<Json>)
    requires AllPrintable(items)
    ensures SlotsText(CompactSlots(items)) == Joined(CompactItems(items), ",")
    decreases |items|
  {
    if items != [] {
      ItemsJoined(items[1..]);
      CompactItemsStep(items);
      hide SlotsText, CompactSlots, DocText, CompactDoc;
      assert CompactItems(items)[1..] == CompactItems(items[1..]);
      assert |CompactItems(items)| > 1 <==> |items| > 1;
    }
  }

  lemma {:induction false} MembersJoined(members: seq<Member>)
    requires AllMembersPrintable(members)
    ensures FieldsText(CompactFields(members)) == Joined(CompactMembers(members), ",")
    decreases |members|
  {
    if members != [] {
      MembersJoined(members[1..]);
      CompactMembersStep(members);
      assert CompactText(Str(members[0].key)) == QuotedText(EscapePieces(members[0].key));
      hide FieldsText, CompactFields, DocText, CompactDoc, QuotedText, EscapePieces;
      var key, value, more :=
        CompactText(Str(members[0].key)), CompactText(members[0].value), CompactMoreMembers(members);
      Reassociate(key, ":" + value, more);
      assert ":" + (value + more) == (":" + value) + more;
      assert CompactMembers(members)[1..] == CompactMembers(members[1..]);
      assert |CompactMembers(members)| > 1 <==> |members| > 1;
    }
  }

  /** The compact form puts a comma between items and nothing else. */
  lemma {:induction false} CompactArrayIs(items: seq<Json>)
    requires AllPrintable(items)
    ensures CompactText(Arr(items)) == "[" + Joined(CompactItems(items), ",") + "]"
  {
    CompactArrayText("", items);
    ItemsJoined(items);
    hide SlotsText, CompactSlots, DocText, CompactDoc, Joined, CompactItems;
    assert "" + DocText(CompactDoc(Arr(items))) == CompactText(Arr(items));
    assert "" + "[" == "[";
  }

  lemma {:induction false} CompactObjectIs(members: seq<Member>)
    requires AllMembersPrintable(members)
    ensures CompactText(Obj(members)) == "{" + Joined(CompactMembers(members), ",") + "}"
  {
    CompactObjectText("", members);
    MembersJoined(members);
    hide FieldsText, CompactFields, DocText, CompactDoc, Joined, CompactMembers;
    assert "" + DocText(CompactDoc(Obj(members))) == CompactText(Obj(members));
    assert "" + "{" == "{";
  }

  // ---- the indented form --------------------------------------------------

  function PrettyAt(v: Json, depth: nat): string
    requires Printable(v)
  {
    DocText(PrettyDoc(v, depth))
  }

  /** Each item on its own line, two spaces further in than the line that opens the array. */
  function PrettyItems(items: seq<Json>, depth: nat): seq<string>
    requires AllPrintable(items)
  {
    if items == [] then []
    else [Spaces(2 * depth + 2) + PrettyAt(items[0], depth + 1)] + PrettyItems(items[1..], depth)
  }

  function PrettyMembers(members: seq<Member>, depth: nat): seq<string>
    requires AllMembersPrintable(members)
  {
    if members == [] then []
    else
      [Spaces(2 * depth + 2) +
       (CompactText(Str(members[0].key)) + (": " + PrettyAt(members[0].value, depth + 1)))] +
      PrettyMembers(members[1..], depth)
  }

  /** What follows an item or member: a comma unless it is the last, and the next line. */
  function AfterLine(last: bool, lines: string): string {
    (if last then "" else ",") + ("\n" + lines)
  }

  /** A line, the comma after it unless it is the last, and the lines that follow. */
  lemma {:induction false} LineJoined(line: string, texts: seq<string>, pad: string, lines: string, last: bool)
    requires texts != [] && texts[0] == line && last == (|texts| == 1)
    requires lines == if last then pad else Joined(texts[1..], ",\n") + ("\n" + pad)
    ensures line + AfterLine(last, lines) == Joined(texts, ",\n") + ("\n" + pad)
  {
    if last {
      assert Joined(texts, ",\n") == line + "" == line;
      assert "" + ("\n" + lines) == "\n" + pad;
    } else {
      var more := Joined(texts[1..], ",\n");
      assert Joined(texts, ",\n") == line + (",\n" + more);
      hide Joined;
      assert "," + ("\n" + (more + ("\n" + pad))) == (",\n" + more) + ("\n" + pad);
      Reassociate(line, ",\n" + more, "\n" + pad);
    }
  }

  lemma {:induction false} FirstItemLine(items: seq<Json>, depth: nat)
    requires AllPrintable(items) && items != []
    ensures PrettyLines(items, depth) ==
      (Spaces(2 * depth + 2) + PrettyAt(items[0], depth + 1)) +
      AfterLine(|items| == 1, PrettyLines(items[1..], depth))
  {
    IndentIs(depth + 1);
    hide DocText, PrettyDoc, Indent, Spaces;
    var end := AfterLine(|items| == 1, PrettyLines(items[1..], depth));
    Reassociate(Spaces(2 * depth + 2), PrettyAt(items[0], depth + 1), end);
  }

  lemma {:induction false} Regroup(pad: string, key: string, colon: string, doc: string, end: string)
    ensures pad + (key + (colon + (doc + end))) == (pad + (key + (colon + doc))) + end
  {
    Reassociate(colon, doc, end);
    Reassociate(key, colon + doc, end);
    Reassociate(pad, key + (colon + doc), end);
  }

  lemma {:induction false} FirstMemberLine(members: seq<Member>, depth: nat)
    requires AllMembersPrintable(members) && members != []
    ensures PrettyMemberLines(members, depth) ==
      (Spaces(2 * depth + 2) +
       (CompactText(Str(members[0].key)) + (": " + PrettyAt(members[0].value, depth + 1)))) +
      AfterLine(|members| == 1, PrettyMemberLines(members[1..], depth))
  {
    hide DocText, PrettyDoc, Indent, Spaces, QuotedText, EscapePieces;
    IndentIs(depth + 1);
    var key, doc := CompactText(Str(members[0].key)), PrettyAt(members[0].value, depth + 1);
    KeyText(members[0].key);
    Regroup(Spaces(2 * depth + 2), key, ": ", doc,
            AfterLine(|members| == 1, PrettyMemberLines(members[1..], depth)));
  }

  lemma {:induction false} KeyText(key: string)
    ensures CompactText(Str(key)) == QuotedText(EscapePieces(key))
  {
  }

  lemma {:induction false} ItemLines(items: seq<Json>, depth: nat)
    requires AllPrintable(items) && items != []
    ensures PrettyLines(items, depth) == Joined(PrettyItems(items, depth), ",\n") + ("\n" + Spaces(2 * depth))
    decreases |items|
  {
    hide Joined, DocText, PrettyDoc, Indent, Spaces;
    FirstItemLine(items, depth);
    var texts, last := PrettyItems(items, depth), |items| == 1;
    assert texts[1..] == PrettyItems(items[1..], depth);
    assert last <==> |texts| == 1;
    if last {
      IndentIs(depth);
    } else {
      ItemLines(items[1..], depth);
    }
    LineJoined(texts[0], texts, Spaces(2 * depth), PrettyLines(items[1..], depth), last);
  }

  lemma {:induction false} MemberLines(members: seq<Member>, depth: nat)
    requires AllMembersPrintable(members) && members != []
    ensures PrettyMemberLines(members, depth) ==
      Joined(PrettyMembers(members, depth), ",\n") + ("\n" + Spaces(2 * depth))
    decreases |members|
  {
    hide Joined, DocText, PrettyDoc, Indent, Spaces, CompactText;
    FirstMemberLine(members, depth);
    var texts, last := PrettyMembers(members, depth), |members| == 1;
    assert texts[1..] == PrettyMembers(members[1..], depth);
    assert last <==> |texts| == 1;
    if last {
      IndentIs(depth);
    } else {
      MemberLines(members[1..], depth);
    }
    LineJoined(texts[0], texts, Spaces(2 * depth), PrettyMemberLines(members[1..], depth), last);
  }

  /** An array that is not empty: an opening line, its items on lines of their own, and a closing line. */
  lemma {:induction false} PrettyArrayIs(items: seq<Json>, depth: nat)
    requires AllPrintable(items) && items != []
    ensures PrettyAt(Arr(items), depth) ==
      "[\n" + (Joined(PrettyItems(items, depth), ",\n") + ("\n" + Spaces(2 * depth))) + "]"
  {
    EncloseItems("", items, depth);
    ItemLines(items, depth);
    hide Joined, PrettyItems, DocText, PrettyDoc, Spaces, PrettyLines;
    assert "" + DocText(PrettyDoc(Arr(items), depth)) == PrettyAt(Arr(items), depth);
    assert "" + "[\n" == "[\n";
  }

  lemma {:induction false} PrettyObjectIs(members: seq<Member>, depth: nat)
    requires AllMembersPrintable(members) && members != []
    ensures PrettyAt(Obj(members), depth) ==
      "{\n" + (Joined(PrettyMembers(members, depth), ",\n") + ("\n" + Spaces(2 * depth))) + "}"
  {
    EncloseMembers("", members, depth);
    MemberLines(members, depth);
    hide Joined, PrettyMembers, DocText, PrettyDoc, Spaces, PrettyMemberLines;
    assert "" + DocText(PrettyDoc(Obj(members), depth)) == PrettyAt(Obj(members), depth);
    assert "" + "{\n" == "{\n";
  }

  // ---- characters between and inside tokens -------------------------------

  /** A leading character is skipped exactly when it is a space, tab, line feed, carriage return or form feed. */
  lemma {:induction false} SkippedExactly(c: char, text: string)
    ensures SkipSpace([c] + text) == SkipSpace(text) <==> c as int in {0x20, 0x09, 0x0A, 0x0D, 0x0C}
  {
    assert ([c] + text)[1..] == text;
    assert |[c] + text| > |text|;
  }

  /** A leading character belongs to a number exactly when it is a digit, a sign, a point or an exponent letter. */
  lemma {:induction false} NumberStartsExactly(c: char, text: string)
    ensures NumberSpan([c] + text) > 0 <==> c in "0123456789-+.eE"
  {
    DigitIs(c);
    assert "0123456789-+.eE" == "0123456789" + "-+.eE";
  }
}
