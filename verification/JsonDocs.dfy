/**
 JSON documents as concrete syntax: a value together with the whitespace between
 its tokens and the spelling of its strings and numbers (section 2 of RFC 8259).

 `DocReads` and `ParseDoc` say that the reader recovers the value from every
 document, whatever its layout and spelling.
 */
module JsonDocs {
  import opened Wrappers
  import opened JsonGrammar
  import opened JsonStrings

  datatype Doc =
    | Word(value: Json)
    | Number(lexeme: string)
    | Quoted(pieces: seq<Piece>)
    | List(inner: string, slots: seq<Slot>)
    | Record(inner: string, fields: seq<Field>)

  datatype Slot = Slot(before: string, doc: Doc, after: string)

  datatype Field = Field(before: string, key: seq<Piece>, mid: string, gap: string, doc: Doc, after: string)

  predicate Blank(s: string) {
    forall i :: 0 <= i < |s| ==> Space(s[i])
  }

  predicate Spelling(ps: seq<Piece>) {
    WellFormed(ps) && !Swallows(ps)
  }

  /** Whitespace is whitespace, numerals are numerals, and no string swallows an escape. */
  predicate DocOk(d: Doc)
    decreases d
  {
    match d
    case Word(value) => value.Null? || value.Bool?
    case Number(lexeme) => (forall i :: 0 <= i < |lexeme| ==> NumberChar(lexeme[i])) && Numeral(lexeme).Some?
    case Quoted(ps) => Spelling(ps)
    case List(inner, slots) => Blank(inner) && (slots != [] ==> inner == "") && SlotsOk(slots)
    case Record(inner, fields) => Blank(inner) && (fields != [] ==> inner == "") && FieldsOk(fields)
  }

  predicate SlotsOk(slots: seq<Slot>)
    decreases slots
  {
    slots == [] ||
    (Blank(slots[0].before) && DocOk(slots[0].doc) && Blank(slots[0].after) && SlotsOk(slots[1..]))
  }

  predicate FieldsOk(fields: seq<Field>)
    decreases fields
  {
    fields == [] ||
    (Blanks(fields[0]) && Spelling(fields[0].key) && DocOk(fields[0].doc) && FieldsOk(fields[1..]))
  }

  predicate Blanks(f: Field) {
    Blank(f.before) && Blank(f.mid) && Blank(f.gap) && Blank(f.after)
  }

  function WordText(value: Json): string {
    match value
    case Null => "null"
    case Bool(b) => if b then "true" else "false"
    case _ => ""
  }

  function QuotedText(ps: seq<Piece>): string {
    "\"" + PiecesText(ps) + "\""
  }

  function DocText(d: Doc): string
    decreases d
  {
    match d
    case Word(value) => WordText(value)
    case Number(lexeme) => lexeme
    case Quoted(ps) => QuotedText(ps)
    case List(inner, slots) => "[" + inner + SlotsText(slots) + "]"
    case Record(inner, fields) => "{" + inner + FieldsText(fields) + "}"
  }

  function SlotsText(slots: seq<Slot>): string
    decreases slots
  {
    if slots == [] then ""
    else SlotText(slots[0], if |slots| > 1 then "," + SlotsText(slots[1..]) else "")
  }

  /** One array item and the text that follows it. */
  function SlotText(slot: Slot, next: string): string
    decreases slot
  {
    slot.before + (DocText(slot.doc) + (slot.after + next))
  }

  function FieldsText(fields: seq<Field>): string
    decreases fields
  {
    if fields == [] then ""
    else FieldText(fields[0], if |fields| > 1 then "," + FieldsText(fields[1..]) else "")
  }

  /** One object member and the text that follows it. */
  function FieldText(f: Field, next: string): string
    decreases f
  {
    f.before + (QuotedText(f.key) + (f.mid + (":" + (f.gap + (DocText(f.doc) + (f.after + next))))))
  }

  lemma SlotTextAppend(slot: Slot, a: string, b: string)
    ensures SlotText(slot, a) + b == SlotText(slot, a + b)
  {
  }

  lemma FieldTextAppend(f: Field, a: string, b: string)
    ensures FieldText(f, a) + b == FieldText(f, a + b)
  {
    var v := DocText(f.doc) + (f.after + a);
    assert v + b == DocText(f.doc) + (f.after + (a + b));
    var c := ":" + (f.gap + v);
    assert c + b == ":" + (f.gap + (v + b));
    assert f.before + (QuotedText(f.key) + (f.mid + c)) + b == f.before + (QuotedText(f.key) + (f.mid + (c + b)));
  }

  function DocValue(d: Doc): Json
    requires DocOk(d)
    decreases d
  {
    match d
    case Word(value) => value
    case Number(lexeme) => Num(Numeral(lexeme).value)
    case Quoted(ps) => Str(Meaning(ps))
    case List(_, slots) => Arr(SlotsValue(slots))
    case Record(_, fields) => Obj(FieldsValue(fields))
  }

  function SlotsValue(slots: seq<Slot>): seq<Json>
    requires SlotsOk(slots)
    decreases slots
  {
    if slots == [] then [] else [DocValue(slots[0].doc)] + SlotsValue(slots[1..])
  }

  function FieldsValue(fields: seq<Field>): seq<Member>
    requires FieldsOk(fields)
    decreases fields
  {
    if fields == [] then []
    else [Member(Meaning(fields[0].key), DocValue(fields[0].doc))] + FieldsValue(fields[1..])
  }

  // ---- reading ----------------------------------------------------------

  /** The text cannot continue a numeral. */
  predicate Delimits(rest: string) {
    rest == "" || !NumberChar(rest[0])
  }

  lemma {:induction false} SkipBlank(ws: string, s: string)
    requires Blank(ws)
    ensures SkipSpace(ws + s) == SkipSpace(s)
  {
    if ws == "" {
      assert ws + s == s;
    } else {
      assert (ws + s)[1..] == ws[1..] + s;
      SkipBlank(ws[1..], s);
    }
  }

  /** A blank followed by a token: only the blank is skipped. */
  lemma SkipTo(ws: string, s: string)
    requires Blank(ws) && s != "" && !Space(s[0])
    ensures SkipSpace(ws + s) == s
  {
    SkipBlank(ws, s);
  }

  lemma BlankDelimits(ws: string, s: string)
    requires Blank(ws) && Delimits(s)
    ensures Delimits(ws + s)
  {
    if ws == "" {
      assert ws + s == s;
    } else {
      assert Space((ws + s)[0]);
    }
  }

  lemma {:induction false} SpanStops(lexeme: string, rest: string)
    requires forall i :: 0 <= i < |lexeme| ==> NumberChar(lexeme[i])
    requires Delimits(rest)
    ensures NumberSpan(lexeme + rest) == |lexeme|
  {
    if lexeme == "" {
      assert lexeme + rest == rest;
    } else {
      assert (lexeme + rest)[1..] == lexeme[1..] + rest;
      SpanStops(lexeme[1..], rest);
    }
  }

  // One step of each reader, with the texts kept abstract.

  lemma StringStep(s: string, body: string)
    requires s == "\"" + body
    ensures StringF(s) == BodyF(body)
  {
    assert s[1..] == body;
  }

  lemma ListStep(s: string, t: string)
    requires s != "" && s[0] == '[' && t == SkipSpace(s[1..]) && t != ""
    ensures t[0] == ']' ==> ValueF(s) == Done(Arr([]), t[1..])
    ensures t[0] != ']' && ItemsF(t).Done? ==> ValueF(s) == Done(Arr(ItemsF(t).value), ItemsF(t).rest)
  {
  }

  lemma RecordStep(s: string, t: string)
    requires s != "" && s[0] == '{' && t == SkipSpace(s[1..]) && t != ""
    ensures t[0] == '}' ==> ValueF(s) == Done(Obj([]), t[1..])
    ensures t[0] != '}' && MembersF(t).Done? ==> ValueF(s) == Done(Obj(MembersF(t).value), MembersF(t).rest)
  {
  }

  /** An item, a blank, and then either the closing bracket or a comma and more items. */
  lemma ItemsStep(s: string, v: Json, ws: string, last: bool, tail: string, vs: seq<Json>, rest: string)
    requires var next := if last then "]" + rest else "," + tail;
      Blank(ws) && ValueF(SkipSpace(s)) == Done(v, ws + next)
    requires if last then vs == [] else ItemsF(tail) == Done(vs, rest)
    ensures ItemsF(s) == Done([v] + vs, rest)
  {
    var next := if last then "]" + rest else "," + tail;
    SkipTo(ws, next);
    assert next[1..] == if last then rest else tail;
    assert last ==> [v] + vs == [v];
  }

  lemma MembersStep(s: string, m: Member, ws: string, last: bool, tail: string, ms: seq<Member>, rest: string)
    requires var next := if last then "}" + rest else "," + tail;
      Blank(ws) && MemberF(s) == Done(m, ws + next)
    requires if last then ms == [] else MembersF(tail) == Done(ms, rest)
    ensures MembersF(s) == Done([m] + ms, rest)
  {
    var next := if last then "}" + rest else "," + tail;
    SkipTo(ws, next);
    assert next[1..] == if last then rest else tail;
    assert last ==> [m] + ms == [m];
  }

  lemma MemberStep(s: string, key: string, r: string, t: string, u: string, v: Json, rest: string)
    requires StringF(SkipSpace(s)) == Done(key, r)
    requires t == SkipSpace(r) && t != "" && t[0] == ':'
    requires u == SkipSpace(t[1..]) && ValueF(u) == Done(v, rest)
    ensures MemberF(s) == Done(Member(key, v), rest)
  {
  }

  lemma ValueIsNumber(s: string, c: char)
    requires s != "" && s[0] == c
    requires c != '{' && c != '[' && c != '"' && c != 't' && c != 'f' && c != 'n'
    ensures ValueF(s) == NumberF(s)
  {
  }

  lemma ValueIsString(s: string)
    requires s != "" && s[0] == '"' && StringF(s).Done?
    ensures ValueF(s) == Done(Str(StringF(s).value), StringF(s).rest)
  {
  }

  lemma QuotedReads(ps: seq<Piece>, rest: string)
    requires Spelling(ps)
    ensures StringF(QuotedText(ps) + rest) == Done(Meaning(ps), rest)
  {
    BodyReads(ps, rest);
    StandardExactlyWhenNotSwallowing(ps);
    StringStep(QuotedText(ps) + rest, PiecesText(ps) + "\"" + rest);
  }

  /** The first character of a document: never whitespace, never a closing bracket. */
  lemma DocStarts(d: Doc)
    requires DocOk(d)
    ensures DocText(d) != "" && !Space(DocText(d)[0])
    ensures DocText(d)[0] != ']' && DocText(d)[0] != '}'
  {
    match d
    case Word(_) =>
    case Number(lexeme) => assert lexeme != "" && NumberChar(lexeme[0]);
    case Quoted(_) => assert DocText(d)[0] == '"';
    case List(inner, slots) => assert DocText(d)[0] == '[';
    case Record(inner, fields) => assert DocText(d)[0] == '{';
  }

  lemma WordReads(value: Json, rest: string)
    requires value.Null? || value.Bool?
    ensures ValueF(WordText(value) + rest) == Done(value, rest)
  {
    var word := WordText(value);
    assert word <= word + rest && (word + rest)[|word|..] == rest;
  }

  lemma NumberReads(lexeme: string, rest: string)
    requires DocOk(Number(lexeme)) && Delimits(rest)
    ensures ValueF(lexeme + rest) == Done(Num(Numeral(lexeme).value), rest)
  {
    SpanStops(lexeme, rest);
    DocStarts(Number(lexeme));
    var s := lexeme + rest;
    assert s[..|lexeme|] == lexeme && s[|lexeme|..] == rest;
    assert NumberChar(lexeme[0]);
    ValueIsNumber(s, lexeme[0]);
  }

  /** Every document reads back as its value, and nothing after it is touched. */
  lemma {:induction false} DocReads(d: Doc, rest: string)
    requires DocOk(d) && Delimits(rest)
    ensures ValueF(DocText(d) + rest) == Done(DocValue(d), rest)
    decreases d, 1
  {
    match d
    case Word(value) => WordReads(value, rest);
    case Number(lexeme) => NumberReads(lexeme, rest);
    case Quoted(ps) =>
      QuotedReads(ps, rest);
      ValueIsString(QuotedText(ps) + rest);
    case List(inner, slots) =>
      if slots == [] {
        EmptyListReads(inner, rest);
      } else {
        SlotsRead(slots, rest);
        ListReads(slots, rest);
      }
    case Record(inner, fields) =>
      if fields == [] {
        EmptyRecordReads(inner, rest);
      } else {
        FieldsRead(fields, rest);
        RecordReads(fields, rest);
      }
  }

  lemma EmptyListReads(inner: string, rest: string)
    requires Blank(inner)
    ensures ValueF(DocText(List(inner, [])) + rest) == Done(Arr([]), rest)
  {
    var s := DocText(List(inner, [])) + rest;
    assert SlotsText([]) == "";
    assert s == "[" + (inner + ("]" + rest)) && s[1..] == inner + ("]" + rest);
    SkipTo(inner, "]" + rest);
    ListStep(s, "]" + rest);
    assert ("]" + rest)[1..] == rest;
  }

  lemma ListReads(slots: seq<Slot>, rest: string)
    requires SlotsOk(slots) && slots != []
    requires ItemsF(SlotsText(slots) + ("]" + rest)) == Done(SlotsValue(slots), rest)
    ensures ValueF(DocText(List("", slots)) + rest) == Done(Arr(SlotsValue(slots)), rest)
  {
    hide ValueF, ItemsF, DocValue;
    var body := SlotsText(slots) + ("]" + rest);
    var s := DocText(List("", slots)) + rest;
    assert s == "[" + body && s[1..] == body;
    var slot := slots[0];
    var more := if |slots| > 1 then "," + SlotsText(slots[1..]) else "";
    SlotTextAppend(slot, more, "]" + rest);
    DocStarts(slot.doc);
    SkipTo(slot.before, DocText(slot.doc) + (slot.after + (more + ("]" + rest))));
    SkipIdempotent(body);
    ListStep(s, SkipSpace(body));
  }

  lemma EmptyRecordReads(inner: string, rest: string)
    requires Blank(inner)
    ensures ValueF(DocText(Record(inner, [])) + rest) == Done(Obj([]), rest)
  {
    var s := DocText(Record(inner, [])) + rest;
    assert FieldsText([]) == "";
    assert s == "{" + (inner + ("}" + rest)) && s[1..] == inner + ("}" + rest);
    SkipTo(inner, "}" + rest);
    RecordStep(s, "}" + rest);
    assert ("}" + rest)[1..] == rest;
  }

  lemma RecordReads(fields: seq<Field>, rest: string)
    requires FieldsOk(fields) && fields != []
    requires MembersF(FieldsText(fields) + ("}" + rest)) == Done(FieldsValue(fields), rest)
    ensures ValueF(DocText(Record("", fields)) + rest) == Done(Obj(FieldsValue(fields)), rest)
  {
    hide ValueF, MembersF, DocValue;
    var body := FieldsText(fields) + ("}" + rest);
    var s := DocText(Record("", fields)) + rest;
    assert s == "{" + body && s[1..] == body;
    var f := fields[0];
    var more := if |fields| > 1 then "," + FieldsText(fields[1..]) else "";
    FieldTextAppend(f, more, "}" + rest);
    FieldStarts(f, more + ("}" + rest));
    SkipIdempotent(body);
    RecordStep(s, SkipSpace(body));
  }

  lemma FieldStarts(f: Field, next: string)
    requires Blank(f.before)
    ensures var t := SkipSpace(FieldText(f, next)); t != "" && t[0] == '"'
  {
    SkipTo(f.before, QuotedText(f.key) + (f.mid + (":" + (f.gap + (DocText(f.doc) + (f.after + next))))));
  }

  /** Reading items or members does not depend on whitespace that was already skipped. */
  lemma SkipIdempotent(s: string)
    ensures ItemsF(SkipSpace(s)) == ItemsF(s)
    ensures MembersF(SkipSpace(s)) == MembersF(s)
  {
    assert SkipSpace(SkipSpace(s)) == SkipSpace(s);
  }

  lemma {:induction false} SlotsRead(slots: seq<Slot>, rest: string)
    requires SlotsOk(slots) && slots != []
    ensures ItemsF(SlotsText(slots) + ("]" + rest)) == Done(SlotsValue(slots), rest)
    decreases slots, 0
  {
    var slot := slots[0];
    var next := AfterSlot(slots, rest);
    BlankDelimits(slot.after, next);
    DocReads(slot.doc, slot.after + next);
    SlotReads(slots, rest);
    var tail := SlotsText(slots[1..]) + ("]" + rest);
    if |slots| > 1 {
      SlotsRead(slots[1..], rest);
    }
    ItemsStep(SlotsText(slots) + ("]" + rest), DocValue(slot.doc), slot.after, |slots| == 1, tail,
              SlotsValue(slots[1..]), rest);
  }

  /** What follows the first item: the closing bracket, or a comma and the other items. */
  function AfterSlot(slots: seq<Slot>, rest: string): (next: string)
    requires slots != []
    ensures Delimits(next)
  {
    if |slots| == 1 then "]" + rest else "," + (SlotsText(slots[1..]) + ("]" + rest))
  }

  lemma SlotReads(slots: seq<Slot>, rest: string)
    requires SlotsOk(slots) && slots != []
    requires var after := slots[0].after + AfterSlot(slots, rest);
      ValueF(DocText(slots[0].doc) + after) == Done(DocValue(slots[0].doc), after)
    ensures ValueF(SkipSpace(SlotsText(slots) + ("]" + rest)))
      == Done(DocValue(slots[0].doc), slots[0].after + AfterSlot(slots, rest))
  {
    hide ValueF, DocText, DocValue;
    var slot := slots[0];
    var more := if |slots| > 1 then "," + SlotsText(slots[1..]) else "";
    SlotTextAppend(slot, more, "]" + rest);
    assert more + ("]" + rest) == AfterSlot(slots, rest);
    DocStarts(slot.doc);
    SkipTo(slot.before, DocText(slot.doc) + (slot.after + AfterSlot(slots, rest)));
  }

  lemma FieldReads(f: Field, next: string)
    requires Blanks(f) && Spelling(f.key) && DocOk(f.doc)
    requires ValueF(DocText(f.doc) + (f.after + next)) == Done(DocValue(f.doc), f.after + next)
    ensures MemberF(FieldText(f, next)) == Done(Member(Meaning(f.key), DocValue(f.doc)), f.after + next)
  {
    var value := DocText(f.doc) + (f.after + next);
    var colon := ":" + (f.gap + value);
    SkipTo(f.before, QuotedText(f.key) + (f.mid + colon));
    QuotedReads(f.key, f.mid + colon);
    SkipTo(f.mid, colon);
    assert colon[1..] == f.gap + value;
    DocStarts(f.doc);
    SkipTo(f.gap, value);
    MemberStep(FieldText(f, next), Meaning(f.key), f.mid + colon, colon, value, DocValue(f.doc), f.after + next);
  }

  lemma {:induction false} FieldsRead(fields: seq<Field>, rest: string)
    requires FieldsOk(fields) && fields != []
    ensures MembersF(FieldsText(fields) + ("}" + rest)) == Done(FieldsValue(fields), rest)
    decreases fields, 0
  {
    var f := fields[0];
    var next := AfterField(fields, rest);
    BlankDelimits(f.after, next);
    DocReads(f.doc, f.after + next);
    FirstFieldReads(fields, rest);
    var tail := FieldsText(fields[1..]) + ("}" + rest);
    if |fields| > 1 {
      FieldsRead(fields[1..], rest);
    }
    MembersStep(FieldsText(fields) + ("}" + rest), Member(Meaning(f.key), DocValue(f.doc)), f.after, |fields| == 1,
                tail, FieldsValue(fields[1..]), rest);
  }

  /** What follows the first member: the closing brace, or a comma and the other members. */
  function AfterField(fields: seq<Field>, rest: string): (next: string)
    requires fields != []
    ensures Delimits(next)
  {
    if |fields| == 1 then "}" + rest else "," + (FieldsText(fields[1..]) + ("}" + rest))
  }

  lemma FirstFieldReads(fields: seq<Field>, rest: string)
    requires FieldsOk(fields) && fields != []
    requires var after := fields[0].after + AfterField(fields, rest);
      ValueF(DocText(fields[0].doc) + after) == Done(DocValue(fields[0].doc), after)
    ensures MemberF(FieldsText(fields) + ("}" + rest))
      == Done(Member(Meaning(fields[0].key), DocValue(fields[0].doc)), fields[0].after + AfterField(fields, rest))
  {
    hide ValueF, MemberF, DocText, DocValue;
    var more := if |fields| > 1 then "," + FieldsText(fields[1..]) else "";
    FieldTextAppend(fields[0], more, "}" + rest);
    assert more + ("}" + rest) == AfterField(fields, rest);
    FieldReads(fields[0], AfterField(fields, rest));
  }

  /** `Json::parse` recovers the value of every document, with any whitespace around it. */
  lemma ParseDoc(before: string, d: Doc, after: string)
    requires DocOk(d) && Blank(before) && Blank(after)
    ensures ParseF(before + DocText(d) + after) == Ok(DocValue(d))
  {
    DocStarts(d);
    assert before + DocText(d) + after == before + (DocText(d) + after);
    SkipTo(before, DocText(d) + after);
    BlankDelimits(after, "");
    assert after + "" == after;
    DocReads(d, after);
    SkipBlank(after, "");
  }
}
