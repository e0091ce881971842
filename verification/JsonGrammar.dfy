/**
 JSON values, and what the reader accepts, stated over characters.

 The functions here are the reference the byte cursor of `JsonCursor` is proved
 against. Each takes the text that is still unread and returns a value together
 with the text that stays unread. They keep every leniency of the program: raw
 control characters in strings, `+` inside `\u` escapes, any number spelling
 that `f64::from_str` takes, form feed as whitespace.
 */
module JsonGrammar {
  import opened Decimal
  import opened Utf8
  import opened Wrappers

  /** `Num` holds the exact value of a numeral; rounding to `f64` is not modelled. */
  datatype Json =
    | Null
    | Bool(b: bool)
    | Num(x: real)
    | Str(text: string)
    | Arr(items: seq<Json>)
    | Obj(members: seq<Member>)

  datatype Member = Member(key: string, value: Json)

  /** A parse attempt on the unread text. */
  datatype Parse<+T> = Fail | Done(value: T, rest: string)

  // ---- whitespace -------------------------------------------------------

  /** `u8::is_ascii_whitespace`. */
  predicate Space(c: char) {
    c == ' ' || c == '\t' || c == '\n' || c == '\r' || c as int == 0x0C
  }

  function SkipSpace(s: string): (r: string)
    ensures |r| <= |s|
    ensures r == "" || !Space(r[0])
  {
    if s == "" || !Space(s[0]) then s else SkipSpace(s[1..])
  }

  // ---- numbers ----------------------------------------------------------

  predicate NumberChar(c: char) {
    Digit(c) || c == '-' || c == '+' || c == '.' || c == 'e' || c == 'E'
  }

  /** Length of the longest run of number characters at the front. */
  function NumberSpan(s: string): (n: nat)
    ensures n <= |s|
    ensures forall i :: 0 <= i < n ==> NumberChar(s[i])
    ensures n == |s| || !NumberChar(s[n])
  {
    if s == "" || !NumberChar(s[0]) then 0 else 1 + NumberSpan(s[1..])
  }

  function DigitSpan(s: string): (n: nat)
    ensures n <= |s|
    ensures forall i :: 0 <= i < n ==> Digit(s[i])
    ensures n == |s| || !Digit(s[n])
  {
    if s == "" || !Digit(s[0]) then 0 else 1 + DigitSpan(s[1..])
  }

  function Pow10(e: int): real
    decreases if e < 0 then -e else e
  {
    if e == 0 then 1.0 else if e > 0 then 10.0 * Pow10(e - 1) else Pow10(e + 1) / 10.0
  }

  function TimesPow10(n: nat, e: int): real {
    n as real * Pow10(e)
  }

  /** Strips one leading sign: whether it was a minus, and what follows. */
  function Signed(s: string): (bool, string) {
    if s != "" && s[0] == '-' then (true, s[1..])
    else if s != "" && s[0] == '+' then (false, s[1..])
    else (false, s)
  }

  /** The exponent part of a numeral: empty, or `e`, an optional sign and digits. */
  function Exponent(s: string): Option<int> {
    if s == "" then Some(0)
    else if s[0] != 'e' && s[0] != 'E' then None
    else
      var (negative, digits) := Signed(s[1..]);
      if digits == "" || !Digits(digits) then None
      else Some(if negative then -(DigitsValue(digits) as int) else DigitsValue(digits))
  }

  /** The exact value of a numeral in the syntax of `f64::from_str`, without `inf` and `nan`. */
  function Numeral(s: string): Option<real> {
    var (negative, body) := Signed(s);
    match Magnitude(body)
    case None => None
    case Some(m) => Some(if negative then -m else m)
  }

  /** A numeral without its sign. */
  function Magnitude(body: string): Option<real> {
    var whole := DigitSpan(body);
    var tail := body[whole..];
    var dotted := tail != "" && tail[0] == '.';
    var part := if dotted then DigitSpan(tail[1..]) else 0;
    var after := if dotted then tail[1..][part..] else tail;
    var digits := body[..whole] + (if dotted then tail[1..][..part] else "");
    if whole + part == 0 then None
    else match Exponent(after)
      case None => None
      case Some(e) => Some(TimesPow10(DigitsValue(digits), e - part))
  }

  function NumberF(s: string): (p: Parse<Json>)
    ensures p.Done? ==> |p.rest| < |s|
  {
    var n := NumberSpan(s);
    if n == 0 then Fail
    else match Numeral(s[..n])
      case None => Fail
      case Some(x) => Done(Num(x), s[n..])
  }

  // ---- strings ----------------------------------------------------------

  function HexDigit(c: char): Option<nat> {
    if '0' <= c <= '9' then Some(c as int - '0' as int)
    else if 'a' <= c <= 'f' then Some(c as int - 'a' as int + 10)
    else if 'A' <= c <= 'F' then Some(c as int - 'A' as int + 10)
    else None
  }

  function HexValue(s: string): Option<nat> {
    if s == "" then Some(0)
    else match (HexValue(s[..|s| - 1]), HexDigit(s[|s| - 1]))
      case (Some(high), Some(low)) => Some(16 * high + low)
      case _ => None
  }

  /** `u32::from_str_radix(_, 16)`, which takes an optional leading plus sign. */
  function FromRadix16(s: string): Option<nat> {
    if s == "" || s == "+" then None
    else if s[0] == '+' then HexValue(s[1..])
    else HexValue(s)
  }

  function Hex4F(s: string): (p: Parse<nat>)
    ensures p.Done? ==> |p.rest| + 4 == |s| && p.rest == s[4..] && p.value < 0x10000
  {
    if |s| < 4 then Fail
    else match FromRadix16(s[..4])
      case None => Fail
      case Some(code) => Hex4Bound(s[..4]); Done(code, s[4..])
  }

  lemma {:induction false} HexValueBound(s: string, k: nat, bound: nat)
    requires HexValue(s).Some? && |s| <= k <= 4
    requires bound == match k case 0 => 1 case 1 => 16 case 2 => 256 case 3 => 4096 case _ => 65536
    ensures HexValue(s).value < bound
  {
    if s != "" {
      HexValueBound(s[..|s| - 1], k - 1, bound / 16);
    }
  }

  lemma Hex4Bound(s: string)
    requires |s| == 4 && FromRadix16(s).Some?
    ensures FromRadix16(s).value < 0x10000
  {
    HexValueBound(if s[0] == '+' then s[1..] else s, 4, 65536);
  }

  predicate HighSurrogate(code: int) {
    0xD800 <= code < 0xDC00
  }

  predicate LowSurrogate(code: int) {
    0xDC00 <= code < 0xE000
  }

  function Combine(high: int, low: int): int {
    0x10000 + (high - 0xD800) * 0x400 + (low - 0xDC00)
  }

  /** `char::from_u32(code).unwrap_or(REPLACEMENT_CHARACTER)`. */
  function FromU32(code: int): char {
    if 0 <= code < 0xD800 || 0xE000 <= code < 0x110000 then code as char else REPLACEMENT
  }

  /**
   What follows a backslash. A high surrogate takes a following `\u` escape with
   it even when that escape is not a low surrogate.
   */
  function EscapeF(s: string): (p: Parse<char>)
    ensures p.Done? ==> |p.rest| < |s|
  {
    if s == "" then Fail
    else match s[0]
      case '"' => Done('"', s[1..])
      case '\\' => Done('\\', s[1..])
      case '/' => Done('/', s[1..])
      case 'b' => Done(0x08 as char, s[1..])
      case 'f' => Done(0x0C as char, s[1..])
      case 'n' => Done('\n', s[1..])
      case 'r' => Done('\r', s[1..])
      case 't' => Done('\t', s[1..])
      case 'u' => UnicodeF(s[1..])
      case _ => Fail
  }

  function UnicodeF(s: string): (p: Parse<char>)
    ensures p.Done? ==> |p.rest| < |s|
  {
    match Hex4F(s)
    case Fail => Fail
    case Done(code, r) =>
      if !HighSurrogate(code) then Done(FromU32(code), r)
      else if "\\u" <= r then
        match Hex4F(r[2..])
        case Fail => Fail
        case Done(low, r2) =>
          Done(if LowSurrogate(low) then FromU32(Combine(code, low)) else REPLACEMENT, r2)
      else Done(REPLACEMENT, r)
  }

  function Push(head: string, p: Parse<string>): Parse<string> {
    match p
    case Fail => Fail
    case Done(tail, rest) => Done(head + tail, rest)
  }

  lemma PushPush(a: string, b: string, p: Parse<string>)
    ensures Push("", p) == p
    ensures Push(a, Push(b, p)) == Push(a + b, p)
  {
    if p.Done? {
      assert "" + p.value == p.value;
      assert a + (b + p.value) == a + b + p.value;
    }
  }

  /** The characters of a string literal after its opening quote. */
  function BodyF(s: string): (p: Parse<string>)
    ensures p.Done? ==> |p.rest| < |s|
    decreases |s|
  {
    if s == "" then Fail
    else if s[0] == '"' then Done("", s[1..])
    else if s[0] == '\\' then
      match EscapeF(s[1..])
      case Fail => Fail
      case Done(c, r) => Push([c], BodyF(r))
    else Push([s[0]], BodyF(s[1..]))
  }

  function StringF(s: string): (p: Parse<string>)
    ensures p.Done? ==> |p.rest| < |s|
  {
    if s == "" || s[0] != '"' then Fail else BodyF(s[1..])
  }

  // ---- values -----------------------------------------------------------

  function WordF(word: string, value: Json, s: string): (p: Parse<Json>)
    requires word != ""
    ensures p.Done? ==> |p.rest| < |s|
  {
    if word <= s then Done(value, s[|word|..]) else Fail
  }

  function ValueF(s: string): (p: Parse<Json>)
    ensures p.Done? ==> |p.rest| < |s|
    decreases |s|, 1
  {
    if s == "" then Fail
    else if s[0] == '{' then ObjectF(s)
    else if s[0] == '[' then ArrayF(s)
    else if s[0] == '"' then
      match StringF(s)
      case Fail => Fail
      case Done(text, r) => Done(Str(text), r)
    else if s[0] == 't' then WordF("true", Bool(true), s)
    else if s[0] == 'f' then WordF("false", Bool(false), s)
    else if s[0] == 'n' then WordF("null", Null, s)
    else NumberF(s)
  }

  function ArrayF(s: string): (p: Parse<Json>)
    ensures p.Done? ==> |p.rest| < |s|
    decreases |s|, 0
  {
    if s == "" || s[0] != '[' then Fail
    else
    var inner := SkipSpace(s[1..]);
    if inner != "" && inner[0] == ']' then Done(Arr([]), inner[1..])
    else match ItemsF(inner)
      case Fail => Fail
      case Done(items, r) => Done(Arr(items), r)
  }

  /** One item, then a comma and more items or the closing bracket. */
  function ItemsF(s: string): (p: Parse<seq<Json>>)
    ensures p.Done? ==> |p.rest| < |s|
    decreases |s|, 2
  {
    match ValueF(SkipSpace(s))
    case Fail => Fail
    case Done(v, r) =>
      var t := SkipSpace(r);
      if t == "" then Fail
      else if t[0] == ',' then Prepend([v], ItemsF(t[1..]))
      else if t[0] == ']' then Done([v], t[1..])
      else Fail
  }

  function ObjectF(s: string): (p: Parse<Json>)
    ensures p.Done? ==> |p.rest| < |s|
    decreases |s|, 0
  {
    if s == "" || s[0] != '{' then Fail
    else
    var inner := SkipSpace(s[1..]);
    if inner != "" && inner[0] == '}' then Done(Obj([]), inner[1..])
    else match MembersF(inner)
      case Fail => Fail
      case Done(members, r) => Done(Obj(members), r)
  }

  /** A key, a colon and a value: one member of an object. */
  function MemberF(s: string): (p: Parse<Member>)
    ensures p.Done? ==> |p.rest| < |s|
    decreases |s|, 2
  {
    match StringF(SkipSpace(s))
    case Fail => Fail
    case Done(key, r) =>
      var t := SkipSpace(r);
      if t == "" || t[0] != ':' then Fail
      else match ValueF(SkipSpace(t[1..]))
        case Fail => Fail
        case Done(v, r2) => Done(Member(key, v), r2)
  }

  function MembersF(s: string): (p: Parse<seq<Member>>)
    ensures p.Done? ==> |p.rest| < |s|
    decreases |s|, 3
  {
    match MemberF(s)
    case Fail => Fail
    case Done(m, r) =>
      var t := SkipSpace(r);
      if t == "" then Fail
      else if t[0] == ',' then Prepend([m], MembersF(t[1..]))
      else if t[0] == '}' then Done([m], t[1..])
      else Fail
  }

  function Prepend<T>(xs: seq<T>, p: Parse<seq<T>>): Parse<seq<T>> {
    match p
    case Fail => Fail
    case Done(ys, rest) => Done(xs + ys, rest)
  }

  lemma PrependPrepend<T>(xs: seq<T>, ys: seq<T>, p: Parse<seq<T>>)
    ensures Prepend([], p) == p
    ensures Prepend(xs, Prepend(ys, p)) == Prepend(xs + ys, p)
  {
    if p.Done? {
      assert [] + p.value == p.value;
      assert xs + (ys + p.value) == xs + ys + p.value;
    }
  }

  /** `Json::parse`: one value, with whitespace around it and nothing else. */
  function ParseF(text: string): Result<Json> {
    match ValueF(SkipSpace(text))
    case Fail => Err
    case Done(v, r) => if SkipSpace(r) == "" then Ok(v) else Err
  }
}
