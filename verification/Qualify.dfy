/**
 Which release runs a gate's output names: the runs under its `written:`
 sections, or, when those name none, every run that it mentions.
 */
module Qualify {
  import opened Decimal
  import opened Sequences
  import opened Strings
  import opened Unicode
  import opened Utf8
  import opened Wrappers

  const MARKER := "eval/release/"
  const OPENER := "written:"

  // ---- run ids ------------------------------------------------------------

  predicate HexChar(c: char) {
    Digit(c) || 'a' <= c <= 'f' || 'A' <= c <= 'F'
  }

  /** A date, a time and a commit prefix, joined by dashes. */
  predicate WellFormed(id: string) {
    |id| == 28 && Digits(id[..8]) && id[8] == '-' && Digits(id[9..15]) && id[15] == '-' &&
    forall i :: 16 <= i < 28 ==> HexChar(id[i])
  }

  function RunId(rest: string): Option<string> {
    if |rest| >= 28 && WellFormed(rest[..28]) then Some(rest[..28]) else None
  }

  predicate DigitByte(b: Byte) {
    0x30 <= b <= 0x39
  }

  predicate HexByte(b: Byte) {
    DigitByte(b) || 0x61 <= b <= 0x66 || 0x41 <= b <= 0x46
  }

  predicate IdBytes(bytes: seq<Byte>)
    requires |bytes| >= 28
  {
    (forall i :: 0 <= i < 8 ==> DigitByte(bytes[i])) && bytes[8] == 0x2D &&
    (forall i :: 9 <= i < 15 ==> DigitByte(bytes[i])) && bytes[15] == 0x2D &&
    (forall i :: 16 <= i < 28 ==> HexByte(bytes[i]))
  }

  /** Bytes below 0x80 at the front of a text are its first characters. */
  lemma {:induction false} AsciiFront(text: string, k: nat)
    requires k <= |Encode(text)| && forall i :: 0 <= i < k ==> Encode(text)[i] < 0x80
    ensures k <= |text| && forall i :: 0 <= i < k ==> text[i] as int == Encode(text)[i]
    decreases k
  {
    if k > 0 {
      FirstChar(text);
      var rest := Encode(text[1..]);
      assert Encode(text) == [text[0] as int] + rest;
      hide Encode;
      assert forall i :: 0 <= i < k - 1 ==> rest[i] == Encode(text)[i + 1];
      AsciiFront(text[1..], k - 1);
      assert forall i :: 1 <= i < k ==> text[i] == text[1..][i - 1];
    }
  }

  lemma {:induction false} AsciiCharsFront(text: string, k: nat)
    requires k <= |text| && Ascii(text[..k])
    ensures k <= |Encode(text)| && forall i :: 0 <= i < k ==> Encode(text)[i] == text[i] as int
    decreases k
  {
    if k > 0 {
      var front, rest := text[..k], Encode(text[1..]);
      FirstChar(text);
      assert front[0] == text[0];
      assert Encode(text) == [text[0] as int] + rest;
      hide Encode, EncodeChar;
      assert text[1..][..k - 1] == front[1..];
      AsciiRest(front);
      AsciiCharsFront(text[1..], k - 1);
      forall i | 1 <= i < k
        ensures Encode(text)[i] == text[i] as int
      {
        assert Encode(text)[i] == rest[i - 1] && text[i] == text[1..][i - 1];
      }
    }
  }

  lemma {:induction false} AsciiRest(text: string)
    requires text != "" && Ascii(text)
    ensures Ascii(text[1..])
  {
  }

  lemma {:induction false} IdBytesAreIdChars(rest: string)
    ensures |Encode(rest)| >= 28 && IdBytes(Encode(rest)) <==> RunId(rest).Some?
  {
    hide Encode;
    var bytes := Encode(rest);
    if |bytes| >= 28 && IdBytes(bytes) {
      AsciiFront(rest, 28);
      assert forall i :: 0 <= i < 28 ==> rest[..28][i] == rest[i];
      assert WellFormed(rest[..28]);
    }
    if RunId(rest).Some? {
      var id := rest[..28];
      assert forall i :: 0 <= i < 8 ==> id[..8][i] == id[i];
      assert forall i :: 9 <= i < 15 ==> id[9..15][i - 9] == id[i];
      assert Ascii(id);
      AsciiCharsFront(rest, 28);
      assert forall i :: 0 <= i < 28 ==> id[i] == rest[i];
    }
  }

  /** The check works on bytes; it accepts exactly the well-formed ids of 28 characters. */
  method TakeRunId(rest: string) returns (id: Option<string>)
    ensures id == RunId(rest)
  {
    var bytes := Encode(rest);
    IdBytesAreIdChars(rest);
    if |bytes| < 28 || !IdBytes(bytes) {
      return None;
    }
    return Some(rest[..28]);
  }

  // ---- one line -----------------------------------------------------------

  /** The runs that a text names, one for each marker that a well-formed id follows. */
  function Runs(line: string): seq<string> {
    if line == "" then []
    else RunHere(line) + Runs(line[1..])
  }

  function RunHere(line: string): seq<string> {
    if MARKER <= line && RunId(line[|MARKER|..]).Some? then [MARKER + RunId(line[|MARKER|..]).value] else []
  }

  /** The marker cannot begin again inside itself. */
  lemma {:induction false} NoOverlap(line: string, k: nat)
    requires MARKER <= line && 1 <= k < |MARKER|
    ensures !(MARKER <= line[k..])
  {
    assert forall i :: 0 <= i < |MARKER| ==> line[i] == MARKER[i];
    assert line[k..] != "" ==> line[k..][0] == line[k];
    assert k + 1 < |line| ==> line[k..][1] == line[k + 1];
  }

  lemma {:induction false} SkipMarker(line: string, k: nat)
    requires MARKER <= line && 1 <= k <= |MARKER|
    ensures Runs(line[1..]) == Runs(line[k..])
    decreases k
  {
    if k > 1 {
      SkipMarker(line, k - 1);
      NoOverlap(line, k - 1);
      assert line[k - 1..][1..] == line[k..];
    }
  }

  function AddNew(out: seq<string>, x: string): seq<string> {
    if x in out then out else out + [x]
  }

  function AddAll(out: seq<string>, xs: seq<string>): seq<string>
    decreases |xs|
  {
    if xs == [] then out else AddAll(AddNew(out, xs[0]), xs[1..])
  }

  lemma {:induction false} AddAllConcat(out: seq<string>, xs: seq<string>, ys: seq<string>)
    ensures AddAll(out, xs + ys) == AddAll(AddAll(out, xs), ys)
    decreases |xs|
  {
    if xs == [] {
      assert xs + ys == ys;
    } else {
      assert (xs + ys)[1..] == xs[1..] + ys;
      AddAllConcat(AddNew(out, xs[0]), xs[1..], ys);
    }
  }

  /** The first occurrence of each. */
  function Distinct(xs: seq<string>): seq<string> {
    if xs == [] then [] else AddNew(Distinct(xs[..|xs| - 1]), xs[|xs| - 1])
  }

  lemma {:induction false} DistinctIsAddAll(xs: seq<string>, ys: seq<string>)
    ensures AddAll(Distinct(xs), ys) == Distinct(xs + ys)
    decreases |ys|
  {
    if ys == [] {
      assert xs + ys == xs;
    } else {
      var more := xs + [ys[0]];
      assert more[..|more| - 1] == xs;
      DistinctIsAddAll(more, ys[1..]);
      assert more + ys[1..] == xs + ys;
    }
  }

  /** Scans past each marker that it finds, as `match_indices` does. */
  method PushRuns(line: string, before: seq<string>) returns (out: seq<string>)
    ensures out == AddAll(before, Runs(line))
  {
    out := before;
    var i := 0;
    while i < |line|
      invariant 0 <= i <= |line|
      invariant AddAll(out, Runs(line[i..])) == AddAll(before, Runs(line))
    {
      var here := line[i..];
      RunsStep(line, i);
      if MARKER <= here {
        var rest := here[|MARKER|..];
        SkipMarker(here, |MARKER|);
        assert rest == line[i + |MARKER|..] && here[1..] == line[i + 1..];
        var id := TakeRunId(rest);
        AddAllConcat(out, RunHere(here), Runs(rest));
        if id.Some? {
          var full := MARKER + id.value;
          AddOne(out, full);
          if full !in out {
            out := out + [full];
          }
        }
        i := i + |MARKER|;
      } else {
        i := i + 1;
      }
    }
  }

  lemma {:induction false} RunsStep(line: string, i: nat)
    requires i < |line|
    ensures Runs(line[i..]) == RunHere(line[i..]) + Runs(line[i + 1..])
    ensures !(MARKER <= line[i..]) ==> Runs(line[i..]) == Runs(line[i + 1..])
  {
    assert line[i..][1..] == line[i + 1..];
  }

  lemma {:induction false} AddOne(out: seq<string>, x: string)
    ensures AddAll(out, [x]) == AddNew(out, x)
  {
    assert [x][1..] == [];
    assert AddAll(AddNew(out, x), []) == AddNew(out, x);
  }

  // ---- lines and sections -------------------------------------------------

  function StripReturn(line: string): string {
    if line != "" && line[|line| - 1] == '\r' then line[..|line| - 1] else line
  }

  function StripReturns(lines: seq<string>): (r: seq<string>)
    ensures |r| == |lines|
    ensures forall i :: 0 <= i < |lines| ==> r[i] == StripReturn(lines[i])
  {
    seq(|lines|, i requires 0 <= i < |lines| => StripReturn(lines[i]))
  }

  /** `str::lines`: what follows the last line feed is a line only when it is not empty. */
  function Lines(text: string): seq<string> {
    var parts := Split(text, '\n');
    var n := |parts| - 1;
    StripReturns(parts[..n]) + (if parts[n] == "" then [] else [parts[n]])
  }

  datatype Scope = Written | Everything

  predicate Opens(line: string) {
    OPENER <= Trim(line)
  }

  predicate Closes(line: string) {
    Trim(line) == ""
  }

  /** Whether a section is open after the line. */
  predicate After(line: string, inside: bool) {
    Opens(line) || (inside && !Closes(line))
  }

  /** The part of a line that is scanned. */
  function Scanned(line: string, scope: Scope, inside: bool): string {
    if Opens(line) then Trim(line)[|OPENER|..]
    else if inside && Closes(line) then ""
    else if scope == Written && !inside then ""
    else line
  }

  function Mentions(lines: seq<string>, scope: Scope, inside: bool): seq<string>
    decreases |lines|
  {
    if lines == [] then []
    else Runs(Scanned(lines[0], scope, inside)) + Mentions(lines[1..], scope, After(lines[0], inside))
  }

  lemma {:induction false} MentionsFrom(lines: seq<string>, scope: Scope, inside: bool, i: nat, out: seq<string>)
    requires i < |lines|
    ensures AddAll(out, Mentions(lines[i..], scope, inside)) ==
      AddAll(AddAll(out, Runs(Scanned(lines[i], scope, inside))),
             Mentions(lines[i + 1..], scope, After(lines[i], inside)))
  {
    assert lines[i..][1..] == lines[i + 1..];
    AddAllConcat(out, Runs(Scanned(lines[i], scope, inside)), Mentions(lines[i + 1..], scope, After(lines[i], inside)));
  }

  method CollectRuns(text: string, scope: Scope) returns (out: seq<string>)
    ensures out == Distinct(Mentions(Lines(text), scope, false))
  {
    out := [];
    var inWritten := false;
    var lines := Lines(text);
    for i := 0 to |lines|
      invariant AddAll(out, Mentions(lines[i..], scope, inWritten)) == AddAll([], Mentions(lines, scope, false))
    {
      var line := lines[i];
      MentionsFrom(lines, scope, inWritten, i, out);
      hide Mentions, Runs;
      NothingHere(out);
      var trimmed := Trim(line);
      if OPENER <= trimmed {
        inWritten := true;
        out := PushRuns(trimmed[|OPENER|..], out);
        continue;
      }
      if inWritten && trimmed == "" {
        inWritten := false;
        continue;
      }
      if scope == Written && !inWritten {
        continue;
      }
      out := PushRuns(line, out);
    }
    DistinctIsAddAll([], Mentions(lines, scope, false));
    assert [] + Mentions(lines, scope, false) == Mentions(lines, scope, false);
  }

  lemma {:induction false} NothingHere(out: seq<string>)
    ensures AddAll(out, Runs("")) == out
  {
  }

  method FindReleaseRuns(text: string) returns (runs: seq<string>)
    ensures runs == Found(text)
  {
    var written := CollectRuns(text, Written);
    if written != [] {
      return written;
    }
    runs := CollectRuns(text, Everything);
  }

  /** The runs that the written sections name, or else every run that is named. */
  function Found(text: string): seq<string> {
    var lines := Lines(text);
    if Mentions(lines, Written, false) != [] then Distinct(Mentions(lines, Written, false))
    else Distinct(Mentions(lines, Everything, false))
  }

  // ---- what is found ------------------------------------------------------

  /** Position of the first occurrence. */
  function First(xs: seq<string>, x: string): (p: nat)
    ensures p <= |xs|
    ensures p < |xs| ==> xs[p] == x
    ensures x !in xs[..p]
  {
    if xs == [] || xs[0] == x then 0 else
      var p := First(xs[1..], x);
      assert xs[..p + 1] == [xs[0]] + xs[1..][..p];
      p + 1
  }

  lemma {:induction false} FirstIs(xs: seq<string>, x: string, p: nat)
    requires p < |xs| && xs[p] == x && x !in xs[..p]
    ensures First(xs, x) == p
  {
    var q := First(xs, x);
  }

  /** The same entries, each once, in the order in which they first occur. */
  lemma {:induction false} DistinctIs(xs: seq<string>)
    ensures NoDuplicates(Distinct(xs))
    ensures forall x :: x in Distinct(xs) <==> x in xs
    ensures forall i, j :: 0 <= i < j < |Distinct(xs)| ==> First(xs, Distinct(xs)[i]) < First(xs, Distinct(xs)[j])
  {
    if xs != [] {
      var n := |xs| - 1;
      var init, last := xs[..n], xs[n];
      DistinctIs(init);
      assert xs == init + [last];
      forall x | x in init
        ensures First(xs, x) == First(init, x) < n
      {
        var p := First(init, x);
        assert init[..|init|] == init;
        assert xs[..p] == init[..p];
        FirstIs(xs, x, p);
      }
      if last !in init {
        FirstIs(xs, last, n);
      }
    }
  }

  /** A marker at `i`, with a well-formed id right after it, that reads as `run`. */
  predicate NamedAt(line: string, i: nat, run: string) {
    i <= |line| && MARKER <= line[i..] && RunId(line[i..][|MARKER|..]).Some? &&
    run == MARKER + RunId(line[i..][|MARKER|..]).value
  }

  lemma {:induction false} RunsExactly(line: string, run: string)
    ensures run in Runs(line) <==> exists i: nat :: NamedAt(line, i, run)
  {
    if line == "" {
      assert forall i: nat :: !NamedAt(line, i, run);
    } else {
      var rest := line[1..];
      RunsExactly(rest, run);
      assert line[0..] == line;
      if run in RunHere(line) {
        assert NamedAt(line, 0, run);
      } else if run in Runs(rest) {
        var i: nat :| NamedAt(rest, i, run);
        assert rest[i..] == line[i + 1..];
        assert NamedAt(line, i + 1, run);
      }
      if i: nat :| NamedAt(line, i, run) {
        if i == 0 {
          assert run in RunHere(line);
        } else {
          assert rest[i - 1..] == line[i..];
          assert NamedAt(rest, i - 1, run);
        }
      }
    }
  }

  /** Whether a section is open before line `k`. */
  function Inside(lines: seq<string>, k: nat, inside: bool): bool
    requires k <= |lines|
    decreases k
  {
    if k == 0 then inside else Inside(lines[1..], k - 1, After(lines[0], inside))
  }

  lemma {:induction false} InsideNext(lines: seq<string>, k: nat, inside: bool)
    requires k < |lines|
    ensures Inside(lines, k + 1, inside) == After(lines[k], Inside(lines, k, inside))
    decreases k
  {
    if k > 0 {
      InsideNext(lines[1..], k - 1, After(lines[0], inside));
    }
  }

  /** A section opened at line `j` and no line between closes it. */
  predicate OpenSince(lines: seq<string>, j: nat, k: nat)
    requires k <= |lines|
  {
    j < k && Opens(lines[j]) && forall m :: j < m < k ==> !Closes(lines[m])
  }

  /** A line is in a section exactly when an opener comes before it with no blank line between. */
  lemma {:induction false} InsideExactly(lines: seq<string>, k: nat)
    requires k <= |lines|
    ensures Inside(lines, k, false) <==> exists j: nat :: OpenSince(lines, j, k)
    decreases k
  {
    if k > 0 {
      InsideNext(lines, k - 1, false);
      InsideExactly(lines, k - 1);
      OpensIsNotBlank(lines[k - 1]);
      forall j: nat
        ensures OpenSince(lines, j, k) <==>
          (j == k - 1 && Opens(lines[j])) || (OpenSince(lines, j, k - 1) && !Closes(lines[k - 1]))
      {
      }
      hide Opens, Closes, Inside, OpenSince;
      if Opens(lines[k - 1]) {
        assert OpenSince(lines, k - 1, k);
      } else if Inside(lines, k, false) {
        var j: nat :| OpenSince(lines, j, k - 1);
        assert OpenSince(lines, j, k);
      }
    }
  }

  lemma {:induction false} OpensIsNotBlank(line: string)
    ensures Opens(line) ==> !Closes(line)
  {
  }

  /** Line `k`, where the scope scans it, names the run. */
  predicate LineNames(lines: seq<string>, scope: Scope, inside: bool, k: nat, run: string) {
    k < |lines| && run in Runs(Scanned(lines[k], scope, Inside(lines, k, inside)))
  }

  lemma {:induction false} MentionsExactly(lines: seq<string>, scope: Scope, inside: bool, run: string)
    ensures run in Mentions(lines, scope, inside) <==> exists k: nat :: LineNames(lines, scope, inside, k, run)
    decreases |lines|
  {
    if lines != [] {
      var rest, next := lines[1..], After(lines[0], inside);
      MentionsExactly(rest, scope, next, run);
      assert LineNames(lines, scope, inside, 0, run) <==> run in Runs(Scanned(lines[0], scope, inside));
      forall k: nat
        ensures LineNames(lines, scope, inside, k + 1, run) <==> LineNames(rest, scope, next, k, run)
      {
        LineNamesNext(lines, scope, inside, k, run);
      }
      hide Runs, Scanned, After, LineNames, Inside;
      if k: nat :| LineNames(lines, scope, inside, k, run) {
        if k > 0 {
          LineNamesNext(lines, scope, inside, k - 1, run);
          assert LineNames(rest, scope, next, k - 1, run);
        }
      }
      if run in Mentions(rest, scope, next) {
        var k: nat :| LineNames(rest, scope, next, k, run);
        assert LineNames(lines, scope, inside, k + 1, run);
      }
    }
  }

  lemma {:induction false} LineNamesNext(lines: seq<string>, scope: Scope, inside: bool, k: nat, run: string)
    requires lines != []
    ensures LineNames(lines, scope, inside, k + 1, run) <==>
      LineNames(lines[1..], scope, After(lines[0], inside), k, run)
  {
    hide Runs, Scanned, After;
    assert k + 1 < |lines| ==> lines[1..][k] == lines[k + 1];
  }

  // ---- the result, without the scan -----------------------------------------

  /** Some marker in the text, with a well-formed id after it, reads as `run`. */
  ghost predicate NamedIn(text: string, run: string) {
    exists i: nat :: NamedAt(text, i, run)
  }

  /** What an opening line says after the opener; any other line as it stands. */
  function Said(line: string): string {
    if Opens(line) then Trim(line)[|OPENER|..] else line
  }

  /** The line opens a section, or comes after one that does with no blank line between or in its own place. */
  ghost predicate InSection(lines: seq<string>, k: nat)
    requires k < |lines|
  {
    Opens(lines[k]) || (!Closes(lines[k]) && exists j: nat :: OpenSince(lines, j, k))
  }

  ghost predicate NamedInSection(lines: seq<string>, k: nat, run: string) {
    k < |lines| && InSection(lines, k) && NamedIn(Said(lines[k]), run)
  }

  ghost predicate NamedAnywhere(lines: seq<string>, k: nat, run: string) {
    k < |lines| && NamedIn(Said(lines[k]), run)
  }

  lemma {:induction false} BlankNamesNothing(line: string, run: string)
    requires Closes(line)
    ensures !NamedIn(line, run)
  {
    var a, b := TrimSplits(line);
    assert line == a + b;
    forall i: nat
      ensures !NamedAt(line, i, run)
    {
      if i < |line| {
        assert line[i..][0] == line[i] && Whitespace(line[i]);
      }
      assert MARKER[0] == 'e';
    }
  }

  lemma {:induction false} LineNamesIs(lines: seq<string>, k: nat, run: string)
    ensures LineNames(lines, Written, false, k, run) <==> NamedInSection(lines, k, run)
    ensures LineNames(lines, Everything, false, k, run) <==> NamedAnywhere(lines, k, run)
  {
    if k < |lines| {
      var line := lines[k];
      InsideExactly(lines, k);
      RunsExactly(Said(line), run);
      assert Runs("") == [];
      if Closes(line) {
        BlankNamesNothing(line, run);
      }
      OpensIsNotBlank(line);
      hide Opens, Closes, Inside, OpenSince, Runs, NamedAt;
    }
  }

  /**
   A run is found exactly when a section names it, or, when no section names
   any run, when any line does; and it is found once.
   */
  lemma {:induction false} FoundExactly(text: string, run: string)
    ensures NoDuplicates(Found(text))
    ensures var lines := Lines(text);
      run in Found(text) <==>
      if exists k: nat, r :: NamedInSection(lines, k, r) then exists k: nat :: NamedInSection(lines, k, run)
      else exists k: nat :: NamedAnywhere(lines, k, run)
  {
    var lines := Lines(text);
    hide Lines, LineNames, Mentions, NamedInSection, NamedAnywhere;
    forall k: nat, r
      ensures LineNames(lines, Written, false, k, r) <==> NamedInSection(lines, k, r)
      ensures LineNames(lines, Everything, false, k, r) <==> NamedAnywhere(lines, k, r)
    {
      LineNamesIs(lines, k, r);
    }
    ScopeOf(lines);
    MentionsExactly(lines, Written, false, run);
    MentionsExactly(lines, Everything, false, run);
    DistinctIs(Mentions(lines, Written, false));
    DistinctIs(Mentions(lines, Everything, false));
  }

  lemma {:induction false} ScopeOf(lines: seq<string>)
    ensures Mentions(lines, Written, false) != [] <==> exists k: nat, r :: LineNames(lines, Written, false, k, r)
  {
    hide LineNames, Mentions;
    var written := Mentions(lines, Written, false);
    if written != [] {
      MentionsExactly(lines, Written, false, written[0]);
    } else {
      forall k: nat, r
        ensures !LineNames(lines, Written, false, k, r)
      {
        MentionsExactly(lines, Written, false, r);
      }
    }
  }

  // ---- markers, ids, openers and lines as text --------------------------------

  /** The shape of a run, in literal characters. */
  predicate RunShape(run: string, date: string, time: string, commit: string) {
    |date| == 8 && |time| == 6 && |commit| == 12 &&
    (forall i :: 0 <= i < 8 ==> date[i] in "0123456789") && (forall i :: 0 <= i < 6 ==> time[i] in "0123456789") &&
    (forall i :: 0 <= i < 12 ==> commit[i] in "0123456789abcdefABCDEF") &&
    run == "eval/release/" + (date + ("-" + (time + ("-" + commit))))
  }

  lemma {:induction false} HexCharIs(c: char)
    ensures HexChar(c) <==> c in "0123456789abcdefABCDEF"
  {
    DigitIs(c);
    assert "0123456789abcdefABCDEF" == "0123456789" + "abcdefABCDEF";
    assert c in "abcdefABCDEF" <==> 'a' <= c <= 'f' || 'A' <= c <= 'F';
  }

  lemma {:induction false} IdShape(id: string)
    ensures WellFormed(id) <==> exists date, time, commit :: RunShape("eval/release/" + id, date, time, commit)
  {
    forall c
      ensures Digit(c) <==> c in "0123456789"
      ensures HexChar(c) <==> c in "0123456789abcdefABCDEF"
    {
      DigitIs(c);
      HexCharIs(c);
    }
    if WellFormed(id) {
      var date, time, commit := id[..8], id[9..15], id[16..];
      assert id == date + ("-" + (time + ("-" + commit)));
      assert RunShape("eval/release/" + id, date, time, commit);
    }
    if date, time, commit :| RunShape("eval/release/" + id, date, time, commit) {
      SameTail("eval/release/", id, date + ("-" + (time + ("-" + commit))));
      assert id[..8] == date && id[9..15] == time;
      assert forall i :: 16 <= i < 28 ==> id[i] == commit[i - 16];
    }
  }

  lemma {:induction false} SameTail(head: string, a: string, b: string)
    requires head + a == head + b
    ensures a == b
  {
    assert (head + a)[|head|..] == a && (head + b)[|head|..] == b;
  }

  /** A text names a run exactly when it holds the marker with a date, a time and a commit of the right shape. */
  lemma {:induction false} NamesExactly(text: string, run: string)
    ensures run in Runs(text) <==>
      exists a, b, date, time, commit :: RunShape(run, date, time, commit) && text == a + (run + b)
  {
    RunsExactly(text, run);
    hide Runs, RunShape;
    if run in Runs(text) {
      var i: nat :| NamedAt(text, i, run);
      var id := text[i..][|MARKER|..][..28];
      IdShape(id);
      assert run == "eval/release/" + id;
      var date, time, commit :| RunShape(run, date, time, commit);
      assert text == text[..i] + (run + text[i..][|MARKER|..][28..]);
    }
    if a, b, date, time, commit :| RunShape(run, date, time, commit) && text == a + (run + b) {
      RunIsNamed(a, b, run, date, time, commit);
    }
  }

  lemma {:induction false} RunIsNamed(a: string, b: string, run: string, date: string, time: string, commit: string)
    requires RunShape(run, date, time, commit)
    ensures NamedAt(a + (run + b), |a|, run)
  {
    var id := date + ("-" + (time + ("-" + commit)));
    IdShape(id);
    hide WellFormed;
    var text := a + (run + b);
    assert text[|a|..] == run + b && run + b == MARKER + (id + b);
    assert text[|a|..][|MARKER|..] == id + b && (id + b)[..28] == id;
  }

  /** A line opens a section exactly when it begins with the opener, apart from whitespace. */
  lemma {:induction false} OpensExactly(line: string)
    ensures Opens(line) <==> exists a, b :: Blank(a) && line == a + ("written:" + b)
  {
    if Opens(line) {
      var a, b := TrimSplits(line);
      var rest := Trim(line)[|OPENER|..];
      assert line == a + ("written:" + (rest + b));
    }
    if a, b :| Blank(a) && line == a + ("written:" + b) {
      TrimStartIs(a, "written:" + b);
      var t := TrimStart(line);
      assert t == "written:" + b;
      TrimEndKeeps("written:", b);
    }
  }

  lemma {:induction false} TrimEndKeeps(head: string, b: string)
    requires head != "" && !Whitespace(head[|head| - 1])
    ensures head <= TrimEnd(head + b)
  {
    if b == "" {
      assert head + b == head;
    } else {
      assert (head + b)[..|head + b| - 1] == head + b[..|b| - 1];
      TrimEndKeeps(head, b[..|b| - 1]);
    }
  }

  /** A line closes a section exactly when it holds nothing but whitespace. */
  lemma {:induction false} ClosesExactly(line: string)
    ensures Closes(line) <==> Blank(line)
  {
    var a, b := TrimSplits(line);
    if Blank(line) {
      assert line == line + ("" + "");
      TrimIs(line, "", "");
    }
    if Closes(line) {
      assert line == a + b;
    }
  }

  /** A line with its ending: a line feed, or a carriage return and a line feed. */
  datatype Ended = Ended(line: string, carriage: bool)
  {
    predicate Proper() {
      '\n' !in line && (line == "" || line[|line| - 1] != '\r')
    }

    function Body(): string {
      if carriage then line + ['\r'] else line
    }
  }

  function Texts(lines: seq<Ended>): (texts: seq<string>)
    ensures |texts| == |lines| && forall i :: 0 <= i < |lines| ==> texts[i] == lines[i].line
  {
    seq(|lines|, i requires 0 <= i < |lines| => lines[i].line)
  }

  function Bodies(lines: seq<Ended>): (texts: seq<string>)
    ensures |texts| == |lines| && forall i :: 0 <= i < |lines| ==> texts[i] == lines[i].Body()
  {
    seq(|lines|, i requires 0 <= i < |lines| => lines[i].Body())
  }

  /** The lines as they are written, and what follows the last ending. */
  function LinesText(lines: seq<Ended>, last: string): string {
    if lines == [] then last else lines[0].Body() + ['\n'] + LinesText(lines[1..], last)
  }

  lemma {:induction false} SplitLines(lines: seq<Ended>, last: string)
    requires (forall i :: 0 <= i < |lines| ==> lines[i].Proper()) && '\n' !in last
    ensures Split(LinesText(lines, last), '\n') == Bodies(lines) + [last]
  {
    if lines == [] {
      SplitWhole(last, '\n');
    } else {
      SplitLines(lines[1..], last);
      assert lines[0].Proper();
      SplitWhole(lines[0].Body(), '\n');
      SplitConcat(lines[0].Body(), '\n', LinesText(lines[1..], last));
      assert Bodies(lines) == [lines[0].Body()] + Bodies(lines[1..]);
    }
  }

  /** Either ending ends a line and belongs to none; an empty rest after the last ending is no line. */
  lemma {:induction false} LinesExactly(lines: seq<Ended>, last: string)
    requires (forall i :: 0 <= i < |lines| ==> lines[i].Proper()) && '\n' !in last
    ensures Lines(LinesText(lines, last)) == Texts(lines) + (if last == "" then [] else [last])
  {
    SplitLines(lines, last);
    hide LinesText;
    var parts := Split(LinesText(lines, last), '\n');
    assert parts[..|parts| - 1] == Bodies(lines) && parts[|parts| - 1] == last;
    forall i | 0 <= i < |lines|
      ensures StripReturn(lines[i].Body()) == lines[i].line
    {
      assert lines[i].Proper();
    }
    assert StripReturns(Bodies(lines)) == Texts(lines);
  }

  // ---- lines outside the sections -----------------------------------------

  /** The lines that open a section or lie in one. */
  function Kept(lines: seq<string>, inside: bool): seq<string>
    decreases |lines|
  {
    if lines == [] then []
    else (if inside || Opens(lines[0]) then [lines[0]] else []) + Kept(lines[1..], After(lines[0], inside))
  }

  lemma {:induction false} KeptMentions(lines: seq<string>, inside: bool)
    ensures Mentions(Kept(lines, inside), Written, inside) == Mentions(lines, Written, inside)
    decreases |lines|
  {
    if lines != [] {
      var rest := Kept(lines[1..], After(lines[0], inside));
      KeptMentions(lines[1..], After(lines[0], inside));
      hide Opens, Closes;
      if inside || Opens(lines[0]) {
        assert Kept(lines, inside)[1..] == rest;
      } else {
        assert Kept(lines, inside) == rest;
        assert Runs("") == [];
      }
    }
  }

  /**
   When a written section names any run, the result depends only on the lines
   that open a section or lie in one: others may be changed, added or removed.
   */
  lemma {:induction false} OnlySectionsMatter(a: string, b: string)
    requires Kept(Lines(a), false) == Kept(Lines(b), false)
    requires Mentions(Lines(a), Written, false) != []
    ensures Found(a) == Found(b)
  {
    KeptMentions(Lines(a), false);
    KeptMentions(Lines(b), false);
  }

  /** What the sections name is also named by the text as a whole. */
  lemma {:induction false} WrittenIsNamed(lines: seq<string>, inside: bool, run: string)
    requires run in Mentions(lines, Written, inside)
    ensures run in Mentions(lines, Everything, inside)
    decreases |lines|
  {
    if lines != [] {
      var line := lines[0];
      if run !in Runs(Scanned(line, Written, inside)) {
        WrittenIsNamed(lines[1..], After(line, inside), run);
      } else if Scanned(line, Written, inside) != Scanned(line, Everything, inside) {
        assert Runs("") == [];
      }
    }
  }
}
