/**
 Lexical path normalisation on Unix paths, written twice in the program, and
 the check that a path stays inside the repository.
 */
module Paths {
  import opened Strings
  import opened Wrappers

  datatype Component = Root | Cur | Parent | Normal(name: string)

  predicate IsAbsolute(path: string) {
    path != "" && path[0] == '/'
  }

  /** Empty parts come from doubled separators and, like dots, are no components. */
  function Body(parts: seq<string>): seq<Component> {
    if parts == [] then []
    else
      (if parts[0] == "" || parts[0] == "." then []
       else if parts[0] == ".." then [Parent] else [Normal(parts[0])]) + Body(parts[1..])
  }

  /** The root, or a leading dot, which alone among the dots is reported. */
  function Lead(path: string): seq<Component> {
    if IsAbsolute(path) then [Root] else if Split(path, '/')[0] == "." then [Cur] else []
  }

  /** `Path::components`. */
  function Components(path: string): seq<Component> {
    Lead(path) + Body(Split(path, '/'))
  }

  /** A component that can be pushed as one more name. */
  predicate Name(n: string) {
    n != "" && n != "." && n != ".." && '/' !in n
  }

  // ---- the normal form ----------------------------------------------------

  datatype Lexical = Lexical(absolute: bool, names: seq<string>)

  predicate LexicalOk(l: Lexical) {
    forall i :: 0 <= i < |l.names| ==> Name(l.names[i])
  }

  function Join(names: seq<string>): string {
    if names == [] then ""
    else if |names| == 1 then names[0]
    else Join(names[..|names| - 1]) + "/" + names[|names| - 1]
  }

  function Render(l: Lexical): string {
    (if l.absolute then "/" else "") + Join(l.names)
  }

  /** What one component does; climbing above the start fails. */
  function Stepped(l: Lexical, c: Component): Option<Lexical> {
    match c
    case Root => Some(Lexical(true, []))
    case Cur => Some(l)
    case Parent => if l.names == [] then None else Some(l.(names := l.names[..|l.names| - 1]))
    case Normal(n) => Some(l.(names := l.names + [n]))
  }

  function Walk(l: Lexical, comps: seq<Component>): Option<Lexical>
    decreases |comps|
  {
    if comps == [] then Some(l)
    else match Stepped(l, comps[0])
      case None => None
      case Some(m) => Walk(m, comps[1..])
  }

  lemma {:induction false} WalkFrom(l: Lexical, comps: seq<Component>, i: nat)
    requires i < |comps|
    ensures Walk(l, comps[i..]) ==
      match Stepped(l, comps[i]) case None => None case Some(m) => Walk(m, comps[i + 1..])
  {
    assert comps[i..][1..] == comps[i + 1..];
  }

  const START := Lexical(false, [])

  function Normalize(path: string): Option<string> {
    match Walk(START, Components(path))
    case None => None
    case Some(l) => Some(Render(l))
  }

  // ---- the buffer ---------------------------------------------------------

  /** `Path::join` and `PathBuf::push`: an absolute part replaces what was there. */
  function Pushed(text: string, part: string): string {
    if IsAbsolute(part) then part
    else if text == "" || text[|text| - 1] == '/' then text + part
    else text + "/" + part
  }

  predicate ComponentsOk(comps: seq<Component>) {
    forall i :: 0 <= i < |comps| ==> (comps[i].Normal? ==> Name(comps[i].name))
  }

  lemma {:induction false} BodyOk(parts: seq<string>)
    requires forall i :: 0 <= i < |parts| ==> '/' !in parts[i]
    ensures ComponentsOk(Body(parts)) && Root !in Body(parts)
  {
    if parts != [] {
      BodyOk(parts[1..]);
    }
  }

  lemma {:induction false} AllComponentsOk(path: string)
    ensures ComponentsOk(Components(path))
    ensures forall i :: 0 < i < |Components(path)| ==> Components(path)[i] != Root
  {
    SplitParts(path, '/');
    BodyOk(Split(path, '/'));
  }

  class PathBuf {
    var text: string
    ghost var value: Lexical

    ghost predicate Valid()
      reads this
    {
      LexicalOk(value) && text == Render(value)
    }

    constructor ()
      ensures Valid() && value == START
    {
      text := "";
      value := START;
    }

    method Push(part: string)
      requires Valid() && (part == "/" || Name(part))
      modifies this
      ensures Valid() && text == Pushed(old(text), part)
      ensures value == if part == "/" then Lexical(true, []) else old(value).(names := old(value.names) + [part])
    {
      if part == "/" {
        text := "/";
        value := Lexical(true, []);
      } else {
        PushName(value, part);
        text := Pushed(text, part);
        value := value.(names := value.names + [part]);
      }
    }

    /** Removes the last name, if there is one. */
    method Pop() returns (ok: bool)
      requires Valid()
      modifies this
      ensures Valid() && ok == (old(value.names) != [])
      ensures value == if ok then old(value).(names := old(value.names)[..|old(value.names)| - 1]) else old(value)
    {
      PopName(value);
      if text == "" || text == "/" {
        return false;
      }
      var i := |text| - 1;
      while i > 0 && text[i] != '/'
        invariant 0 <= i < |text|
        invariant forall j :: i < j < |text| ==> text[j] != '/'
      {
        i := i - 1;
      }
      LastSeparator(value, i);
      text := if text[i] != '/' then "" else if i == 0 then "/" else text[..i];
      value := value.(names := value.names[..|value.names| - 1]);
      return true;
    }
  }

  lemma {:induction false} JoinEnds(names: seq<string>)
    requires forall i :: 0 <= i < |names| ==> Name(names[i])
    ensures names == [] <==> Join(names) == ""
    ensures names != [] ==> Join(names)[|Join(names)| - 1] != '/' && Join(names)[0] != '/'
  {
    if |names| == 1 {
      assert names[0][0] != '/' && names[0][|names[0]| - 1] != '/' by {
        assert names[0][0] in names[0] && names[0][|names[0]| - 1] in names[0];
      }
    } else if |names| > 1 {
      JoinEnds(names[..|names| - 1]);
      var last := names[|names| - 1];
      assert last[|last| - 1] in last;
    }
  }

  lemma {:induction false} PushName(l: Lexical, part: string)
    requires LexicalOk(l) && Name(part)
    ensures Render(l.(names := l.names + [part])) == Pushed(Render(l), part)
  {
    JoinEnds(l.names);
    assert part[0] in part;
    JoinMore(l.names, part);
    hide Join, Name;
    var head := if l.absolute then "/" else "";
    assert head + (Join(l.names) + "/" + part) == head + Join(l.names) + "/" + part;
  }

  lemma {:induction false} JoinMore(names: seq<string>, part: string)
    ensures Join(names + [part]) == if names == [] then part else Join(names) + "/" + part
  {
    assert (names + [part])[..|names|] == names;
  }

  lemma {:induction false} PopName(l: Lexical)
    requires LexicalOk(l)
    ensures l.names == [] <==> (Render(l) == "" || Render(l) == "/")
  {
    JoinEnds(l.names);
    if l.names != [] {
      var j := Join(l.names);
      assert Render(l)[|Render(l)| - 1] == j[|j| - 1];
    }
  }

  /** The last separator stands before the last name. */
  lemma {:induction false} LastSeparator(l: Lexical, i: int)
    requires LexicalOk(l) && l.names != [] && 0 <= i < |Render(l)|
    requires forall j :: i < j < |Render(l)| ==> Render(l)[j] != '/'
    requires i > 0 ==> Render(l)[i] == '/'
    ensures var text := Render(l);
      Render(l.(names := l.names[..|l.names| - 1])) ==
      if text[i] != '/' then "" else if i == 0 then "/" else text[..i]
  {
    var n := |l.names| - 1;
    var init, last := l.(names := l.names[..n]), l.names[n];
    assert l.names == init.names + [last];
    PushName(init, last);
    var text, before := Render(l), Render(init);
    assert last[0] in last && forall k :: 0 <= k < |last| ==> last[k] in last;
    JoinEnds(init.names);
    if before == "" || before[|before| - 1] == '/' {
      assert text == before + last;
      if before != "" {
        assert text[|before| - 1] == '/';
        SeparatorAt(text, |before| - 1, i, last);
      }
    } else {
      assert text == before + "/" + last;
      SeparatorAt(text, |before|, i, last);
    }
  }

  lemma {:induction false} SeparatorAt(text: string, k: int, i: int, last: string)
    requires 0 <= k < |text| && 0 <= i < |text| && text[k] == '/' && text[k + 1..] == last && '/' !in last
    requires forall j :: i < j < |text| ==> text[j] != '/'
    requires i > 0 ==> text[i] == '/'
    ensures i == k
  {
    forall j | k < j < |text|
      ensures text[j] != '/'
    {
      assert text[j] == last[j - k - 1];
    }
  }

  // ---- the two implementations --------------------------------------------

  /** `lexical_normalize` of the scope check. */
  method LexicalNormalize(path: string) returns (r: Option<string>)
    ensures r == Normalize(path)
  {
    var comps := Components(path);
    AllComponentsOk(path);
    var out := new PathBuf();
    for i := 0 to |comps|
      invariant out.Valid() && Walk(START, comps) == Walk(out.value, comps[i..])
      modifies out
    {
      WalkFrom(out.value, comps, i);
      hide Walk, Components, Render, Pushed;
      match comps[i] {
        case Root => out.Push("/");
        case Cur =>
        case Parent =>
          var popped := out.Pop();
          if !popped {
            return None;
          }
        case Normal(part) => out.Push(part);
      }
    }
    return Some(out.text);
  }

  /** How a component is written. */
  function OsStr(c: Component): string {
    match c
    case Root => "/"
    case Cur => "."
    case Parent => ".."
    case Normal(name) => name
  }

  /** `lexical` of the clean command. */
  method LexicalClean(path: string) returns (r: Option<string>)
    ensures r == Normalize(path)
  {
    var comps := Components(path);
    AllComponentsOk(path);
    var out := new PathBuf();
    for i := 0 to |comps|
      invariant out.Valid() && Walk(START, comps) == Walk(out.value, comps[i..])
      modifies out
    {
      WalkFrom(out.value, comps, i);
      hide Walk, Components, Render, Pushed;
      if comps[i].Parent? {
        var popped := out.Pop();
        if !popped {
          return None;
        }
      } else if !comps[i].Cur? {
        out.Push(OsStr(comps[i]));
      }
    }
    return Some(out.text);
  }

  // ---- what normalisation keeps -------------------------------------------

  function Normals(names: seq<string>): (comps: seq<Component>)
    ensures |comps| == |names|
    ensures forall i :: 0 <= i < |names| ==> comps[i] == Normal(names[i])
  {
    seq(|names|, i requires 0 <= i < |names| => Normal(names[i]))
  }

  function Expected(l: Lexical): seq<Component> {
    (if l.absolute then [Root] else []) + Normals(l.names)
  }

  lemma {:induction false} BodyConcat(a: seq<string>, b: seq<string>)
    ensures Body(a + b) == Body(a) + Body(b)
  {
    if a == [] {
      assert a + b == b;
    } else {
      assert (a + b)[1..] == a[1..] + b;
      BodyConcat(a[1..], b);
    }
  }

  lemma {:induction false} BodyOfNames(names: seq<string>)
    requires forall i :: 0 <= i < |names| ==> Name(names[i])
    ensures Body(names) == Normals(names)
  {
    if names != [] {
      BodyOfNames(names[1..]);
      assert Normals(names) == [Normal(names[0])] + Normals(names[1..]);
    }
  }

  lemma {:induction false} SplitJoin(names: seq<string>)
    requires names != [] && forall i :: 0 <= i < |names| ==> Name(names[i])
    ensures Split(Join(names), '/') == names
  {
    var n := |names| - 1;
    SplitWhole(names[n], '/');
    if n > 0 {
      SplitJoin(names[..n]);
      SplitConcat(Join(names[..n]), '/', names[n]);
      assert names[..n] + [names[n]] == names;
    } else {
      assert names == [names[0]];
    }
  }

  /** A normal form reads back as its root and its names. */
  lemma {:induction false} RenderReads(l: Lexical)
    requires LexicalOk(l)
    ensures Components(Render(l)) == Expected(l)
  {
    JoinedBody(l.names);
    RootedBody(Join(l.names));
    LeadOfRender(l);
    hide Body, Split, Join;
    assert Components(Render(l)) == (if l.absolute then [Root] else []) + Normals(l.names);
  }

  lemma {:induction false} JoinedBody(names: seq<string>)
    requires forall i :: 0 <= i < |names| ==> Name(names[i])
    ensures Body(Split(Join(names), '/')) == Normals(names)
  {
    NothingSplits();
    if names != [] {
      SplitJoin(names);
      BodyOfNames(names);
    }
  }

  lemma {:induction false} NothingSplits()
    ensures Split("", '/') == [""] && Body([""]) == []
  {
  }

  lemma {:induction false} RootedBody(joined: string)
    ensures Body(Split("/" + joined, '/')) == Body(Split(joined, '/'))
  {
    SplitConcat("", '/', joined);
    NothingSplits();
    hide Split;
    assert "" + ['/'] + joined == "/" + joined;
    BodyConcat([""], Split(joined, '/'));
  }

  lemma {:induction false} LeadOfRender(l: Lexical)
    requires LexicalOk(l)
    ensures Lead(Render(l)) == if l.absolute then [Root] else []
    ensures Render(l) == (if l.absolute then "/" + Join(l.names) else Join(l.names))
    ensures IsAbsolute(Render(l)) == l.absolute
  {
    JoinEnds(l.names);
    if !l.absolute {
      assert Render(l) == Join(l.names);
      if l.names == [] {
        NothingSplits();
      } else {
        SplitJoin(l.names);
      }
    }
  }

  lemma {:induction false} WalkConcat(l: Lexical, a: seq<Component>, b: seq<Component>)
    ensures Walk(l, a + b) == match Walk(l, a) case None => None case Some(m) => Walk(m, b)
    decreases |a|
  {
    if a == [] {
      assert a + b == b;
    } else {
      assert (a + b)[1..] == a[1..] + b;
      if Stepped(l, a[0]).Some? {
        WalkConcat(Stepped(l, a[0]).value, a[1..], b);
      }
    }
  }

  lemma {:induction false} WalkOk(l: Lexical, comps: seq<Component>)
    requires LexicalOk(l) && ComponentsOk(comps)
    ensures Walk(l, comps).Some? ==> LexicalOk(Walk(l, comps).value)
    decreases |comps|
  {
    if comps != [] && Stepped(l, comps[0]).Some? {
      WalkOk(Stepped(l, comps[0]).value, comps[1..]);
    }
  }

  lemma {:induction false} WalkNames(l: Lexical, names: seq<string>)
    ensures Walk(l, Normals(names)) == Some(l.(names := l.names + names))
    decreases |names|
  {
    if names == [] {
      assert l.names + names == l.names;
    } else {
      assert Normals(names)[1..] == Normals(names[1..]);
      WalkNames(l.(names := l.names + [names[0]]), names[1..]);
      assert l.names + [names[0]] + names[1..] == l.names + names;
    }
  }

  lemma {:induction false} WalkExpected(l: Lexical)
    ensures Walk(START, Expected(l)) == Some(l)
  {
    if l.absolute {
      assert Expected(l)[1..] == Normals(l.names);
      WalkNames(Lexical(true, []), l.names);
      assert [] + l.names == l.names;
    } else {
      assert Expected(l) == Normals(l.names);
      WalkNames(START, l.names);
      assert [] + l.names == l.names;
    }
  }

  /** The value of a path, as a normal form. */
  function Value(path: string): (v: Option<Lexical>)
    ensures v.Some? ==> LexicalOk(v.value)
  {
    AllComponentsOk(path);
    WalkOk(START, Components(path));
    Walk(START, Components(path))
  }

  lemma {:induction false} RenderValue(l: Lexical)
    requires LexicalOk(l)
    ensures Value(Render(l)) == Some(l)
  {
    RenderReads(l);
    WalkExpected(l);
  }

  /** Normalising again changes nothing, and no dot component is left. */
  lemma {:induction false} NormalizeIdempotent(path: string)
    requires Normalize(path).Some?
    ensures var r := Normalize(path).value;
      Normalize(r) == Some(r) && Cur !in Components(r) && Parent !in Components(r)
  {
    var l := Value(path).value;
    RenderReads(l);
    WalkExpected(l);
    hide Walk, Components, Join;
    assert forall i :: 0 <= i < |Expected(l)| ==> Expected(l)[i].Root? || Expected(l)[i].Normal?;
  }

  function Descent(c: Component): int {
    match c
    case Normal(_) => 1
    case Parent => -1
    case _ => 0
  }

  /** How far the components go down, minus how far they climb. */
  function Net(comps: seq<Component>): int {
    if comps == [] then 0 else Net(comps[..|comps| - 1]) + Descent(comps[|comps| - 1])
  }

  lemma {:induction false} NetShift(c: Component, comps: seq<Component>)
    ensures Net([c] + comps) == Net([c]) + Net(comps)
    decreases |comps|
  {
    if comps == [] {
      assert [c] + comps == [c];
    } else {
      var n := |comps| - 1;
      assert ([c] + comps)[..n + 1] == [c] + comps[..n];
      NetShift(c, comps[..n]);
    }
  }

  predicate Climbs(comps: seq<Component>, depth: int) {
    exists k :: 0 <= k <= |comps| && depth + Net(comps[..k]) < 0
  }

  lemma {:induction false} ClimbsStep(c: Component, comps: seq<Component>, depth: nat)
    ensures Climbs([c] + comps, depth) <==> Climbs(comps, depth + Net([c]))
  {
    var all := [c] + comps;
    forall k | 0 <= k <= |comps|
      ensures Net(all[..k + 1]) == Net([c]) + Net(comps[..k])
    {
      assert all[..k + 1] == [c] + comps[..k];
      NetShift(c, comps[..k]);
    }
    assert all[..0] == [] && Net([]) == 0;
    if Climbs(all, depth) {
      var k :| 0 <= k <= |all| && depth + Net(all[..k]) < 0;
      assert depth + Net([c]) + Net(comps[..k - 1]) < 0;
    }
    if Climbs(comps, depth + Net([c])) {
      var k :| 0 <= k <= |comps| && depth + Net([c]) + Net(comps[..k]) < 0;
      assert depth + Net(all[..k + 1]) < 0;
    }
  }

  lemma {:induction false} WalkFails(l: Lexical, comps: seq<Component>)
    requires Root !in comps
    ensures Walk(l, comps).None? <==> Climbs(comps, |l.names|)
    ensures Walk(l, comps).Some? ==> |Walk(l, comps).value.names| == |l.names| + Net(comps)
    decreases |comps|
  {
    if comps == [] {
      assert Net(comps[..0]) == 0;
    } else {
      var c, rest := comps[0], comps[1..];
      assert comps == [c] + rest;
      ClimbsStep(c, rest, |l.names|);
      NetShift(c, rest);
      assert [c][..0] == [] && Net([]) == 0;
      if Stepped(l, c).Some? {
        WalkFails(Stepped(l, c).value, rest);
      } else {
        assert rest[..0] == [];
        assert Climbs(rest, -1);
      }
    }
  }

  /** Normalising fails exactly when some prefix of the path climbs above its start. */
  lemma {:induction false} FailsExactlyWhenClimbing(path: string)
    ensures Normalize(path).None? <==> Climbs(Components(path), 0)
  {
    AllComponentsOk(path);
    var comps := Components(path);
    hide Components, Climbs;
    if comps != [] && comps[0] == Root {
      assert comps == [Root] + comps[1..];
      ClimbsStep(Root, comps[1..], 0);
      assert [Root][..0] == [] && Net([Root]) == 0;
      assert Walk(START, comps) == Walk(Lexical(true, []), comps[1..]);
      hide Walk, Net;
      WalkFails(Lexical(true, []), comps[1..]);
    } else {
      hide Walk, Net;
      WalkFails(START, comps);
    }
  }

  /** Joining a relative path appends its components, apart from a leading dot. */
  lemma {:induction false} PushedComponents(p: string, q: string)
    requires p != "" && !IsAbsolute(q)
    ensures Components(Pushed(p, q)) == Components(p) + Body(Split(q, '/'))
  {
    PushedParts(p, q);
    hide Body, Split;
    assert Lead(Pushed(p, q)) == Lead(p);
  }

  lemma {:induction false} PushedParts(p: string, q: string)
    requires p != "" && !IsAbsolute(q)
    ensures var all := Pushed(p, q);
      Body(Split(all, '/')) == Body(Split(p, '/')) + Body(Split(q, '/')) &&
      Split(all, '/')[0] == Split(p, '/')[0] && IsAbsolute(all) == IsAbsolute(p)
  {
    hide Body, Split;
    var n := |p| - 1;
    NothingSplits();
    if p[n] == '/' {
      var cut := p[..n];
      assert p == cut + ['/'] + "" && Pushed(p, q) == cut + ['/'] + q;
      Appended(cut, "");
      Appended(cut, q);
    } else {
      assert Pushed(p, q) == p + ['/'] + q;
      Appended(p, q);
    }
  }

  lemma {:induction false} Appended(cut: string, q: string)
    ensures var all := cut + ['/'] + q;
      Body(Split(all, '/')) == Body(Split(cut, '/')) + Body(Split(q, '/')) &&
      Split(all, '/')[0] == Split(cut, '/')[0]
  {
    SplitConcat(cut, '/', q);
    hide Split;
    BodyConcat(Split(cut, '/'), Split(q, '/'));
  }

  lemma {:induction false} LeadIsNothing(q: string, l: Lexical)
    requires !IsAbsolute(q)
    ensures Walk(l, Components(q)) == Walk(l, Body(Split(q, '/')))
  {
    var body := Body(Split(q, '/'));
    if Lead(q) == [Cur] {
      assert Components(q)[1..] == body;
    } else {
      assert Components(q) == body;
    }
  }

  /** Walking a joined path is walking on from where the first path led. */
  lemma {:induction false} WalkPushed(p: string, q: string)
    requires !IsAbsolute(q)
    ensures Value(Pushed(p, q)) ==
      match Value(p) case None => None case Some(l) => Walk(l, Components(q))
  {
    if p == "" {
      assert Pushed(p, q) == q;
      assert Split("", '/') == [""];
      assert Body([""]) == [];
      assert Components(p) == [];
    } else {
      PushedComponents(p, q);
      WalkConcat(START, Components(p), Body(Split(q, '/')));
      if Value(p).Some? {
        LeadIsNothing(q, Value(p).value);
      }
    }
  }

  /** A relative path may be joined before or after normalising; an absolute one replaces everything. */
  lemma {:induction false} NormalizeJoined(p: string, q: string)
    ensures !IsAbsolute(q) ==>
      Normalize(Pushed(p, q)) == match Normalize(p) case None => None case Some(r) => Normalize(Pushed(r, q))
    ensures IsAbsolute(q) ==> Normalize(Pushed(p, q)) == Normalize(q)
  {
    if !IsAbsolute(q) {
      WalkPushed(p, q);
      if Value(p).Some? {
        var l := Value(p).value;
        RenderValue(l);
        WalkPushed(Render(l), q);
      }
    }
  }

  // ---- staying inside the repository --------------------------------------

  datatype Resolved = Inside(path: string) | RepoNotFound | Escapes | Outside

  /** `Path::starts_with` compares whole components. */
  predicate StartsWith(path: string, base: string) {
    Components(base) <= Components(path)
  }

  /** What canonicalising a directory gives: an absolute path in normal form. */
  predicate Canonical(repo: string) {
    IsAbsolute(repo) && Value(repo).Some? && Render(Value(repo).value) == repo
  }

  /** `resolve_inside`; canonicalising the repository is a parameter that may fail. */
  method ResolveInside(repo: Option<string>, raw: string) returns (r: Resolved)
    ensures r == Resolve(repo, raw)
  {
    if repo.None? {
      return RepoNotFound;
    }
    var joined := if IsAbsolute(raw) then raw else Pushed(repo.value, raw);
    var normalized := LexicalNormalize(joined);
    if normalized.None? {
      return Escapes;
    }
    if !StartsWith(normalized.value, repo.value) {
      return Outside;
    }
    return Inside(normalized.value);
  }

  function Resolve(repo: Option<string>, raw: string): Resolved {
    if repo.None? then RepoNotFound
    else match Normalize(Pushed(repo.value, raw))
      case None => Escapes
      case Some(n) => if StartsWith(n, repo.value) then Inside(n) else Outside
  }

  /** Where a path given on the command line leads, from inside the repository. */
  function Destination(repo: string, raw: string): Option<Lexical>
    requires Canonical(repo)
  {
    if IsAbsolute(raw) then Value(raw) else Walk(Value(repo).value, Components(raw))
  }

  lemma {:induction false} CanonicalIsAbsolute(repo: string)
    requires Canonical(repo)
    ensures Value(repo).value.absolute
  {
    var l := Value(repo).value;
    JoinEnds(l.names);
  }

  lemma {:induction false} WalkStaysAbsolute(l: Lexical, comps: seq<Component>)
    requires l.absolute
    ensures Walk(l, comps).Some? ==> Walk(l, comps).value.absolute
    decreases |comps|
  {
    if comps != [] && Stepped(l, comps[0]).Some? {
      WalkStaysAbsolute(Stepped(l, comps[0]).value, comps[1..]);
    }
  }

  lemma {:induction false} AbsoluteStarts(a: Lexical, b: Lexical)
    requires LexicalOk(a) && LexicalOk(b) && a.absolute && b.absolute
    ensures StartsWith(Render(a), Render(b)) <==> b.names <= a.names
  {
    RenderReads(a);
    RenderReads(b);
    hide Components, Render, Name;
    NormalsPrefix(b.names, a.names);
    RootedPrefix(Normals(b.names), Normals(a.names));
  }

  lemma {:induction false} NormalsPrefix(x: seq<string>, y: seq<string>)
    ensures Normals(x) <= Normals(y) <==> x <= y
  {
    if Normals(x) <= Normals(y) {
      assert forall i :: 0 <= i < |x| ==> Normals(x)[i] == Normals(y)[i];
    }
  }

  lemma {:induction false} RootedPrefix(x: seq<Component>, y: seq<Component>)
    ensures [Root] + x <= [Root] + y <==> x <= y
  {
    assert ([Root] + x)[1..] == x && ([Root] + y)[1..] == y;
    if x <= y {
      assert y == x + y[|x|..];
      assert [Root] + y == ([Root] + x) + y[|x|..];
    }
  }

  lemma {:induction false} DestinationIs(repo: string, raw: string)
    requires Canonical(repo)
    ensures Value(Pushed(repo, raw)) == Destination(repo, raw)
    ensures Destination(repo, raw).Some? ==>
      Destination(repo, raw).value.absolute && LexicalOk(Destination(repo, raw).value)
  {
    CanonicalIsAbsolute(repo);
    if IsAbsolute(raw) {
      AllComponentsOk(raw);
      assert Components(raw)[0] == Root;
      WalkStaysAbsolute(Lexical(true, []), Components(raw)[1..]);
    } else {
      WalkPushed(repo, raw);
      WalkStaysAbsolute(Value(repo).value, Components(raw));
    }
  }

  /** A path resolves exactly when it leads somewhere, and that place is in the repository's own tree. */
  lemma {:induction false} ResolvesExactlyInside(repo: string, raw: string)
    requires Canonical(repo)
    ensures var d := Destination(repo, raw);
      Resolve(Some(repo), raw) ==
      if d.None? then Escapes
      else if Value(repo).value.names <= d.value.names then Inside(Render(d.value))
      else Outside
  {
    DestinationIs(repo, raw);
    CanonicalIsAbsolute(repo);
    var d := Destination(repo, raw);
    if d.Some? {
      AbsoluteStarts(d.value, Value(repo).value);
    }
  }

  /** `display_rel`: the path from the repository. */
  function Relative(repo: string, path: string): string
    requires Canonical(repo) && Value(path).Some? && |Value(repo).value.names| <= |Value(path).value.names|
  {
    Render(Lexical(false, Value(path).value.names[|Value(repo).value.names|..]))
  }

  /** A resolved path resolves to itself, written in full or from the repository. */
  lemma {:induction false} ResolveFixedPoint(repo: string, raw: string)
    requires Canonical(repo) && Resolve(Some(repo), raw).Inside?
    ensures var n := Resolve(Some(repo), raw).path;
      Resolve(Some(repo), n) == Inside(n) &&
      Value(n).Some? && |Value(repo).value.names| <= |Value(n).value.names| &&
      Resolve(Some(repo), Relative(repo, n)) == Inside(n)
  {
    ResolvesExactlyInside(repo, raw);
    DestinationIs(repo, raw);
    CanonicalIsAbsolute(repo);
    var l, base := Destination(repo, raw).value, Value(repo).value;
    hide Walk, Components, Join;
    RenderValue(l);
    ResolvesExactlyInside(repo, Render(l));
    RelativeReturns(base, l);
    ResolvesExactlyInside(repo, Relative(repo, Render(l)));
  }

  /** Walking the rest of the path from the base gives the path. */
  lemma {:induction false} RelativeReturns(base: Lexical, l: Lexical)
    requires LexicalOk(base) && LexicalOk(l) && base.absolute && l.absolute && base.names <= l.names
    ensures var tail := Render(Lexical(false, l.names[|base.names|..]));
      !IsAbsolute(tail) && Walk(base, Components(tail)) == Some(l)
  {
    var tail := Lexical(false, l.names[|base.names|..]);
    hide Walk, Components, Join, Render, Expected, Name;
    RenderReads(tail);
    LeadOfRender(tail);
    ExpectedRelative(tail.names);
    WalkNames(base, tail.names);
    Rejoin(base.names, l.names);
  }

  lemma {:induction false} Rejoin(head: seq<string>, all: seq<string>)
    requires head <= all
    ensures head + all[|head|..] == all
  {
  }

  lemma {:induction false} ExpectedRelative(names: seq<string>)
    ensures Expected(Lexical(false, names)) == Normals(names)
  {
    assert [] + Normals(names) == Normals(names);
  }
}
