/** What separators and dots mean in a path, written out as texts. */
module PathDots {
  import opened Paths
  import opened Strings
  import opened Wrappers

  /** A separator and more text lead on from where the first text leads. */
  lemma {:induction false} LeadsOn(p: string, q: string)
    requires p != ""
    ensures Walk(START, Components(p + "/" + q)) ==
      match Walk(START, Components(p)) case None => None case Some(l) => Walk(l, Body(Split(q, '/')))
  {
    var all := p + ['/'] + q;
    assert all == p + "/" + q;
    Appended(p, q);
    assert IsAbsolute(all) == IsAbsolute(p) && Lead(all) == Lead(p);
    assert Components(all) == Components(p) + Body(Split(q, '/'));
    hide Walk, Components, Body, Split;
    WalkConcat(START, Components(p), Body(Split(q, '/')));
  }

  lemma {:induction false} SplitsTo(name: string)
    requires '/' !in name
    ensures Split(name, '/') == [name]
    ensures Body([name]) ==
      if name == "" || name == "." then [] else if name == ".." then [Parent] else [Normal(name)]
  {
    SplitWhole(name, '/');
    assert [name][1..] == [] && Body([]) == [];
  }

  lemma {:induction false} WalkOne(l: Lexical, c: Component)
    ensures Walk(l, []) == Some(l) && Walk(l, [c]) == Stepped(l, c)
    ensures Stepped(l, c).Some? ==> forall d :: Walk(l, [c, d]) == Stepped(Stepped(l, c).value, d)
  {
    assert [c][1..] == [];
    assert forall m :: Walk(m, []) == Some(m);
    forall d | Stepped(l, c).Some?
      ensures Walk(l, [c, d]) == Stepped(Stepped(l, c).value, d)
    {
      assert [c, d][1..] == [d] && [d][1..] == [];
    }
  }

  /**
   A separator at the end, a dot, a doubled separator, and a name that two dots
   take back again: none of them changes where a path leads.
   */
  lemma {:induction false} DotsAreNothing(p: string, name: string, q: string)
    requires p != "" && Name(name)
    ensures Normalize(p + "/") == Normalize(p) && Normalize(p + "/" + ".") == Normalize(p)
    ensures Normalize(p + "/" + ("/" + q)) == Normalize(p + "/" + q)
    ensures Normalize(p + "/" + (name + "/" + "..")) == Normalize(p)
  {
    assert p + "/" + "" == p + "/";
    LeadsOn(p, "");
    LeadsOn(p, ".");
    LeadsOn(p, "/" + q);
    LeadsOn(p, q);
    LeadsOn(p, name + "/" + "..");
    SplitsTo("");
    SplitsTo(".");
    RootedBody(q);
    NameAndBack(name);
    hide Components, Split, Body;
    if Walk(START, Components(p)).Some? {
      var l := Walk(START, Components(p)).value;
      WalkOne(l, Normal(name));
      assert (l.names + [name])[..|l.names|] == l.names;
      assert l.(names := l.names + [name]).(names := l.names) == l;
    }
    hide Walk;
  }

  lemma {:induction false} NameAndBack(name: string)
    requires Name(name)
    ensures Body(Split(name + "/" + "..", '/')) == [Normal(name), Parent]
  {
    assert name + ['/'] + ".." == name + "/" + "..";
    Appended(name, "..");
    SplitsTo(name);
    SplitsTo("..");
  }

  /** Two dots lead nowhere from the start and from the root. */
  lemma {:induction false} DotsClimb()
    ensures Normalize("..") == None && Normalize("/..") == None
  {
    SplitsTo("..");
    RootedBody("..");
    assert "/" + ".." == "/..";
    hide Split, Body;
    assert Components("..") == [] + [Parent] == [Parent];
    assert Components("/..") == [Root] + [Parent] == [Root, Parent];
    WalkOne(START, Parent);
    WalkOne(START, Root);
  }

  /** After a name they take it away. */
  lemma {:induction false} DotsTakeBack(name: string)
    requires Name(name)
    ensures Normalize(name + "/..") == Some("") && Normalize("/" + (name + "/..")) == Some("/")
  {
    NameAndBack(name);
    assert name + "/" + ".." == name + "/..";
    RootedBody(name + "/..");
    NameLead(name);
    hide Split, Body;
    var both := [Normal(name), Parent];
    assert Components(name + "/..") == [] + both == both;
    assert Components("/" + (name + "/..")) == [Root] + both == [Root, Normal(name), Parent];
    hide Components, Walk;
    WalkBack(false, name);
    WalkThree(name);
    assert Render(Lexical(false, [])) == "" + "" == "" && Render(Lexical(true, [])) == "/" + "" == "/";
  }

  lemma {:induction false} WalkBack(absolute: bool, name: string)
    ensures Walk(Lexical(absolute, []), [Normal(name), Parent]) == Some(Lexical(absolute, []))
  {
    var l := Lexical(absolute, []);
    WalkOne(l, Normal(name));
    assert ([] + [name])[..0] == [];
  }

  lemma {:induction false} NameLead(name: string)
    requires Name(name)
    ensures Lead(name + "/..") == [] && Lead("..") == []
  {
    assert name + ['/'] + ".." == name + "/..";
    Appended(name, "..");
    SplitsTo(name);
    SplitsTo("..");
    assert (name + "/..")[0] == name[0];
  }

  lemma {:induction false} WalkThree(name: string)
    ensures Walk(START, [Root, Normal(name), Parent]) == Some(Lexical(true, []))
  {
    assert [Root, Normal(name), Parent][1..] == [Normal(name), Parent];
    WalkBack(true, name);
  }

  /** The root, the empty path and a dot lead to the root and to the start. */
  lemma {:induction false} ShortPaths()
    ensures Normalize("") == Some("") && Normalize("/") == Some("/") && Normalize(".") == Some("")
  {
    SplitsTo("");
    SplitsTo(".");
    RootedBody("");
    assert "/" + "" == "/";
    hide Split, Body;
    assert Components("") == [] + [] == [] && Components("/") == [Root] + [] == [Root];
    assert Components(".") == [Cur] + [] == [Cur];
    WalkOne(START, Root);
    WalkOne(START, Cur);
  }

  /** The separator that normal forms are written with. */
  lemma {:induction false} RenderedNames(first: string, second: string)
    ensures Render(Lexical(false, [first, second])) == first + "/" + second
    ensures Render(Lexical(true, [first, second])) == "/" + (first + "/" + second)
  {
    assert [first, second] == [first] + [second];
    JoinMore([first], second);
    assert Join([first]) == first;
    hide Join;
    assert "" + (first + "/" + second) == first + "/" + second;
  }
}
