/** The Unicode parts of Rust's `str` that the program uses: whitespace and trimming. */
module Unicode {

  /** The White_Space property (`char::is_whitespace`). */
  predicate Whitespace(c: char) {
    var n := c as int;
    0x09 <= n <= 0x0D || n == 0x20 || n == 0x85 || n == 0xA0 || n == 0x1680 || 0x2000 <= n <= 0x200A ||
    n == 0x2028 || n == 0x2029 || n == 0x202F || n == 0x205F || n == 0x3000
  }

  function TrimStart(s: string): (r: string)
    ensures |r| <= |s|
    ensures r == "" || !Whitespace(r[0])
  {
    if s == "" || !Whitespace(s[0]) then s else TrimStart(s[1..])
  }

  function TrimEnd(s: string): (r: string)
    ensures r <= s
    ensures r == "" || !Whitespace(r[|r| - 1])
  {
    if s == "" || !Whitespace(s[|s| - 1]) then s else TrimEnd(s[..|s| - 1])
  }

  /** `str::trim`. */
  function Trim(s: string): string {
    TrimEnd(TrimStart(s))
  }

  /** The twenty-five characters, one by one. */
  lemma {:induction false} WhitespaceIs(c: char)
    ensures Whitespace(c) <==> c as int in {
      0x09, 0x0A, 0x0B, 0x0C, 0x0D, 0x20, 0x85, 0xA0, 0x1680, 0x2000, 0x2001, 0x2002, 0x2003, 0x2004, 0x2005, 0x2006,
      0x2007, 0x2008, 0x2009, 0x200A, 0x2028, 0x2029, 0x202F, 0x205F, 0x3000}
  {
  }

  predicate Blank(s: string) {
    forall i :: 0 <= i < |s| ==> Whitespace(s[i])
  }

  /** Nothing to trim at either end. */
  predicate Tight(s: string) {
    s == "" || (!Whitespace(s[0]) && !Whitespace(s[|s| - 1]))
  }

  lemma {:induction false} TrimStartIs(a: string, s: string)
    requires Blank(a) && (s == "" || !Whitespace(s[0]))
    ensures TrimStart(a + s) == s
  {
    if a == "" {
      assert a + s == s;
    } else {
      assert (a + s)[1..] == a[1..] + s;
      TrimStartIs(a[1..], s);
    }
  }

  lemma {:induction false} TrimEndIs(s: string, b: string)
    requires Blank(b) && (s == "" || !Whitespace(s[|s| - 1]))
    ensures TrimEnd(s + b) == s
  {
    if b == "" {
      assert s + b == s;
    } else {
      assert (s + b)[..|s + b| - 1] == s + b[..|b| - 1];
      TrimEndIs(s, b[..|b| - 1]);
    }
  }

  /** Trimming takes away exactly the whitespace on both sides. */
  lemma {:induction false} TrimIs(a: string, s: string, b: string)
    requires Blank(a) && Tight(s) && Blank(b)
    ensures Trim(a + (s + b)) == s
  {
    if s == "" {
      assert a + (s + b) == (a + b) + "";
      TrimStartIs(a + b, "");
    } else {
      TrimStartIs(a, s + b);
      TrimEndIs(s, b);
    }
  }

  /** Every text is such a middle with whitespace around it. */
  lemma {:induction false} TrimSplits(s: string) returns (a: string, b: string)
    ensures Blank(a) && Tight(Trim(s)) && Blank(b) && s == a + (Trim(s) + b)
  {
    var t := TrimStart(s);
    a := StartOf(s);
    b := EndOf(t);
    var m := Trim(s);
    if m != "" {
      assert m[0] == t[0];
    }
  }

  lemma {:induction false} StartOf(s: string) returns (a: string)
    ensures Blank(a) && s == a + TrimStart(s)
  {
    if s == "" || !Whitespace(s[0]) {
      a := "";
    } else {
      var rest := StartOf(s[1..]);
      a := [s[0]] + rest;
    }
  }

  lemma {:induction false} EndOf(s: string) returns (b: string)
    ensures Blank(b) && s == TrimEnd(s) + b
  {
    if s == "" || !Whitespace(s[|s| - 1]) {
      b := "";
    } else {
      var rest := EndOf(s[..|s| - 1]);
      b := rest + [s[|s| - 1]];
    }
  }
}
