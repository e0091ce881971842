/**
 What the control characters, the escapes and the parameters of control
 sequences do, as equations between runs of the terminal.
 */
module TerminalText {
  import opened Decimal
  import opened Strings
  import opened Terminal

  // ---- control characters -------------------------------------------------

  lemma {:induction false} OneChar(t: Tables, v: View, ch: char)
    requires Shape(v)
    ensures Run(t, v, [ch]) == Step(t, v, ch)
  {
    StepKeepsShape(t, v, ch);
    assert [ch][1..] == "";
    assert Step(t, v, ch).Going? ==> Run(t, Step(t, v, ch).view, "") == Step(t, v, ch);
    hide Step;
  }

  lemma {:induction false} TwoChars(t: Tables, v: View, a: char, b: char)
    requires Shape(v) && Step(t, v, a).Going?
    ensures Shape(Step(t, v, a).view) && Run(t, v, [a, b]) == Step(t, Step(t, v, a).view, b)
  {
    StepKeepsShape(t, v, a);
    assert [a, b][1..] == [b];
    OneChar(t, Step(t, v, a).view, b);
    hide Step;
  }

  /** A carriage return goes to the first column, a line feed one row down but not past the last, and a bell nowhere. */
  lemma {:induction false} LineControls(t: Tables, v: View)
    requires Shape(v) && v.mode == Text
    ensures Run(t, v, "\r") == Going(v.(col := 0))
    ensures Run(t, v, "\n") == Going(v.(row := if v.row + 1 < v.rows then v.row + 1 else v.row))
    ensures Run(t, v, "\r\n") == Going(v.(col := 0, row := if v.row + 1 < v.rows then v.row + 1 else v.row))
    ensures Run(t, v, [0x07 as char]) == Going(v)
  {
    OneChar(t, v, '\r');
    OneChar(t, v, '\n');
    OneChar(t, v, 0x07 as char);
    TwoChars(t, v, '\r', '\n');
    assert "\r\n" == ['\r', '\n'] && "\r" == ['\r'] && "\n" == ['\n'];
  }

  /** A tab goes to the next column that eight divides, or to the last one when there is none. */
  lemma {:induction false} TabStops(t: Tables, v: View)
    requires Shape(v) && v.mode == Text
    ensures var o := Run(t, v, "\t");
      o == Going(v.(col := o.view.col)) &&
      (o.view.col == v.cols - 1 || (o.view.col % 8 == 0 && v.col < o.view.col < v.cols)) &&
      forall c :: v.col < c < o.view.col ==> c % 8 != 0
  {
    OneChar(t, v, '\t');
    assert "\t" == ['\t'];
  }

  /** Printing over what was printed: a backspace in between leaves only the second character. */
  lemma {:induction false} BackspaceOverstrikes(t: Tables, v: View, a: char, b: char)
    requires Shape(v) && v.mode == Text && Printed([a]) && Printed([b])
    requires CellWidth(t, a) == 1 && CellWidth(t, b) == 1 && v.col < v.cols
    ensures Run(t, v, [a, 0x08 as char, b]) == Run(t, v, [b])
  {
    hide CellWidth, Put;
    var u := v.(grid := v.grid[v.row := v.grid[v.row][v.col := [a]]], col := v.col + 1);
    PrintedStep(t, v, a);
    PutNarrow(t, v, a);
    StepKeepsShape(t, v, a);
    var w := u.(col := v.col);
    assert Step(t, u, 0x08 as char) == Going(w);
    StepKeepsShape(t, u, 0x08 as char);
    assert [a, 0x08 as char, b][1..] == [0x08 as char, b] && [0x08 as char, b][1..] == [b];
    PrintedStep(t, w, b);
    PutNarrow(t, w, b);
    PrintedStep(t, v, b);
    PutNarrow(t, v, b);
    assert w.grid[v.row][v.col := [b]] == v.grid[v.row][v.col := [b]];
    assert w.grid[v.row := w.grid[v.row][v.col := [b]]] == v.grid[v.row := v.grid[v.row][v.col := [b]]];
    OneChar(t, w, b);
    OneChar(t, v, b);
    hide Step;
  }

  lemma {:induction false} PutNarrow(t: Tables, v: View, ch: char)
    requires Shape(v) && CellWidth(t, ch) == 1 && v.col < v.cols
    ensures Put(t, v, ch) == v.(grid := v.grid[v.row := v.grid[v.row][v.col := [ch]]], col := v.col + 1)
  {
  }

  /** In the first column a backspace does nothing. */
  lemma {:induction false} BackspaceAtStart(t: Tables, v: View)
    requires Shape(v) && v.mode == Text && v.col == 0
    ensures Run(t, v, [0x08 as char]) == Going(v)
  {
    OneChar(t, v, 0x08 as char);
  }

  // ---- lines --------------------------------------------------------------

  /** Lines with a carriage return and a line feed between every two. */
  function LinesOf(lines: seq<string>): string
    requires lines != []
  {
    lines[0] + (if |lines| > 1 then "\r\n" + LinesOf(lines[1..]) else "")
  }

  predicate Fits(t: Tables, v: View, lines: seq<string>) {
    v.row + |lines| <= v.rows && forall i :: 0 <= i < |lines| ==> Printed(lines[i]) && |Cells(t, lines[i])| <= v.cols
  }

  /** Lines that fit fill consecutive rows from the first column on, and no other row changes. */
  lemma {:induction false} LinesShow(t: Tables, v: View, lines: seq<string>)
    requires Shape(v) && v.mode == Text && v.col == 0 && lines != [] && Fits(t, v, lines)
    ensures var o := Run(t, v, LinesOf(lines));
      o.Going? && o.view.row == v.row + |lines| - 1 && o.view.col == |Cells(t, lines[|lines| - 1])| &&
      o.view.mode == Text &&
      (forall r :: 0 <= r < v.rows && !(v.row <= r < v.row + |lines|) ==> o.view.grid[r] == v.grid[r]) &&
      forall i :: 0 <= i < |lines| ==> o.view.grid[v.row + i] == Shown(v.grid[v.row + i], 0, Cells(t, lines[i]))
    decreases |lines|
  {
    hide Run, Cells, Shown, Printed;
    PrintShows(t, v, lines[0]);
    var shown := v.grid[v.row := Shown(v.grid[v.row], 0, Cells(t, lines[0]))];
    var u := v.(grid := shown, col := |Cells(t, lines[0])|);
    assert Shape(u);
    if |lines| == 1 {
      assert LinesOf(lines) == lines[0] + "" == lines[0];
    } else {
      var rest := lines[1..];
      LineControls(t, u);
      var w := u.(col := 0, row := v.row + 1);
      RunConcat(t, v, lines[0], "\r\n" + LinesOf(rest));
      RunConcat(t, u, "\r\n", LinesOf(rest));
      assert forall i :: 0 <= i < |rest| ==> rest[i] == lines[i + 1];
      LinesShow(t, w, rest);
      var o := Run(t, w, LinesOf(rest));
      assert o == Run(t, v, LinesOf(lines));
      forall i | 1 <= i < |lines|
        ensures o.view.grid[v.row + i] == Shown(v.grid[v.row + i], 0, Cells(t, lines[i]))
      {
        assert o.view.grid[w.row + (i - 1)] == Shown(w.grid[w.row + (i - 1)], 0, Cells(t, rest[i - 1]));
      }
    }
  }

  // ---- escapes ------------------------------------------------------------

  /** A two-character escape shows nothing. */
  lemma {:induction false} ShortEscape(t: Tables, v: View, c: char)
    requires Shape(v) && v.mode == Text && c != '[' && c != ']'
    ensures Run(t, v, [0x1B as char, c]) == Going(v)
  {
    TwoChars(t, v, 0x1B as char, c);
    assert v.(mode := Esc).(mode := Text) == v;
  }

  lemma {:induction false} OscBody(t: Tables, v: View, body: string)
    requires Shape(v) && v.mode == Osc && 0x07 as char !in body && 0x1B as char !in body
    ensures Run(t, v, body) == Going(v)
  {
    if body != "" {
      assert Step(t, v, body[0]) == Going(v);
      StepKeepsShape(t, v, body[0]);
      OscBody(t, v, body[1..]);
    }
  }

  /** An operating system command shows nothing, whether a bell ends it or an escape with any character after it. */
  lemma {:induction false} OscShowsNothing(t: Tables, v: View, body: string, c: char)
    requires Shape(v) && v.mode == Text && 0x07 as char !in body && 0x1B as char !in body
    ensures Run(t, v, [0x1B as char, ']'] + (body + [0x07 as char])) == Going(v)
    ensures Run(t, v, [0x1B as char, ']'] + (body + [0x1B as char, c])) == Going(v)
  {
    var u := v.(mode := Osc);
    var open := [0x1B as char, ']'];
    TwoChars(t, v, 0x1B as char, ']');
    RunConcat(t, v, open, body + [0x07 as char]);
    RunConcat(t, v, open, body + [0x1B as char, c]);
    OscBody(t, u, body);
    RunConcat(t, u, body, [0x07 as char]);
    RunConcat(t, u, body, [0x1B as char, c]);
    OneChar(t, u, 0x07 as char);
    TwoChars(t, u, 0x1B as char, c);
    assert u.(mode := Text) == v && u.(mode := OscEsc).(mode := Text) == v;
    hide Run;
  }

  predicate Params(params: string) {
    forall i :: 0 <= i < |params| ==> params[i] in "0123456789;?"
  }

  lemma {:induction false} ParamsAre(params: string)
    requires Params(params)
    ensures forall i :: 0 <= i < |params| ==> ParamChar(params[i])
  {
    assert "0123456789;?" == "0123456789" + ";?";
    forall i | 0 <= i < |params|
      ensures ParamChar(params[i])
    {
      DigitIs(params[i]);
    }
  }

  lemma {:induction false} OpenedWith(t: Tables, v: View, params: string)
    requires Shape(v) && v.mode == Text && Params(params)
    ensures Run(t, v, [0x1B as char, '['] + params) == Going(v.(mode := Csi, params := params))
  {
    OpensControl(t, v);
    RunConcat(t, v, [0x1B as char, '['], params);
    ParamsAre(params);
    ParamsCollect(t, v.(mode := Csi, params := ""), params);
    assert "" + params == params;
    hide Run;
  }

  /** A control sequence does what its final character does with its arguments. */
  lemma {:induction false} SequenceRuns(t: Tables, v: View, params: string, final: char)
    requires Shape(v) && v.mode == Text && Params(params) && final !in "0123456789;?" && final != 0x1B as char
    ensures var o := Control(v.(params := params), final, Arguments(params));
      var r := Run(t, v, [0x1B as char, '['] + (params + [final]));
      (o.Going? ==> r == o) && (o.Raised? ==> r == Raised(o.view.(mode := Csi)))
  {
    var u := v.(mode := Csi, params := params);
    OpenedWith(t, v, params);
    assert [0x1B as char, '['] + (params + [final]) == ([0x1B as char, '['] + params) + [final];
    RunConcat(t, v, [0x1B as char, '['] + params, [final]);
    FinalIs(final);
    OneChar(t, u, final);
    ControlIgnoresMode(v.(params := params), final, Arguments(params));
    hide Run, Control, Arguments;
  }

  lemma {:induction false} FinalIs(final: char)
    requires final !in "0123456789;?"
    ensures !ParamChar(final)
  {
    DigitIs(final);
    assert "0123456789;?" == "0123456789" + ";?";
  }

  lemma {:induction false} ControlIgnoresMode(v: View, final: char, nums: seq<nat>)
    requires Shape(v) && nums != [] && v.mode == Text
    ensures var (a, b) := (Control(v, final, nums), Control(v.(mode := Csi), final, nums));
      (a.Going? <==> b.Going?) && b.view == a.view.(mode := Csi) && b.view.(mode := Text) == a.view
  {
    hide EraseCells, EraseBelow, BlankGrid, BlankRow, OrOne, Min, Max;
  }

  /** A sequence that a new escape cuts short is forgotten. */
  lemma {:induction false} TruncatedRestarts(t: Tables, v: View, params: string, rest: string)
    requires Shape(v) && v.mode == Text && Params(params)
    ensures Run(t, v, ([0x1B as char, '['] + params) + ([0x1B as char, '['] + rest)) ==
      Run(t, v, [0x1B as char, '['] + rest)
  {
    var u := v.(mode := Csi, params := params);
    OpenedWith(t, v, params);
    RunConcat(t, v, [0x1B as char, '['] + params, [0x1B as char, '['] + rest);
    RunConcat(t, u, [0x1B as char, '['], rest);
    RunConcat(t, v, [0x1B as char, '['], rest);
    TwoChars(t, u, 0x1B as char, '[');
    OpensControl(t, v);
    hide Run;
  }

  // ---- arguments ----------------------------------------------------------

  function Written(nums: seq<nat>): string
    requires nums != []
  {
    if |nums| == 1 then NatText(nums[0]) else NatText(nums[0]) + ";" + Written(nums[1..])
  }

  lemma {:induction false} WrittenSplits(nums: seq<nat>)
    requires nums != []
    ensures Numbers(Split(Written(nums), ';')) == nums
    ensures Written(nums) != "" && Digit(Written(nums)[0])
  {
    var n := NatText(nums[0]);
    NatTextValue(nums[0]);
    assert n != "" && Digit(n[0]) && Number(n) == nums[0];
    if |nums| == 1 {
      SplitAtSemicolon(n, "");
      assert [n][1..] == [] && Numbers([]) == [];
      assert nums == [nums[0]];
    } else {
      WrittenSplits(nums[1..]);
      SplitAtSemicolon(n, Written(nums[1..]));
      var more := Split(Written(nums[1..]), ';');
      assert ([n] + more)[1..] == more;
      assert Numbers([n] + more) == [nums[0]] + Numbers(more);
    }
  }

  /** Numbers with semicolons between them are those arguments, private or not; empty places count for nothing. */
  lemma {:induction false} ArgumentsAre(nums: seq<nat>)
    requires nums != []
    ensures Arguments(Written(nums)) == nums && Arguments("?" + Written(nums)) == nums
    ensures Arguments(";" + Written(nums)) == nums
  {
    var w := Written(nums);
    WrittenSplits(nums);
    assert ("?" + w)[1..] == w;
    SplitAtSemicolon("", w);
    assert "" + ";" + w == ";" + w;
    assert ([""] + Split(w, ';'))[1..] == Split(w, ';');
    hide Written, Split, Number;
  }

  /** No argument at all, and one that is no number, read as zero. */
  lemma {:induction false} NoArguments(part: string)
    requires ';' !in part && part != "" && part[0] != '?' && !Digits(part)
    ensures Arguments("") == [0] && Arguments("?") == [0] && Arguments(part) == [0]
  {
    assert "?"[1..] == "" && Split("", ';') == [""] && Numbers([""]) == [] by {
      assert [""][1..] == [] && Numbers([]) == [];
    }
    SplitWhole(part, ';');
    assert [part][1..] == [] && Numbers([part]) == [Number(part)] + Numbers([]) == [0];
  }

  /** Zero and one ask for the same move, a missing column is the first, and `f` is `H`. */
  lemma {:induction false} Defaults(v: View, final: char, row: nat, col: nat)
    requires Shape(v)
    ensures final in "ABCDGd" ==> Control(v, final, [0]) == Control(v, final, [1])
    ensures Control(v, 'H', [0, col]) == Control(v, 'H', [1, col])
    ensures Control(v, 'H', [row, 0]) == Control(v, 'H', [row, 1])
    ensures Control(v, 'H', [row]) == Control(v, 'H', [row, 1])
    ensures Control(v, 'f', [row, col]) == Control(v, 'H', [row, col])
    ensures Control(v, 'f', [row]) == Control(v, 'H', [row])
  {
  }

  // ---- what a sequence leaves alone ---------------------------------------

  /** Moves change no cell, erasing moves no cursor, and every other sequence changes nothing. */
  lemma {:induction false} LeavesAlone(v: View, final: char, nums: seq<nat>)
    requires Shape(v) && nums != []
    ensures var u := Control(v, final, nums).view;
      (final in "HfABCDGd" ==> u == v.(row := u.row, col := u.col)) &&
      (final in "JKST" ==> u == v.(grid := u.grid)) &&
      (final !in "HfABCDGdJKST" ==> u == v)
  {
    assert "HfABCDGdJKST" == "HfABCDGd" + "JKST";
  }

  // ---- width and size -----------------------------------------------------

  /** Wide characters take two cells; so do the two ranges of pictures, unless a character combines. */
  lemma {:induction false} WidthIs(t: Tables, ch: char)
    ensures CellWidth(t, ch) == 2 <==>
      t.wide(ch) ||
      (!t.combining(ch) && (0x1F300 <= ch as int < 0x1FB00 || 0x2600 <= ch as int < 0x27C0))
    ensures CellWidth(t, ch) == 0 <==> t.combining(ch) && !t.wide(ch)
  {
  }

  /** Cells that both sizes have stay, new ones are blank, and the cursor stays or moves to the nearest edge. */
  lemma {:induction false} ResizeKeeps(v: View, cols: int, rows: int)
    requires Shape(v) && cols >= 1 && rows >= 1
    ensures var u := Resize(v, cols, rows);
      GridOk(u.grid, cols, rows) && u == View(cols, rows, u.grid, u.row, u.col, v.mode, v.params) &&
      (forall r, c :: 0 <= r < rows && 0 <= c < cols ==>
        u.grid[r][c] == if r < v.rows && c < v.cols then v.grid[r][c] else " ") &&
      u.row == (if v.row < rows then v.row else rows - 1) && u.col == (if v.col < cols then v.col else cols - 1)
  {
  }
}
