/**
 The VT-100 screen model, as a state machine over characters (control sequences:
 section 5.4 of ECMA-48).

 `Step` is what one character does to the visible state. The class `Screen` of
 `Screen.dfy` is proved against `Feed`; this module proves what holds of every
 stream: the shape of the grid, when a stream raises, and how a stream may be
 cut into pieces.
 */
module Terminal {
  import opened Decimal
  import opened Strings

  /** The two Unicode tables behind `cell_width`, which are not part of this model. */
  datatype Tables = Tables(wide: char -> bool, combining: char -> bool)

  function CellWidth(t: Tables, ch: char): (w: nat)
    ensures w <= 2
  {
    if t.wide(ch) then 2
    else if t.combining(ch) then 0
    else if 0x1F300 <= ch as int <= 0x1FAFF || 0x2600 <= ch as int <= 0x27BF then 2
    else 1
  }

  const ESC: char := 0x1B as char
  const BEL: char := 0x07 as char
  const BACKSPACE: char := 0x08 as char

  /** A cell holds one character, or nothing to the right of a wide one. */
  type Cell = string

  type Grid = seq<seq<Cell>>

  datatype Mode = Text | Esc | Csi | Osc | OscEsc

  datatype View = View(cols: int, rows: int, grid: Grid, row: int, col: int, mode: Mode, params: string)

  predicate GridOk(grid: Grid, cols: int, rows: int) {
    |grid| == rows && forall r :: 0 <= r < |grid| ==> |grid[r]| == cols
  }

  /**
   The grid is exactly rows by cols and the cursor is on it, or one past a full
   row. On a screen of a single column a wide character leaves it one further.
   */
  predicate Shape(v: View) {
    v.cols >= 1 && v.rows >= 1 && GridOk(v.grid, v.cols, v.rows) && 0 <= v.row < v.rows &&
    0 <= v.col <= if v.cols == 1 then 2 else v.cols
  }

  function Min(a: int, b: int): int {
    if a < b then a else b
  }

  function Max(a: int, b: int): int {
    if a > b then a else b
  }

  function BlankRow(cols: int): seq<Cell>
    requires cols >= 0
  {
    seq(cols, _ => " ")
  }

  function BlankGrid(cols: int, rows: int): (g: Grid)
    requires cols >= 0 && rows >= 0
    ensures GridOk(g, cols, rows)
  {
    seq(rows, _ => BlankRow(cols))
  }

  function SetCell(grid: Grid, row: int, col: int, cell: Cell): (g: Grid)
    requires 0 <= row < |grid| && 0 <= col < |grid[row]|
  {
    grid[row := grid[row][col := cell]]
  }

  /** Blanks the cells `from` to `to` of one row. */
  function EraseCells(grid: Grid, row: int, from: int, to: int): Grid
    requires 0 <= row < |grid| && 0 <= from <= to <= |grid[row]|
  {
    grid[row := grid[row][..from] + BlankRow(to - from) + grid[row][to..]]
  }

  /** Blanks whole rows from `from` on. */
  function EraseBelow(grid: Grid, cols: int, from: int): Grid
    requires 0 <= from <= |grid| && cols >= 0
  {
    grid[..from] + BlankGrid(cols, |grid| - from)
  }

  // ---- printed characters -------------------------------------------------

  function Wrap(v: View, w: nat): View {
    if v.col + w > v.cols then v.(col := 0, row := Min(v.row + 1, v.rows - 1)) else v
  }

  /** Writes a character at the cursor, wrapping first when it does not fit. */
  function Put(t: Tables, v: View, ch: char): View
    requires Shape(v)
  {
    var w := CellWidth(t, ch);
    if w == 0 then v
    else
      var u := Wrap(v, w);
      var g := SetCell(u.grid, u.row, u.col, [ch]);
      var g2 := if w == 2 && u.col + 1 < u.cols then SetCell(g, u.row, u.col + 1, "") else g;
      u.(grid := g2, col := u.col + w)
  }

  // ---- control sequences --------------------------------------------------

  function Number(p: string): nat {
    if p != "" && Digits(p) then DigitsValue(p) else 0
  }

  /** The numbers of the nonempty parts. */
  function Numbers(parts: seq<string>): seq<nat> {
    if parts == [] then []
    else (if parts[0] == "" then [] else [Number(parts[0])]) + Numbers(parts[1..])
  }

  /** The arguments of a control sequence; none at all reads as a single zero. */
  function Arguments(params: string): (nums: seq<nat>)
    ensures nums != []
  {
    var body := if params != "" && params[0] == '?' then params[1..] else params;
    var nums := Numbers(Split(body, ';'));
    if nums == [] then [0] else nums
  }

  function OrOne(n: nat): nat {
    if n == 0 then 1 else n
  }

  datatype Outcome = Going(view: View) | Raised(view: View)

  /** Erasing to the start of the line indexes one past the row when a wrap is pending. */
  predicate Overruns(v: View, final: char, nums: seq<nat>)
    requires nums != []
  {
    final == 'K' && nums[0] == 1 && v.col >= v.cols
  }

  function Control(v: View, final: char, nums: seq<nat>): (o: Outcome)
    requires Shape(v) && nums != []
    ensures o.Raised? <==> Overruns(v, final, nums)
  {
    var n := nums[0];
    if final == 'H' || final == 'f' then
      var c := OrOne(if |nums| > 1 then nums[1] else 1);
      Going(v.(row := Max(0, Min(OrOne(n) - 1, v.rows - 1)), col := Max(0, Min(c - 1, v.cols - 1))))
    else if final == 'A' then Going(v.(row := Max(0, v.row - OrOne(n))))
    else if final == 'B' then Going(v.(row := Min(v.rows - 1, v.row + OrOne(n))))
    else if final == 'C' then Going(v.(col := Min(v.cols - 1, v.col + OrOne(n))))
    else if final == 'D' then Going(v.(col := Max(0, v.col - OrOne(n))))
    else if final == 'G' then Going(v.(col := Max(0, Min(OrOne(n) - 1, v.cols - 1))))
    else if final == 'd' then Going(v.(row := Max(0, Min(OrOne(n) - 1, v.rows - 1))))
    else if final == 'J' then
      if n == 2 || n == 3 then Going(v.(grid := BlankGrid(v.cols, v.rows)))
      else if n == 0 then
        Going(v.(grid := EraseBelow(EraseCells(v.grid, v.row, Min(v.col, v.cols), v.cols), v.cols, v.row + 1)))
      else Going(v)
    else if final == 'K' then
      if n == 0 then Going(v.(grid := EraseCells(v.grid, v.row, Min(v.col, v.cols), v.cols)))
      else if n == 1 then
        if v.col >= v.cols then Raised(v.(grid := EraseCells(v.grid, v.row, 0, v.cols)))
        else Going(v.(grid := EraseCells(v.grid, v.row, 0, v.col + 1)))
      else Going(v.(grid := v.grid[v.row := BlankRow(v.cols)]))
    else if final == 'S' || final == 'T' then Going(v.(grid := BlankGrid(v.cols, v.rows)))
    else Going(v)
  }

  // ---- one character ------------------------------------------------------

  function Plain(t: Tables, v: View, ch: char): View
    requires Shape(v)
  {
    if ch == ESC then v.(mode := Esc)
    else if ch == '\r' then v.(col := 0)
    else if ch == '\n' then v.(row := Min(v.row + 1, v.rows - 1))
    else if ch == BACKSPACE then v.(col := Max(0, v.col - 1))
    else if ch == '\t' then v.(col := Min(v.cols - 1, (v.col / 8 + 1) * 8))
    else if ch == BEL then v
    else Put(t, v, ch)
  }

  predicate ParamChar(ch: char) {
    '0' <= ch <= '9' || ch == ';' || ch == '?'
  }

  function Step(t: Tables, v: View, ch: char): Outcome
    requires Shape(v)
  {
    match v.mode
    case Text => Going(Plain(t, v, ch))
    case Esc =>
      if ch == '[' then Going(v.(mode := Csi, params := ""))
      else if ch == ']' then Going(v.(mode := Osc))
      else Going(v.(mode := Text))
    case Osc =>
      if ch == BEL then Going(v.(mode := Text))
      else if ch == ESC then Going(v.(mode := OscEsc))
      else Going(v)
    case OscEsc => Going(v.(mode := Text))
    case Csi =>
      if ParamChar(ch) then Going(v.(params := v.params + [ch]))
      else if ch == ESC then Going(v.(mode := Esc))
      else
        match Control(v, ch, Arguments(v.params))
        case Going(u) => Going(u.(mode := Text))
        case Raised(u) => Raised(u)
  }

  lemma SetCellKeeps(grid: Grid, cols: int, rows: int, row: int, col: int, cell: Cell)
    requires GridOk(grid, cols, rows) && 0 <= row < rows && 0 <= col < cols
    ensures GridOk(SetCell(grid, row, col, cell), cols, rows)
  {
  }

  lemma EraseCellsKeeps(grid: Grid, cols: int, rows: int, row: int, from: int, to: int)
    requires GridOk(grid, cols, rows) && 0 <= row < rows && 0 <= from <= to <= cols
    ensures GridOk(EraseCells(grid, row, from, to), cols, rows)
  {
  }

  lemma EraseBelowKeeps(grid: Grid, cols: int, rows: int, from: int)
    requires GridOk(grid, cols, rows) && 0 <= from <= rows && cols >= 0
    ensures GridOk(EraseBelow(grid, cols, from), cols, rows)
  {
  }

  lemma PutKeepsShape(t: Tables, v: View, ch: char)
    requires Shape(v)
    ensures var u := Put(t, v, ch); Shape(u) && u.cols == v.cols && u.rows == v.rows
  {
    var w := CellWidth(t, ch);
    var u := Wrap(v, w);
    if w > 0 {
      SetCellKeeps(u.grid, v.cols, v.rows, u.row, u.col, [ch]);
      if w == 2 && u.col + 1 < u.cols {
        SetCellKeeps(SetCell(u.grid, u.row, u.col, [ch]), v.cols, v.rows, u.row, u.col + 1, "");
      }
    }
  }

  lemma ControlKeepsShape(v: View, final: char, nums: seq<nat>)
    requires Shape(v) && nums != []
    ensures var u := Control(v, final, nums).view; Shape(u) && u.cols == v.cols && u.rows == v.rows
  {
    EraseCellsKeeps(v.grid, v.cols, v.rows, v.row, Min(v.col, v.cols), v.cols);
    EraseCellsKeeps(v.grid, v.cols, v.rows, v.row, 0, Min(v.col + 1, v.cols));
    EraseBelowKeeps(EraseCells(v.grid, v.row, Min(v.col, v.cols), v.cols), v.cols, v.rows, v.row + 1);
  }

  /** Every character, also one that raises, keeps the shape; nothing changes the size. */
  lemma StepKeepsShape(t: Tables, v: View, ch: char)
    requires Shape(v)
    ensures var u := Step(t, v, ch).view; Shape(u) && u.cols == v.cols && u.rows == v.rows
  {
    hide Put, Control, Arguments;
    PutKeepsShape(t, v, ch);
    ControlKeepsShape(v, ch, Arguments(v.params));
  }

  /** A character raises in exactly one situation. */
  lemma StepRaises(t: Tables, v: View, ch: char)
    requires Shape(v)
    ensures Step(t, v, ch).Raised? <==> v.mode == Csi && Overruns(v, ch, Arguments(v.params))
  {
  }

  function Run(t: Tables, v: View, text: string): (o: Outcome)
    requires Shape(v)
    ensures Shape(o.view) && o.view.cols == v.cols && o.view.rows == v.rows
    decreases |text|
  {
    if text == "" then Going(v)
    else
      StepKeepsShape(t, v, text[0]);
      match Step(t, v, text[0])
      case Raised(u) => Raised(u)
      case Going(u) => Run(t, u, text[1..])
  }

  // ---- feeding ------------------------------------------------------------

  /** A run rests right after the escape of an OSC string only when that escape was its last character. */
  lemma {:induction false} RunRests(t: Tables, v: View, text: string)
    requires Shape(v) && v.mode != OscEsc
    ensures var o := Run(t, v, text);
      (o.Going? && o.view.mode == OscEsc ==> text != "" && text[|text| - 1] == ESC) &&
      (o.Raised? ==> o.view.mode == Csi)
    decreases |text|
  {
    hide Put, Control, Arguments, Shape;
    if text != "" {
      var ch := text[0];
      StepKeepsShape(t, v, ch);
      StepMode(t, v, ch);
      var u := Step(t, v, ch).view;
      if Step(t, v, ch).Going? {
        if u.mode != OscEsc {
          RunRests(t, u, text[1..]);
        } else if |text| > 1 {
          StepKeepsShape(t, u, text[1]);
          RunRests(t, Step(t, u, text[1]).view, text[1..][1..]);
        }
      }
    }
  }

  lemma {:induction false} StepMode(t: Tables, v: View, ch: char)
    requires Shape(v)
    ensures Step(t, v, ch).Raised? ==> Step(t, v, ch).view.mode == Csi
    ensures Step(t, v, ch).Going? && Step(t, v, ch).view.mode == OscEsc ==> ch == ESC
  {
    ControlMode(v, ch, Arguments(v.params));
    hide Put, Control, Arguments, Shape;
  }

  lemma {:induction false} ControlMode(v: View, final: char, nums: seq<nat>)
    requires Shape(v) && nums != []
    ensures Control(v, final, nums).view.mode == v.mode
  {
  }

  /** The screen between two calls of `feed`. */
  datatype Term = Term(view: View, pending: string)

  predicate TermOk(s: Term) {
    Shape(s.view) && s.view.mode != OscEsc && (s.pending == "" || (s.pending == [ESC] && s.view.mode == Text))
  }

  datatype Fed = Fed(term: Term) | Failed(term: Term)

  /** What `feed` does after the loop: a trailing escape is kept for the next call. */
  function Settle(v: View, all: string): Term {
    if v.mode != Text && all != "" && all[|all| - 1] == ESC then Term(v.(mode := Text), [ESC]) else Term(v, "")
  }

  function Feed(t: Tables, s: Term, text: string): (f: Fed)
    requires TermOk(s)
    ensures TermOk(f.term)
  {
    var all := s.pending + text;
    RunRests(t, s.view, all);
    match Run(t, s.view, all)
    case Raised(v) => Failed(Term(v, ""))
    case Going(v) => Fed(Settle(v, all))
  }

  lemma {:induction false} RunConcat(t: Tables, v: View, a: string, b: string)
    requires Shape(v)
    ensures Run(t, v, a + b) ==
      match Run(t, v, a)
      case Raised(u) => Raised(u)
      case Going(u) => Run(t, u, b)
    decreases |a|
  {
    if a == "" {
      assert a + b == b;
    } else {
      assert (a + b)[1..] == a[1..] + b;
      StepKeepsShape(t, v, a[0]);
      if Step(t, v, a[0]).Going? {
        RunConcat(t, Step(t, v, a[0]).view, a[1..], b);
      }
    }
  }

  /** After an escape character the machine is in one of three modes. */
  lemma AfterEscape(t: Tables, v: View, text: string)
    requires Shape(v) && text != "" && text[|text| - 1] == ESC && Run(t, v, text).Going?
    ensures Run(t, v, text).view.mode in {Text, Esc, OscEsc}
  {
    hide Control, Put, Arguments;
    var n := |text| - 1;
    assert text == text[..n] + [ESC];
    RunConcat(t, v, text[..n], [ESC]);
    EscapeStep(t, Run(t, v, text[..n]).view);
  }

  lemma EscapeStep(t: Tables, u: View)
    requires Shape(u)
    ensures Run(t, u, [ESC]).Going? && Run(t, u, [ESC]).view.mode in {Text, Esc, OscEsc}
  {
    hide Control, Put, Arguments;
    StepKeepsShape(t, u, ESC);
    var v := Step(t, u, ESC).view;
    assert [ESC][1..] == "";
    assert Run(t, v, "") == Going(v);
  }

  /** The machine is inside an operating system command, right after its escape. */
  predicate MidOsc(t: Tables, s: Term, a: string)
    requires TermOk(s)
  {
    var o := Run(t, s.view, s.pending + a);
    o.Going? && o.view.mode == OscEsc
  }

  /** A cut that `feed` forgets about: the escape of an OSC string, then a bracket. */
  predicate BadCut(t: Tables, s: Term, a: string, b: string)
    requires TermOk(s)
  {
    MidOsc(t, s, a) && b != "" && (b[0] == '[' || b[0] == ']')
  }

  /** Feeding `b` to what feeding `a` left. */
  function FeedNext(t: Tables, f: Fed, b: string): (g: Fed)
    requires TermOk(f.term)
    ensures TermOk(g.term)
  {
    if f.Failed? then f else Feed(t, f.term, b)
  }

  /** A single cut that is not a bad one changes nothing. */
  lemma CutOnce(t: Tables, s: Term, a: string, b: string)
    requires TermOk(s) && !BadCut(t, s, a, b)
    ensures FeedNext(t, Feed(t, s, a), b) == Feed(t, s, a + b)
  {
    hide Run, Step, Shape;
    var all := s.pending + a;
    assert s.pending + (a + b) == all + b;
    RunConcat(t, s.view, all, b);
    var o := Run(t, s.view, all);
    if o.Going? {
      var v := o.view;
      RunNothing(t, v);
      if Settle(v, all).pending == "" {
        assert "" + b == b;
        LastOfConcat(all, b);
      } else {
        AfterEscape(t, s.view, all);
        KeepsShapeInMode(v, Esc);
        RunNothing(t, v.(mode := Esc));
        ReplayEscape(t, v, b);
        LastOfConcat(all, b);
        LastOfConcat([ESC], b);
      }
    }
  }

  lemma RunNothing(t: Tables, v: View)
    requires Shape(v)
    ensures Run(t, v, "") == Going(v)
  {
  }

  lemma KeepsShapeInMode(v: View, mode: Mode)
    requires Shape(v)
    ensures Shape(v.(mode := mode))
  {
  }

  lemma LastOfConcat(a: string, b: string)
    ensures b != "" ==> (a + b)[|a + b| - 1] == b[|b| - 1]
    ensures b == "" ==> a + b == a
  {
  }

  /** Replaying a saved escape in text mode restores the machine, unless it was inside an OSC string. */
  lemma ReplayEscape(t: Tables, v: View, b: string)
    requires Shape(v) && (v.mode == Esc || v.mode == OscEsc)
    ensures Run(t, v.(mode := Text), [ESC] + b) == Run(t, v.(mode := Esc), b)
    ensures v.mode == OscEsc && b != "" && b[0] != '[' && b[0] != ']' ==>
      Run(t, v.(mode := Esc), b) == Run(t, v, b)
  {
    assert ([ESC] + b)[1..] == b;
    if b != "" {
      StepKeepsShape(t, v, b[0]);
      StepKeepsShape(t, v.(mode := Esc), b[0]);
    }
  }

  lemma MidOscEndsInEscape(t: Tables, s: Term, a: string)
    requires TermOk(s) && MidOsc(t, s, a)
    ensures Feed(t, s, a).Fed? && Feed(t, s, a).term.pending == [ESC]
  {
    RunRests(t, s.view, s.pending + a);
    hide Run, Shape;
  }

  /** Inside an OSC string the next bracket tells the cut stream from the whole one. */
  lemma BadCutShows(t: Tables, s: Term, a: string, bracket: char)
    requires TermOk(s) && MidOsc(t, s, a) && (bracket == '[' || bracket == ']')
    ensures FeedNext(t, Feed(t, s, a), [bracket]) != Feed(t, s, a + [bracket])
  {
    var all := s.pending + a;
    var v := Run(t, s.view, all).view;
    MidOscEndsInEscape(t, s, a);
    assert s.pending + (a + [bracket]) == all + [bracket];
    RunConcat(t, s.view, all, [bracket]);
    ReplayEscape(t, v, [bracket]);
    StepKeepsShape(t, v, bracket);
    StepKeepsShape(t, v.(mode := Esc), bracket);
    LastOfConcat([ESC], [bracket]);
    LastOfConcat(all, [bracket]);
  }

  /**
   A stream may be cut at a place, whatever follows it, exactly when the cut is
   not between the escape of an OSC string and the next character.
   */
  lemma CutSafeExactly(t: Tables, s: Term, a: string)
    requires TermOk(s)
    ensures (forall b :: FeedNext(t, Feed(t, s, a), b) == Feed(t, s, a + b)) <==> !MidOsc(t, s, a)
  {
    if MidOsc(t, s, a) {
      BadCutShows(t, s, a, '[');
    } else {
      forall b
        ensures FeedNext(t, Feed(t, s, a), b) == Feed(t, s, a + b)
      {
        CutOnce(t, s, a, b);
      }
    }
  }

  function Concat(pieces: seq<string>): string {
    if pieces == [] then "" else Concat(pieces[..|pieces| - 1]) + pieces[|pieces| - 1]
  }

  /** Feeding the pieces one call at a time. */
  function FeedAll(t: Tables, s: Term, pieces: seq<string>): (f: Fed)
    requires TermOk(s)
    ensures TermOk(f.term)
  {
    if pieces == [] then Fed(s) else FeedNext(t, FeedAll(t, s, pieces[..|pieces| - 1]), pieces[|pieces| - 1])
  }

  predicate NoBadCut(t: Tables, s: Term, pieces: seq<string>)
    requires TermOk(s)
  {
    forall k :: 0 <= k < |pieces| ==> !BadCut(t, s, Concat(pieces[..k]), pieces[k])
  }

  /** Feeding nothing replays a kept escape and keeps it again. */
  lemma FeedNothing(t: Tables, s: Term)
    requires TermOk(s)
    ensures Feed(t, s, "") == Fed(s)
  {
    assert s.pending + "" == s.pending;
    if s.pending != "" {
      StepKeepsShape(t, s.view, ESC);
      assert [ESC][1..] == "";
      var v := s.view.(mode := Esc);
      assert Run(t, v, "") == Going(v);
      assert Run(t, s.view, [ESC]) == Going(v);
      assert v.(mode := Text) == s.view;
    }
  }

  /** Any cutting of a stream into pieces, without a bad cut, acts like the whole stream. */
  lemma {:induction false} PiecesActAsWhole(t: Tables, s: Term, pieces: seq<string>)
    requires TermOk(s) && NoBadCut(t, s, pieces)
    ensures FeedAll(t, s, pieces) == Feed(t, s, Concat(pieces))
    decreases |pieces|
  {
    if pieces == [] {
      FeedNothing(t, s);
    } else {
      var n := |pieces| - 1;
      var init := pieces[..n];
      forall k | 0 <= k < |init|
        ensures !BadCut(t, s, Concat(init[..k]), init[k])
      {
        assert init[..k] == pieces[..k];
        assert !BadCut(t, s, Concat(pieces[..k]), pieces[k]);
      }
      PiecesActAsWhole(t, s, init);
      assert !BadCut(t, s, Concat(pieces[..n]), pieces[n]);
      CutOnce(t, s, Concat(init), pieces[n]);
    }
  }

  // ---- what control sequences do to cells and cursor ----------------------

  /** The cells that a sequence blanks, by row and column. */
  predicate Erased(v: View, final: char, n: nat, r: int, c: int) {
    (final == 'J' && (n == 2 || n == 3 || (n == 0 && (r > v.row || (r == v.row && c >= v.col))))) ||
    (final == 'K' && r == v.row && (n == 0 ==> c >= v.col) && (n == 1 ==> c <= v.col)) ||
    final == 'S' || final == 'T'
  }

  predicate SameButErased(v: View, g: Grid, final: char, n: nat)
    requires Shape(v) && GridOk(g, v.cols, v.rows)
  {
    forall r, c :: 0 <= r < v.rows && 0 <= c < v.cols ==>
      g[r][c] == if Erased(v, final, n, r, c) then " " else v.grid[r][c]
  }

  /** A sequence that does not raise blanks exactly those cells. */
  lemma {:induction false} ErasesExactly(v: View, final: char, nums: seq<nat>)
    requires Shape(v) && nums != [] && !Overruns(v, final, nums)
    ensures var o := Control(v, final, nums);
      o.Going? && GridOk(o.view.grid, v.cols, v.rows) && SameButErased(v, o.view.grid, final, nums[0])
  {
    ControlKeepsShape(v, final, nums);
    var g := Control(v, final, nums).view.grid;
    if final != 'J' && final != 'K' && final != 'S' && final != 'T' {
      assert g == v.grid;
    }
  }

  /** One move down and as many up, or right and left, returns to the place when neither hits an edge. */
  lemma {:induction false} MovesUndo(v: View, n: nat)
    requires Shape(v) && n >= 1
    ensures v.row + n < v.rows ==>
      Control(Control(v, 'B', [n]).view, 'A', [n]) == Going(v) && Control(v, 'B', [n]).view.row == v.row + n
    ensures v.col + n < v.cols ==>
      Control(Control(v, 'C', [n]).view, 'D', [n]) == Going(v) && Control(v, 'C', [n]).view.col == v.col + n
  {
    ControlKeepsShape(v, 'B', [n]);
    ControlKeepsShape(v, 'C', [n]);
  }

  /** Moves in one direction add up, also at the edge. */
  lemma {:induction false} MovesAdd(v: View, final: char, m: nat, n: nat)
    requires Shape(v) && m >= 1 && n >= 1 && final in "ABCD"
    ensures Control(Control(v, final, [m]).view, final, [n]) == Control(v, final, [m + n])
  {
    ControlKeepsShape(v, final, [m]);
  }

  /** The absolute move is the row move and the column move together, in either order. */
  lemma {:induction false} AbsoluteIsBoth(v: View, row: nat, col: nat)
    requires Shape(v)
    ensures Control(v, 'H', [row, col]) == Control(Control(v, 'd', [row]).view, 'G', [col])
    ensures Control(v, 'H', [row, col]) == Control(Control(v, 'G', [col]).view, 'd', [row])
  {
    ControlKeepsShape(v, 'd', [row]);
    ControlKeepsShape(v, 'G', [col]);
  }

  // ---- resizing -----------------------------------------------------------

  /** Keeps the cells that both sizes have and brings the cursor back inside. */
  function Resize(v: View, cols: int, rows: int): View
    requires Shape(v) && cols >= 1 && rows >= 1
  {
    var grid := seq(rows, r requires 0 <= r < rows =>
      seq(cols, c requires 0 <= c < cols => if r < v.rows && c < v.cols then v.grid[r][c] else " "));
    v.(cols := cols, rows := rows, grid := grid, row := Min(v.row, rows - 1), col := Min(v.col, cols - 1))
  }

  lemma ResizeKeepsShape(v: View, cols: int, rows: int)
    requires Shape(v) && cols >= 1 && rows >= 1
    ensures Shape(Resize(v, cols, rows)) && Resize(v, cols, rows).col < cols
  {
  }

  /** Growing and shrinking back loses no cell, and no cursor that was not pending a wrap. */
  lemma {:induction false} ResizeUndoes(v: View, cols: int, rows: int)
    requires Shape(v) && cols >= v.cols && rows >= v.rows
    ensures Shape(Resize(v, cols, rows))
    ensures var back := Resize(Resize(v, cols, rows), v.cols, v.rows);
      back.grid == v.grid && back.row == v.row && (v.col < v.cols ==> back == v)
  {
    ResizeKeepsShape(v, cols, rows);
    var back := Resize(Resize(v, cols, rows), v.cols, v.rows);
    forall r | 0 <= r < v.rows
      ensures back.grid[r] == v.grid[r]
    {
    }
  }

  datatype Event = Input(text: string) | NewSize(cols: int, rows: int)

  predicate Sensible(events: seq<Event>) {
    forall i :: 0 <= i < |events| ==> (events[i].NewSize? ==> events[i].cols >= 1 && events[i].rows >= 1)
  }

  /** Feeds and resizes in any order; a feed that raises leaves the state it had reached. */
  function Session(t: Tables, s: Term, events: seq<Event>): (r: Term)
    requires TermOk(s) && Sensible(events)
    ensures TermOk(r)
    decreases |events|
  {
    if events == [] then s
    else
      var next := match events[0]
        case Input(text) => Feed(t, s, text).term
        case NewSize(cols, rows) => s.(view := Resize(s.view, cols, rows));
      assert forall i :: 0 <= i < |events[1..]| ==> events[1..][i] == events[i + 1];
      Session(t, next, events[1..])
  }

  /** A character keeps the cursor at most one past the row, except a wide one on a single column. */
  lemma {:induction false} PutStaysExactly(t: Tables, v: View, ch: char)
    requires Shape(v) && v.col <= v.cols
    ensures Put(t, v, ch).col <= v.cols <==> v.cols >= 2 || CellWidth(t, ch) < 2
  {
  }

  // ---- what a frame shows -------------------------------------------------

  /** Characters without a control function; they may be wide, or combine with what stands before them. */
  predicate Printed(text: string) {
    forall i :: 0 <= i < |text| ==> text[i] !in [ESC, '\r', '\n', BACKSPACE, '\t', BEL]
  }

  /** The cells that one character fills. */
  function CellsOf(t: Tables, ch: char): (cells: seq<Cell>)
    ensures |cells| == CellWidth(t, ch)
  {
    var w := CellWidth(t, ch);
    if w == 0 then [] else if w == 1 then [[ch]] else [[ch], ""]
  }

  function Cells(t: Tables, text: string): seq<Cell> {
    if text == "" then [] else CellsOf(t, text[0]) + Cells(t, text[1..])
  }

  function Shown(row: seq<Cell>, col: int, cells: seq<Cell>): seq<Cell>
    requires 0 <= col && col + |cells| <= |row|
  {
    row[..col] + cells + row[col + |cells|..]
  }

  lemma {:induction false} ShownCell(row: seq<Cell>, col: int, cell: Cell)
    requires 0 <= col < |row|
    ensures Shown(row, col, [cell]) == row[col := cell]
  {
  }

  lemma {:induction false} ShownTwice(row: seq<Cell>, col: int, a: seq<Cell>, b: seq<Cell>)
    requires 0 <= col && col + |a| + |b| <= |row|
    ensures Shown(Shown(row, col, a), col + |a|, b) == Shown(row, col, a + b)
  {
  }

  lemma {:induction false} ShownNothing(row: seq<Cell>, col: int)
    requires 0 <= col <= |row|
    ensures Shown(row, col, []) == row
  {
  }

  /** Putting a character that fits fills its cells at the cursor. */
  lemma {:induction false} PutAt(t: Tables, v: View, ch: char)
    requires Shape(v) && v.col + CellWidth(t, ch) <= v.cols
    ensures Put(t, v, ch) ==
      v.(grid := v.grid[v.row := Shown(v.grid[v.row], v.col, CellsOf(t, ch))], col := v.col + CellWidth(t, ch))
  {
    var w, row := CellWidth(t, ch), v.grid[v.row];
    if w == 0 {
      ShownNothing(row, v.col);
      assert v.grid[v.row := row] == v.grid;
    } else if w == 1 {
      ShownCell(row, v.col, [ch]);
    } else {
      ShownCell(row, v.col, [ch]);
      ShownCell(row[v.col := [ch]], v.col + 1, "");
      ShownTwice(row, v.col, [[ch]], [""]);
      assert [[ch]] + [""] == CellsOf(t, ch);
      hide Shown;
      assert v.grid[v.row := row[v.col := [ch]]][v.row := row[v.col := [ch]][v.col + 1 := ""]] ==
        v.grid[v.row := row[v.col := [ch]][v.col + 1 := ""]];
    }
  }

  lemma {:induction false} PrintedStep(t: Tables, v: View, ch: char)
    requires Shape(v) && v.mode == Text && Printed([ch])
    ensures Step(t, v, ch) == Going(Put(t, v, ch))
  {
    assert [ch][0] == ch;
  }

  /** Text that fits on the line, wide characters and all, appears at the cursor, and no other cell changes. */
  lemma {:induction false} PrintShows(t: Tables, v: View, text: string)
    requires Shape(v) && v.mode == Text && Printed(text) && v.col + |Cells(t, text)| <= v.cols
    ensures Run(t, v, text) ==
      Going(v.(grid := v.grid[v.row := Shown(v.grid[v.row], v.col, Cells(t, text))],
               col := v.col + |Cells(t, text)|))
    decreases |text|
  {
    hide Step, CellWidth, Put;
    var row := v.grid[v.row];
    if text == "" {
      ShownNothing(row, v.col);
      assert v.grid[v.row := row] == v.grid;
    } else {
      var ch, rest := text[0], text[1..];
      assert Printed([ch]) && Printed(rest);
      assert Cells(t, text) == CellsOf(t, ch) + Cells(t, rest);
      PrintedStep(t, v, ch);
      PutAt(t, v, ch);
      StepKeepsShape(t, v, ch);
      var u := Step(t, v, ch).view;
      PrintShows(t, u, rest);
      ShownTwice(row, v.col, CellsOf(t, ch), Cells(t, rest));
      hide Shown, Cells, CellsOf, Printed;
      assert u.grid[v.row := Shown(u.grid[v.row], u.col, Cells(t, rest))] ==
        v.grid[v.row := Shown(row, v.col, Cells(t, text))];
    }
  }

  /**
   A character that does not fit starts the line below; on the last line it
   starts that line again. A single column has no cell for the second half of a
   wide one.
   */
  lemma {:induction false} WrapsToNextLine(t: Tables, v: View, ch: char)
    requires Shape(v) && v.mode == Text && Printed([ch])
    requires 1 <= CellWidth(t, ch) && v.cols < v.col + CellWidth(t, ch)
    ensures var row := Min(v.row + 1, v.rows - 1);
      var cells := CellsOf(t, ch)[..Min(CellWidth(t, ch), v.cols)];
      Step(t, v, ch) ==
      Going(v.(grid := v.grid[row := Shown(v.grid[row], 0, cells)], row := row, col := CellWidth(t, ch)))
  {
    var w := CellWidth(t, ch);
    var u := v.(row := Min(v.row + 1, v.rows - 1), col := 0);
    PrintedStep(t, v, ch);
    if w <= v.cols {
      PutAt(t, u, ch);
      assert CellsOf(t, ch)[..w] == CellsOf(t, ch);
      assert Put(t, v, ch) == Put(t, u, ch);
    } else {
      ShownCell(v.grid[u.row], 0, [ch]);
      assert CellsOf(t, ch)[..1] == [[ch]];
    }
  }

  /** A decimal number is one argument, up to the separator. */
  lemma SplitAtSemicolon(a: string, b: string)
    requires Digits(a)
    ensures Split(a, ';') == [a]
    ensures Split(a + ";" + b, ';') == [a] + Split(b, ';')
  {
    forall i | 0 <= i < |a|
      ensures a[i] != ';'
    {
    }
    SplitWhole(a, ';');
    SplitConcat(a, ';', b);
  }

  lemma TwoArguments(row: nat, col: nat)
    ensures Arguments(NatText(row) + ";" + NatText(col)) == [row, col]
  {
    var r, c := NatText(row), NatText(col);
    NatTextValue(row);
    NatTextValue(col);
    SplitAtSemicolon(r, c);
    SplitAtSemicolon(c, "");
    var params := r + ";" + c;
    assert params[0] == r[0] && Digit(r[0]);
    assert Split(params, ';') == [r, c];
    assert [r, c][1..] == [c] && [c][1..] == [];
    assert Numbers([c]) == [col];
  }

  lemma {:induction false} ParamsCollect(t: Tables, v: View, params: string)
    requires Shape(v) && v.mode == Csi && forall i :: 0 <= i < |params| ==> ParamChar(params[i])
    ensures Run(t, v, params) == Going(v.(params := v.params + params))
    decreases |params|
  {
    if params == "" {
      assert v.params + params == v.params;
    } else {
      StepKeepsShape(t, v, params[0]);
      var u := v.(params := v.params + [params[0]]);
      ParamsCollect(t, u, params[1..]);
      assert u.params + params[1..] == v.params + params;
    }
  }

  function MoveTo(row: nat, col: nat): string {
    [ESC, '['] + (NatText(row) + ";" + NatText(col) + "H")
  }

  lemma OpensControl(t: Tables, v: View)
    requires Shape(v) && v.mode == Text
    ensures Run(t, v, [ESC, '[']) == Going(v.(mode := Csi, params := ""))
  {
    var open := [ESC, '['];
    var v1 := v.(mode := Csi, params := "");
    assert open[1..] == ['['] && open[1..][1..] == "";
    StepKeepsShape(t, v, ESC);
    StepKeepsShape(t, v.(mode := Esc), '[');
    assert Run(t, v1, "") == Going(v1);
    assert Run(t, v.(mode := Esc), ['[']) == Going(v1);
  }

  /** The absolute cursor move reaches every cell of the screen. */
  lemma MoveReaches(t: Tables, v: View, row: nat, col: nat)
    requires Shape(v) && v.mode == Text && 1 <= row <= v.rows && 1 <= col <= v.cols
    ensures Run(t, v, MoveTo(row, col)) ==
      Going(v.(row := row - 1, col := col - 1, params := NatText(row) + ";" + NatText(col)))
  {
    var params := NatText(row) + ";" + NatText(col);
    var v1 := v.(mode := Csi, params := "");
    OpensControl(t, v);
    RunConcat(t, v, [ESC, '['], params + "H");
    ParamsCollect(t, v1, params);
    assert "" + params == params;
    RunConcat(t, v1, params, "H");
    TwoArguments(row, col);
    StepKeepsShape(t, v1.(params := params), 'H');
    assert "H"[1..] == "";
  }

  /**
   What a frame does: moving to a cell and printing text that fits there shows
   exactly that text there, and leaves every other cell as it was.
   */
  lemma MoveAndPrint(t: Tables, v: View, row: nat, col: nat, text: string)
    requires Shape(v) && v.mode == Text && 1 <= row <= v.rows && 1 <= col <= v.cols
    requires Printed(text) && col - 1 + |Cells(t, text)| <= v.cols
    ensures var f := Feed(t, Term(v, ""), MoveTo(row, col) + text);
      f.Fed? && f.term.pending == "" && f.term.view.mode == Text &&
      f.term.view.grid == v.grid[row - 1 := Shown(v.grid[row - 1], col - 1, Cells(t, text))] &&
      f.term.view.row == row - 1 && f.term.view.col == col - 1 + |Cells(t, text)|
  {
    MoveReaches(t, v, row, col);
    RunConcat(t, v, MoveTo(row, col), text);
    PrintShows(t, Run(t, v, MoveTo(row, col)).view, text);
    assert "" + (MoveTo(row, col) + text) == MoveTo(row, col) + text;
    hide Run, MoveTo, Shown, Cells;
  }

  /** A new screen reaches the one situation that raises: a line filled to its end, then an erase to its start. */
  lemma {:induction false} FreshScreenRaises(t: Tables, cols: int, rows: int, text: string)
    requires cols >= 1 && rows >= 1 && Printed(text) && |Cells(t, text)| == cols
    ensures var s := Term(View(cols, rows, BlankGrid(cols, rows), 0, 0, Text, ""), "");
      TermOk(s) && Feed(t, s, text + ([ESC, '['] + "1K")).Failed?
  {
    var v := View(cols, rows, BlankGrid(cols, rows), 0, 0, Text, "");
    var erase := [ESC, '['] + "1K";
    PrintShows(t, v, text);
    var u := Run(t, v, text).view;
    assert Shape(u) && u.mode == Text && u.col == cols == u.cols;
    RunConcat(t, v, text, erase);
    RunConcat(t, u, [ESC, '['], "1K");
    OpensControl(t, u);
    EraseRaises(t, u.(mode := Csi, params := ""));
    assert "" + (text + erase) == text + erase;
    hide Run, Cells, Shown;
  }

  lemma {:induction false} EraseRaises(t: Tables, v: View)
    requires Shape(v) && v.mode == Csi && v.params == "" && v.col >= v.cols
    ensures Run(t, v, "1K").Raised?
  {
    var u := v.(params := "1");
    assert "1K"[1..] == "K" && "1K"[0] == '1' && "" + "1" == "1";
    StepKeepsShape(t, v, '1');
    assert Step(t, v, '1') == Going(u);
    SplitWhole("1", ';');
    assert ["1"][1..] == [] && "1"[..0] == "";
    assert DigitsValue("1") == 1;
    assert Numbers(["1"]) == [1];
    assert Arguments("1") == [1];
    StepRaises(t, u, 'K');
  }
}
