/** The screen object: fields overwritten in place, proved against `Terminal`. */
module Screen {
  import opened Terminal

  class VtScreen {
    const tables: Tables
    var cols: int
    var rows: int
    var grid: Grid
    var row: int
    var col: int
    var pending: string
    var state: Mode
    var params: string

    ghost function Now(): View
      reads this
    {
      View(cols, rows, grid, row, col, state, params)
    }

    ghost predicate Valid()
      reads this
    {
      TermOk(Term(Now(), pending))
    }

    constructor (tables: Tables, cols: int, rows: int)
      requires cols >= 1 && rows >= 1
      ensures Valid() && this.tables == tables
      ensures Now() == View(cols, rows, BlankGrid(cols, rows), 0, 0, Text, "") && pending == ""
    {
      this.tables := tables;
      this.cols, this.rows := cols, rows;
      grid := BlankGrid(cols, rows);
      row, col := 0, 0;
      pending := "";
      state := Text;
      params := "";
    }

    method ResizeTo(newCols: int, newRows: int)
      requires Valid() && newCols >= 1 && newRows >= 1
      modifies this
      ensures Valid() && Now() == Resize(old(Now()), newCols, newRows) && pending == old(pending)
    {
      var target := BlankGrid(newCols, newRows);
      for r := 0 to Min(newRows, rows)
        invariant GridOk(target, newCols, newRows)
        invariant forall i, j :: 0 <= i < newRows && 0 <= j < newCols ==>
          target[i][j] == if i < r && i < rows && j < cols then grid[i][j] else " "
        invariant Now() == old(Now()) && pending == old(pending)
      {
        for c := 0 to Min(newCols, cols)
          invariant GridOk(target, newCols, newRows)
          invariant forall i, j :: 0 <= i < newRows && 0 <= j < newCols ==>
            target[i][j] == if (i < r || (i == r && j < c)) && i < rows && j < cols then grid[i][j] else " "
          invariant Now() == old(Now()) && pending == old(pending)
        {
          target := SetCell(target, r, c, grid[r][c]);
        }
      }
      cols, rows, grid := newCols, newRows, target;
      row := Min(row, newRows - 1);
      col := Min(col, newCols - 1);
      assert grid == Resize(old(Now()), newCols, newRows).grid by {
        SameGrid(grid, Resize(old(Now()), newCols, newRows).grid, newCols, newRows);
      }
    }

    method PutChar(ch: char)
      requires Shape(Now())
      modifies this`grid, this`row, this`col
      ensures Now() == Put(tables, old(Now()), ch)
    {
      var w := CellWidth(tables, ch);
      if w == 0 {
        return;
      }
      if col + w > cols {
        col := 0;
        row := Min(row + 1, rows - 1);
      }
      if 0 <= row < rows && 0 <= col < cols {
        ghost var first, line, at := SetCell(grid, row, col, [ch]), row, col;
        SetCellKeeps(grid, cols, rows, row, col, [ch]);
        grid := SetCell(grid, row, col, [ch]);
        for k := 1 to w
          invariant row == line && col == at
          invariant GridOk(grid, cols, rows)
          invariant grid == if k == 1 || at + 1 >= cols then first else SetCell(first, line, at + 1, "")
        {
          if col + k < cols {
            grid := SetCell(grid, row, col + k, "");
          }
        }
      }
      col := col + w;
    }

    /** Blanks cells of the current row one by one. */
    method Blank(from: int, to: int)
      requires Shape(Now()) && 0 <= from <= to <= cols
      modifies this`grid
      ensures grid == EraseCells(old(grid), row, from, to)
    {
      assert EraseCells(grid, row, from, from) == grid by {
        assert EraseCells(grid, row, from, from)[row] == grid[row];
      }
      for c := from to to
        invariant grid == EraseCells(old(grid), row, from, c)
        invariant Shape(Now())
      {
        grid := SetCell(grid, row, c, " ");
        EraseOneMore(old(grid), row, from, c);
      }
    }

    method BlankBelow()
      requires Shape(Now())
      modifies this`grid
      ensures grid == EraseBelow(old(grid), cols, row + 1)
    {
      for r := row + 1 to rows
        invariant |grid| == rows
        invariant forall i :: 0 <= i < rows ==> grid[i] == if row < i < r then BlankRow(cols) else old(grid)[i]
      {
        grid := grid[r := BlankRow(cols)];
      }
    }

    /** Carries out a control sequence; `raised` is the source's index error. */
    method ControlSequence(final: char, body: string) returns (raised: bool)
      requires Shape(Now())
      modifies this`grid, this`row, this`col
      ensures Control(old(Now()), final, Arguments(body)) == if raised then Raised(Now()) else Going(Now())
    {
      var nums := Arguments(body);
      var n := nums[0];
      raised := false;
      if final == 'H' || final == 'f' {
        var r := OrOne(n) - 1;
        var c := OrOne(if |nums| > 1 then nums[1] else 1);
        row := Max(0, Min(r, rows - 1));
        col := Max(0, Min(c - 1, cols - 1));
      } else if final == 'A' {
        row := Max(0, row - OrOne(n));
      } else if final == 'B' {
        row := Min(rows - 1, row + OrOne(n));
      } else if final == 'C' {
        col := Min(cols - 1, col + OrOne(n));
      } else if final == 'D' {
        col := Max(0, col - OrOne(n));
      } else if final == 'G' {
        col := Max(0, Min(OrOne(n) - 1, cols - 1));
      } else if final == 'd' {
        row := Max(0, Min(OrOne(n) - 1, rows - 1));
      } else if final == 'J' {
        if n == 2 || n == 3 {
          grid := BlankGrid(cols, rows);
        } else if n == 0 {
          Blank(Min(col, cols), cols);
          EraseCellsKeeps(old(grid), cols, rows, row, Min(col, cols), cols);
          BlankBelow();
        }
      } else if final == 'K' {
        if n == 0 {
          Blank(Min(col, cols), cols);
        } else if n == 1 {
          Blank(0, Min(col + 1, cols));
          raised := col >= cols;
        } else {
          grid := grid[row := BlankRow(cols)];
        }
      } else if final == 'S' || final == 'T' {
        grid := BlankGrid(cols, rows);
      }
    }

    /** One pass of the loop in `feed`. */
    method Consume(ch: char) returns (raised: bool)
      requires Shape(Now())
      modifies this`grid, this`row, this`col, this`state, this`params
      ensures Step(tables, old(Now()), ch) == if raised then Raised(Now()) else Going(Now())
    {
      raised := false;
      match state
      case Text =>
        if ch == ESC {
          state := Esc;
        } else if ch == '\r' {
          col := 0;
        } else if ch == '\n' {
          row := Min(row + 1, rows - 1);
        } else if ch == BACKSPACE {
          col := Max(0, col - 1);
        } else if ch == '\t' {
          col := Min(cols - 1, (col / 8 + 1) * 8);
        } else if ch == BEL {
        } else {
          PutChar(ch);
        }
      case Esc =>
        if ch == '[' {
          state := Csi;
          params := "";
        } else if ch == ']' {
          state := Osc;
        } else {
          state := Text;
        }
      case Osc =>
        if ch == BEL {
          state := Text;
        } else if ch == ESC {
          state := OscEsc;
        }
      case OscEsc => state := Text;
      case Csi =>
        if ParamChar(ch) {
          params := params + [ch];
        } else if ch == ESC {
          state := Esc;
        } else {
          raised := ControlSequence(ch, params);
          if !raised {
            state := Text;
          }
        }
    }

    method FeedText(input: string) returns (raised: bool)
      requires Valid()
      modifies this
      ensures Valid()
      ensures Feed(tables, Term(old(Now()), old(pending)), input)
        == if raised then Failed(Term(Now(), pending)) else Fed(Term(Now(), pending))
    {
      var text := pending + input;
      RunRests(tables, Now(), text);
      pending := "";
      var i := 0;
      while i < |text|
        invariant i <= |text| && pending == "" && Shape(Now())
        invariant Run(tables, old(Now()), text) == Run(tables, Now(), text[i..])
      {
        StepKeepsShape(tables, Now(), text[i]);
        ghost var before := Now();
        assert text[i..][1..] == text[i + 1..];
        raised := Consume(text[i]);
        if raised {
          return;
        }
        i := i + 1;
      }
      raised := false;
      if state != Text && |text| > 0 && text[|text| - 1] == ESC {
        state := Text;
        pending := [ESC];
      }
    }
  }

  lemma SameGrid(a: Grid, b: Grid, cols: int, rows: int)
    requires GridOk(a, cols, rows) && GridOk(b, cols, rows)
    requires forall i, j :: 0 <= i < rows && 0 <= j < cols ==> a[i][j] == b[i][j]
    ensures a == b
  {
    forall i | 0 <= i < rows
      ensures a[i] == b[i]
    {
    }
  }

  lemma EraseOneMore(grid: Grid, row: int, from: int, to: int)
    requires 0 <= row < |grid| && 0 <= from <= to < |grid[row]|
    ensures SetCell(EraseCells(grid, row, from, to), row, to, " ") == EraseCells(grid, row, from, to + 1)
  {
    assert EraseCells(grid, row, from, to)[row][to := " "] == EraseCells(grid, row, from, to + 1)[row];
  }
}
