/** The serializer as it runs: the handler's fields, its steps per cell and row, and its loops. */
module SerializeHandler {
  import opened Terminal
  import opened Serialize
  import opened SerializeStyle
  import opened SerializeRow
  import opened SerializeReplay

  class StringSerializeHandler {
    const job: Job
    var allRows: array<string>
    var allRowSeparators: array<string>
    var rowIndex: nat
    var currentRow: string
    var nullCellCount: nat
    var cursorStyle: Cell
    var lastContentCursorRow: nat

    ghost function State(): Writer
      reads this
    {
      Writer(currentRow, nullCellCount, cursorStyle, lastContentCursorRow)
    }

    /** The rows stored so far, when the next is row k. */
    ghost predicate Stored(k: nat)
      reads this, allRows, allRowSeparators
    {
      && job.Valid() && job.first <= k <= job.last + 1 && rowIndex == k - job.first
      && allRows != allRowSeparators
      && allRows.Length == allRowSeparators.Length == job.last - job.first + 1
      && (forall i :: 0 <= i < rowIndex ==> allRows[i] == job.RowText(job.first + i))
      && (forall i :: 0 <= i < rowIndex ==> allRowSeparators[i] == job.Separator(job.first + i))
    }

    /** _beforeSerialize */
    constructor (job: Job)
      requires job.Valid()
      ensures this.job == job && fresh(allRows) && fresh(allRowSeparators)
      ensures Stored(job.first) && State() == job.Before(job.first)
    {
      this.job := job;
      allRows := new string[job.last - job.first + 1](_ => "");
      allRowSeparators := new string[job.last - job.first + 1](_ => "");
      rowIndex := 0;
      currentRow := "";
      nullCellCount := 0;
      cursorStyle := job.nul;
      lastContentCursorRow := job.first;
    }

    method FlushBlanks()
      modifies this`currentRow, this`nullCellCount
      ensures currentRow == old(currentRow) + Spaces(old(nullCellCount)) && nullCellCount == 0
    {
      if nullCellCount > 0 {
        currentRow := currentRow + Spaces(nullCellCount);
        nullCellCount := 0;
      }
    }

    /** _nextCell */
    method NextCell(c: Cell, row: nat)
      modifies this`currentRow, this`nullCellCount, this`cursorStyle, this`lastContentCursorRow
      ensures State() == Serialize.NextCell(job.nul, old(State()), c, row)
    {
      if c.width == 0 {
        return;
      }
      var sgr := DiffStyle(job.nul, c, cursorStyle);
      if sgr != [] {
        FlushBlanks();
        lastContentCursorRow := row;
        currentRow := currentRow + Control(sgr, 'm');
        cursorStyle := c;
      }
      if IsEmptyCell(c) {
        nullCellCount := nullCellCount + c.width;
      } else {
        FlushBlanks();
        currentRow := currentRow + c.chars;
        lastContentCursorRow := row;
      }
    }

    /** _rowEnd */
    method RowEnd(row: nat)
      requires Stored(row) && row <= job.last && State() == job.After(row)
      modifies this`currentRow, this`nullCellCount, this`rowIndex, allRows, allRowSeparators
      ensures Stored(row + 1) && (row < job.last ==> State() == job.Before(row + 1))
      ensures cursorStyle == old(cursorStyle) && lastContentCursorRow == old(lastContentCursorRow)
    {
      var wrapped := row < job.last && job.lines[row + 1].isWrapped;
      if nullCellCount > 0 && wrapped {
        currentRow := currentRow + Spaces(nullCellCount);
      }
      assert currentRow == job.RowText(row);
      allRows[rowIndex] := currentRow;
      allRowSeparators[rowIndex] := if row < job.last && !wrapped then "\r\n" else "";
      rowIndex := rowIndex + 1;
      currentRow := "";
      nullCellCount := 0;
    }

    /** One row's column loop. */
    method Row(row: nat)
      requires job.Valid() && job.first <= row <= job.last && State() == job.Before(row)
      modifies this`currentRow, this`nullCellCount, this`cursorStyle, this`lastContentCursorRow
      ensures State() == job.After(row)
    {
      var cells := job.lines[row].cells;
      for col := 0 to |cells|
        invariant State() == Cells(job.nul, cells, col, job.Before(row), row)
      {
        NextCell(cells[col], row);
      }
    }

    /** serialize's row loop. */
    method Rows()
      requires Stored(job.first) && State() == job.Before(job.first)
      modifies this`currentRow, this`nullCellCount, this`cursorStyle, this`lastContentCursorRow, this`rowIndex
      modifies allRows, allRowSeparators
      ensures Stored(job.last + 1)
      ensures cursorStyle == job.After(job.last).style && lastContentCursorRow == job.After(job.last).content
    {
      for row := job.first to job.last + 1
        invariant Stored(row)
        invariant row <= job.last ==> State() == job.Before(row)
        invariant row > job.last ==> cursorStyle == job.After(job.last).style && lastContentCursorRow == job.After(job.last).content
      {
        Row(row);
        RowEnd(row);
      }
    }

    /** How many rows _serializeString keeps. */
    method KeptRows(terminalRows: nat) returns (rowEnd: nat)
      requires Stored(job.last + 1) && lastContentCursorRow == job.After(job.last).content
      ensures 0 < rowEnd <= allRows.Length && job.Content(terminalRows) == job.Through(job.first + rowEnd - 1)
    {
      RowsLeftOff(job, job.last);
      rowEnd := allRows.Length;
      if |job.lines| - job.first <= terminalRows {
        rowEnd := lastContentCursorRow + 1 - job.first;
      }
    }

    /** The next row joined, with its separator unless it is the last one kept. */
    method Joined(before: string, i: nat, isLast: bool) returns (content: string)
      requires Stored(job.last + 1) && i < allRows.Length && (!isLast ==> i + 1 < allRows.Length)
      requires before == job.Upto(job.first + i)
      ensures content == if isLast then job.Through(job.first + i) else job.Upto(job.first + i + 1)
    {
      content := before + allRows[i];
      if !isLast {
        content := content + allRowSeparators[i];
      }
    }

    /** The rows kept by _serializeString, joined. */
    method JoinRows(terminalRows: nat) returns (content: string)
      requires Stored(job.last + 1) && lastContentCursorRow == job.After(job.last).content
      ensures content == job.Content(terminalRows)
    {
      var rowEnd := KeptRows(terminalRows);
      content := "";
      for i := 0 to rowEnd
        invariant i < rowEnd ==> content == job.Upto(job.first + i)
        invariant i == rowEnd ==> content == job.Through(job.first + rowEnd - 1)
      {
        content := Joined(content, i, i + 1 == rowEnd);
      }
    }

    /** serialize, with the cursor at row `row` of the buffer and column `x`. */
    method SerializeAll(terminalRows: nat, excludeFinalCursorPosition: bool, row: nat, x: nat) returns (content: string)
      requires Stored(job.first) && State() == job.Before(job.first)
      modifies this`currentRow, this`nullCellCount, this`cursorStyle, this`lastContentCursorRow, this`rowIndex
      modifies allRows, allRowSeparators
      ensures content == if excludeFinalCursorPosition then job.Content(terminalRows) else job.Output(terminalRows, row, x)
    {
      Rows();
      content := JoinRows(terminalRows);
      if excludeFinalCursorPosition {
        return;
      }
      var cursorRow := if row >= job.first then row - job.first + 1 else 1;
      content := content + Control([cursorRow, x + 1], 'H');
      var sgr := DiffStyle(job.nul, job.CursorCell(row, x), cursorStyle);
      if sgr != [] {
        content := content + Control(sgr, 'm');
      }
    }
  }

  // ---- buffers that are not rebuilt ----

  function Rgb(code: nat, chars: string, bg: nat): Cell {
    Cell(code, chars, 1, -1, 0xCCCCCC, -1, bg, NO_FLAGS)
  }

  /** "a", continued by an erased row, then another cell, on a terminal of one column. */
  function ErasedContinuation(below: Cell): Job {
    Job([Line([Rgb(97, "a", 0)], false), Line([Rgb(0, "", 0)], true), Line([below], false)], Rgb(0, "", 0), 0, 2)
  }

  /** The serializer rebuilds it for no cell that is filled: a "b", or a space on red, ends up one line too high. */
  lemma ErasedContinuationMovesRows(t: Profile, rows: nat, below: Cell)
    requires t.cols == 1 && t.fg == Colour.Rgb(0xCCCCCC) && t.bg == Colour.Rgb(0)
    requires t.columns(' ') == 1 && t.columns('a') == 1 && t.columns('b') == 1
    requires below == Rgb(98, "b", 0) || below == Rgb(32, " ", 0xFF0000)
    ensures Serializable(t, false, ErasedContinuation(below))
    ensures !InPlace(t, ErasedContinuation(below), Feed(t, Start(t), ErasedContinuation(below).Content(rows)).screen)
  {
    var job := ErasedContinuation(below);
    assert Swallows(job, 1);
    assert SwallowsAbove(job, 2) && IsFilled(job, 2, 0);
    InPlaceExactly(t, false, job, rows);
  }
}
