/** Replaying one row of the serializer's output draws that row. */
module SerializeRow {
  import opened Terminal
  import opened Serialize
  import opened SerializeStyle

  // ---- what a row looks like ----

  /** A cell a terminal of this profile can hold, with a style the serializer can express. */
  predicate IsCell(t: Profile, nul: Cell, faint: bool, c: Cell) {
    && c.width <= 2 && IsPlain(t, nul, faint, c)
    && (c.width > 0 && !IsEmptyCell(c) ==> IsCellText(t, c.chars, c.width))
  }

  /** Full rows; a cell of no width stands exactly after each wide one. */
  ghost predicate IsRow(t: Profile, nul: Cell, faint: bool, cells: seq<Cell>) {
    && |cells| == t.cols && cells[0].width != 0 && cells[t.cols - 1].width != 2
    && (forall j :: 0 <= j < |cells| ==> IsCell(t, nul, faint, cells[j]))
    && (forall j :: 0 < j < |cells| ==> (cells[j].width == 0 <==> cells[j - 1].width == 2))
  }

  /** The cell a column belongs to. */
  function Owner(cells: seq<Cell>, j: nat): (c: Cell)
    requires j < |cells|
  {
    if cells[j].width == 0 && j > 0 then cells[j - 1] else cells[j]
  }

  /** What is seen in a column: the second column of a wide character shows nothing of its own. */
  function Image(t: Profile, cells: seq<Cell>, j: nat): Glyph
    requires j < |cells|
  {
    var c := Owner(cells, j);
    Glyph(if IsEmptyCell(c) then " " else if cells[j].width == 0 then "" else c.chars, PenOf(t, c))
  }

  /** The columns taken by the first j cells. */
  function Reach(cells: seq<Cell>, j: nat): nat
    requires j <= |cells|
  {
    if j > 0 && cells[j - 1].width == 2 then j + 1 else j
  }

  // ---- the state after drawing part of a row ----

  /** From state s, columns 0 to n - 1 of line r have been drawn with the row's images. */
  ghost predicate Drawn(t: Profile, cells: seq<Cell>, s: State, e: State, r: nat, n: nat) {
    && e.mode.Ground? && n <= |cells|
    && (if n == 0 then e.row == s.row && e.x == s.x else e.row == r && e.x == n)
    && (forall p: Place :: p in e.screen <==> p in s.screen || (p.row == r && p.col < n))
    && (forall p: Place :: p in e.screen ==>
          e.screen[p] == if p.row == r && p.col < n then Image(t, cells, p.col) else s.screen[p])
  }

  ghost predicate AllBlank(t: Profile, cells: seq<Cell>, a: nat, b: nat, pen: Pen)
    requires b <= |cells|
  {
    forall j: nat :: a <= j < b ==> IsEmptyCell(Owner(cells, j)) && Image(t, cells, j) == Glyph(" ", pen)
  }

  /** The writer's and the terminal's state after the first j cells. */
  ghost predicate InStep(t: Profile, cells: seq<Cell>, w: Writer, s: State, e: State, r: nat, j: nat) {
    && j <= |cells| && w.nulls <= Reach(cells, j) <= |cells|
    && Drawn(t, cells, s, e, r, Reach(cells, j) - w.nulls)
    && e.pen == PenOf(t, w.style)
    && AllBlank(t, cells, Reach(cells, j) - w.nulls, Reach(cells, j), e.pen)
  }

  lemma DrawnIsPoised(t: Profile, cells: seq<Cell>, s: State, e: State, r: nat, n: nat)
    requires Poised(t, s, r, 0) && Drawn(t, cells, s, e, r, n)
    ensures Poised(t, e, r, n)
  {
  }

  // Writing out blanks.
  lemma BlanksDrawn(t: Profile, cells: seq<Cell>, s: State, e: State, r: nat, n: nat, nulls: nat)
    requires |cells| == t.cols && t.columns(' ') == 1 && Poised(t, s, r, 0)
    requires Drawn(t, cells, s, e, r, n) && n + nulls <= |cells| && AllBlank(t, cells, n, n + nulls, e.pen)
    ensures Drawn(t, cells, s, Feed(t, e, Spaces(nulls)), r, n + nulls)
    ensures Feed(t, e, Spaces(nulls)).pen == e.pen
  {
    if nulls > 0 {
      DrawnIsPoised(t, cells, s, e, r, n);
      FeedSpaces(t, e, nulls, r, n);
      WithSpacesIs(e.screen, r, n, nulls, e.pen);
      assert forall j: nat :: n <= j < n + nulls ==> Image(t, cells, j) == Glyph(" ", e.pen);
    }
  }

  lemma CharacterImages(t: Profile, cells: seq<Cell>, j: nat)
    requires j < |cells| && 1 <= cells[j].width <= 2 && !IsEmptyCell(cells[j]) && j + cells[j].width <= |cells|
    requires cells[j].width == 2 ==> cells[j + 1].width == 0
    ensures forall k: nat :: j <= k < j + cells[j].width ==>
              Image(t, cells, k) == Glyph(if k == j then cells[j].chars else "", PenOf(t, cells[j]))
  {
  }

  // Writing a character.
  lemma CharsDrawn(t: Profile, cells: seq<Cell>, s: State, e: State, r: nat, j: nat, c: Cell)
    requires |cells| == t.cols && Poised(t, s, r, 0) && Drawn(t, cells, s, e, r, j)
    requires j < |cells| && c == cells[j] && IsCellText(t, c.chars, c.width) && !IsEmptyCell(c) && e.pen == PenOf(t, c)
    requires j + c.width <= |cells| && (c.width == 2 ==> cells[j + 1].width == 0)
    ensures Drawn(t, cells, s, Feed(t, e, c.chars), r, j + c.width)
    ensures Feed(t, e, c.chars).pen == e.pen
  {
    DrawnIsPoised(t, cells, s, e, r, j);
    FeedCellText(t, e, c.chars, c.width, r, j);
    DrawnAtIs(e.screen, r, j, c.chars, c.width, e.pen);
    CharacterImages(t, cells, j);
  }

  // ---- one cell ----

  /** What a cell's change of style adds. */
  function StyleText(w: Writer, codes: seq<nat>): string {
    if codes == [] then "" else Spaces(w.nulls) + Control(codes, 'm')
  }

  function Styled(w: Writer, codes: seq<nat>, c: Cell, row: nat): Writer {
    if codes == [] then w else Writer(w.text + StyleText(w, codes), 0, c, row)
  }

  lemma StyleDrawn(t: Profile, nul: Cell, faint: bool, cells: seq<Cell>, w: Writer, s: State, e: State, r: nat, j: nat, row: nat)
    requires IsRow(t, nul, faint, cells) && t.columns(' ') == 1 && Poised(t, s, r, 0)
    requires j < |cells| && cells[j].width != 0 && IsPlain(t, nul, faint, w.style)
    requires InStep(t, cells, w, s, e, r, j)
    ensures var codes := DiffStyle(nul, cells[j], w.style);
            var e1 := Feed(t, e, StyleText(w, codes));
            InStep(t, cells, Styled(w, codes, cells[j], row), s, e1, r, j) && e1.pen == PenOf(t, cells[j])
  {
    var c := cells[j];
    var codes := DiffStyle(nul, c, w.style);
    PlainReaches(t, nul, faint, c, w.style);
    if codes != [] {
      var n := Reach(cells, j) - w.nulls;
      var e0 := Feed(t, e, Spaces(w.nulls));
      BlanksDrawn(t, cells, s, e, r, n, w.nulls);
      FeedAppend(t, e, Spaces(w.nulls), Control(codes, 'm'));
      FeedControl(t, e0, codes, 'm');
    }
  }

  lemma StyledCell(t: Profile, nul: Cell, faint: bool, cells: seq<Cell>, w: Writer, s: State, r: nat, j: nat, row: nat)
    requires IsRow(t, nul, faint, cells) && t.columns(' ') == 1 && Poised(t, s, r, 0)
    requires j < |cells| && cells[j].width != 0 && IsPlain(t, nul, faint, w.style)
    requires InStep(t, cells, w, s, Feed(t, s, w.text), r, j)
    ensures var v := Styled(w, DiffStyle(nul, cells[j], w.style), cells[j], row);
            && InStep(t, cells, v, s, Feed(t, s, v.text), r, j) && Feed(t, s, v.text).pen == PenOf(t, cells[j])
            && IsPlain(t, nul, faint, v.style)
  {
    var codes := DiffStyle(nul, cells[j], w.style);
    StyleDrawn(t, nul, faint, cells, w, s, Feed(t, s, w.text), r, j, row);
    FeedAppend(t, s, w.text, StyleText(w, codes));
    StyledText(w, codes, cells[j], row);
  }

  /** What a cell adds once its style is set. */
  function Written(v: Writer, c: Cell, row: nat): Writer {
    if IsEmptyCell(c) then v.(nulls := v.nulls + c.width) else Writer(v.text + Spaces(v.nulls) + c.chars, 0, v.style, row)
  }

  lemma NextIsWritten(nul: Cell, w: Writer, c: Cell, row: nat)
    requires c.width != 0
    ensures NextCell(nul, w, c, row) == Written(Styled(w, DiffStyle(nul, c, w.style), c, row), c, row)
  {
    StyledText(w, DiffStyle(nul, c, w.style), c, row);
  }

  lemma WrittenDrawn(t: Profile, nul: Cell, faint: bool, cells: seq<Cell>, v: Writer, s: State, r: nat, j: nat, row: nat)
    requires IsRow(t, nul, faint, cells) && t.columns(' ') == 1 && Poised(t, s, r, 0)
    requires j < |cells| && cells[j].width != 0
    requires InStep(t, cells, v, s, Feed(t, s, v.text), r, j) && Feed(t, s, v.text).pen == PenOf(t, cells[j])
    ensures var u := Written(v, cells[j], row); InStep(t, cells, u, s, Feed(t, s, u.text), r, j + 1) && u.style == v.style
  {
    if IsEmptyCell(cells[j]) {
      BlankCounted(t, nul, faint, cells, v, s, Feed(t, s, v.text), r, j);
    } else {
      CharacterDrawn(t, nul, faint, cells, v, Written(v, cells[j], row), s, r, j);
    }
  }

  lemma CellDrawn(t: Profile, nul: Cell, faint: bool, cells: seq<Cell>, w: Writer, s: State, r: nat, j: nat, row: nat)
    requires IsRow(t, nul, faint, cells) && t.columns(' ') == 1 && Poised(t, s, r, 0)
    requires j < |cells| && IsPlain(t, nul, faint, w.style)
    requires InStep(t, cells, w, s, Feed(t, s, w.text), r, j)
    ensures var v := NextCell(nul, w, cells[j], row);
            InStep(t, cells, v, s, Feed(t, s, v.text), r, j + 1) && IsPlain(t, nul, faint, v.style)
  {
    if cells[j].width != 0 {
      StyledCell(t, nul, faint, cells, w, s, r, j, row);
      WrittenDrawn(t, nul, faint, cells, Styled(w, DiffStyle(nul, cells[j], w.style), cells[j], row), s, r, j, row);
      NextIsWritten(nul, w, cells[j], row);
    }
  }

  lemma StyledText(w: Writer, codes: seq<nat>, c: Cell, row: nat)
    ensures Styled(w, codes, c, row).text == w.text + StyleText(w, codes)
    ensures Styled(w, codes, c, row) == if codes == [] then w else Writer(w.text + Spaces(w.nulls) + Control(codes, 'm'), 0, c, row)
  {
    assert codes != [] ==> w.text + (Spaces(w.nulls) + Control(codes, 'm')) == w.text + Spaces(w.nulls) + Control(codes, 'm');
  }

  lemma BlankCounted(t: Profile, nul: Cell, faint: bool, cells: seq<Cell>, v: Writer, s: State, e: State, r: nat, j: nat)
    requires IsRow(t, nul, faint, cells) && j < |cells| && cells[j].width != 0 && IsEmptyCell(cells[j])
    requires InStep(t, cells, v, s, e, r, j) && e.pen == PenOf(t, cells[j])
    ensures InStep(t, cells, v.(nulls := v.nulls + cells[j].width), s, e, r, j + 1)
  {
    var c := cells[j];
    assert Reach(cells, j) == j && Reach(cells, j + 1) == j + c.width;
    assert c.width == 2 ==> cells[j + 1].width == 0;
  }

  lemma CharacterDrawn(t: Profile, nul: Cell, faint: bool, cells: seq<Cell>, v: Writer, u: Writer, s: State, r: nat, j: nat)
    requires IsRow(t, nul, faint, cells) && t.columns(' ') == 1 && Poised(t, s, r, 0)
    requires j < |cells| && cells[j].width != 0 && !IsEmptyCell(cells[j])
    requires InStep(t, cells, v, s, Feed(t, s, v.text), r, j) && PenOf(t, v.style) == PenOf(t, cells[j])
    requires u.text == v.text + Spaces(v.nulls) + cells[j].chars && u.nulls == 0 && u.style == v.style
    ensures InStep(t, cells, u, s, Feed(t, s, u.text), r, j + 1)
  {
    var c := cells[j];
    var e := Feed(t, s, v.text);
    assert Reach(cells, j) == j && Reach(cells, j + 1) == j + c.width;
    assert c.width == 2 ==> cells[j + 1].width == 0;
    FeedAppend(t, s, v.text + Spaces(v.nulls), c.chars);
    FeedAppend(t, s, v.text, Spaces(v.nulls));
    BlanksDrawn(t, cells, s, e, r, j - v.nulls, v.nulls);
    CharsDrawn(t, cells, s, Feed(t, e, Spaces(v.nulls)), r, j, c);
  }

  // ---- a whole row ----

  lemma {:induction false} CellsDrawn(t: Profile, nul: Cell, faint: bool, cells: seq<Cell>, w: Writer, s: State, r: nat, j: nat, row: nat)
    requires IsRow(t, nul, faint, cells) && t.columns(' ') == 1 && Poised(t, s, r, 0) && j <= |cells|
    requires w.text == "" && w.nulls == 0 && s.pen == PenOf(t, w.style) && IsPlain(t, nul, faint, w.style)
    requires forall p: Place :: p in s.screen ==> p.row != r
    ensures var v := Cells(nul, cells, j, w, row);
            InStep(t, cells, v, s, Feed(t, s, v.text), r, j) && IsPlain(t, nul, faint, v.style)
    decreases j
  {
    if j > 0 {
      CellsDrawn(t, nul, faint, cells, w, s, r, j - 1, row);
      CellDrawn(t, nul, faint, cells, Cells(nul, cells, j - 1, w, row), s, r, j - 1, row);
    }
  }

  /** A row of which nothing is printed unless its blanks are written out: blank, and in one style. */
  predicate IsBare(nul: Cell, cells: seq<Cell>) {
    forall j :: 0 <= j < |cells| && cells[j].width != 0 ==> IsEmptyCell(cells[j]) && SameStyle(nul, cells[j], cells[0])
  }

  // Nothing is printed for a row just when it is bare.
  lemma {:induction false} PrintsNothingExactly(t: Profile, nul: Cell, faint: bool, cells: seq<Cell>, w: Writer, j: nat, row: nat)
    requires IsRow(t, nul, faint, cells) && 0 < j <= |cells| && w.nulls == 0
    ensures var v := Cells(nul, cells, j, w, row);
            v.nulls <= Reach(cells, j)
            && (v.nulls == Reach(cells, j) <==> IsBare(nul, cells[..j]))
            && (v.nulls == Reach(cells, j) ==> SameStyle(nul, v.style, cells[0]))
    decreases j
  {
    var c := cells[j - 1];
    assert forall i :: 0 <= i < j - 1 ==> cells[..j][i] == cells[..j - 1][i];
    if j == 1 {
      NothingWrittenExactly(nul, c, w.style);
      assert Cells(nul, cells, 0, w, row) == w;
    } else {
      PrintsNothingExactly(t, nul, faint, cells, w, j - 1, row);
      NothingWrittenExactly(nul, c, Cells(nul, cells, j - 1, w, row).style);
      BarePrefix(nul, cells, j);
    }
  }

  lemma BarePrefix(nul: Cell, cells: seq<Cell>, j: nat)
    requires 1 < j <= |cells|
    ensures IsBare(nul, cells[..j]) <==>
            IsBare(nul, cells[..j - 1]) && (cells[j - 1].width != 0 ==> IsEmptyCell(cells[j - 1]) && SameStyle(nul, cells[j - 1], cells[0]))
  {
    assert forall i :: 0 <= i < j - 1 ==> cells[..j][i] == cells[..j - 1][i];
    assert cells[..j][j - 1] == cells[j - 1];
  }
}
