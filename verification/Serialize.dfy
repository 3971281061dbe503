/**
 * What the serializer writes (packages/app/src/addons/serialize.ts), as functions of the
 * buffer: the change of style between two cells, and the text of rows.
 */
module Serialize {
  import opened Terminal

  /** A colour is a mode and a number: 1 palette, 2, 3 and -1 RGB, anything else the default. */
  datatype Cell = Cell(code: nat, chars: string, width: nat,
                       fgMode: int, fg: nat, bgMode: int, bg: nat, flags: Flags)

  datatype Line = Line(cells: seq<Cell>, isWrapped: bool)

  // ---- style ----

  predicate EqualFg(a: Cell, b: Cell) {
    a.fgMode == b.fgMode && a.fg == b.fg
  }

  predicate EqualBg(a: Cell, b: Cell) {
    a.bgMode == b.bgMode && a.bg == b.bg
  }

  predicate IsAttributeDefault(nul: Cell, c: Cell) {
    if c.fgMode == 0 && c.bgMode == 0 then c.flags == NO_FLAGS
    else c.fg == nul.fg && c.bg == nul.bg && c.flags == NO_FLAGS
  }

  predicate IsRgbMode(mode: int) {
    mode == 2 || mode == 3 || mode == -1
  }

  /** base is 38 or 48, low and high the first of the eight plain and bright codes. */
  function ColourCodes(mode: int, v: nat, base: nat, low: nat, high: nat): (codes: seq<nat>)
    ensures codes != []
  {
    if IsRgbMode(mode) then [base, 2, v / 0x1_0000 % 256, v / 0x100 % 256, v % 256]
    else if mode == 1 then
      if v >= 16 then [base, 5, v] else [if v / 8 % 2 == 1 then high + v % 8 else low + v % 8]
    else [base + 1]
  }

  function FgCodes(c: Cell, prev: Cell): seq<nat> {
    if EqualFg(c, prev) then [] else ColourCodes(c.fgMode, c.fg, 38, 30, 90)
  }

  function BgCodes(c: Cell, prev: Cell): seq<nat> {
    if EqualBg(c, prev) then [] else ColourCodes(c.bgMode, c.bg, 48, 40, 100)
  }

  datatype Attribute = Inverse | Bold | Underline | Blink | Invisible | Italic | Dim | Strikethrough {
    function Of(f: Flags): bool {
      match this
      case Inverse => f.inverse
      case Bold => f.bold
      case Underline => f.underline
      case Blink => f.blink
      case Invisible => f.invisible
      case Italic => f.italic
      case Dim => f.dim
      case Strikethrough => f.strikethrough
    }

    function On(): nat {
      match this
      case Inverse => 7
      case Bold => 1
      case Underline => 4
      case Blink => 5
      case Invisible => 8
      case Italic => 3
      case Dim => 2
      case Strikethrough => 9
    }

    function Off(): nat {
      match this
      case Inverse => 27
      case Bold => 22
      case Underline => 24
      case Blink => 25
      case Invisible => 28
      case Italic => 23
      case Dim => 22
      case Strikethrough => 29
    }
  }

  const ATTRIBUTES := [Inverse, Bold, Underline, Blink, Invisible, Italic, Dim, Strikethrough]

  /** The codes for the given flags of f that differ from those of g, then the rest. */
  function FlagCodes(attributes: seq<Attribute>, f: Flags, g: Flags, rest: seq<nat>): seq<nat> {
    if attributes == [] then rest
    else
      var a := attributes[0];
      var codes := if a.Of(f) == a.Of(g) then [] else [if a.Of(f) then a.On() else a.Off()];
      codes + FlagCodes(attributes[1..], f, g, rest)
  }

  /** _diffStyle */
  function DiffStyle(nul: Cell, c: Cell, prev: Cell): seq<nat> {
    if EqualFg(c, prev) && EqualBg(c, prev) && c.flags == prev.flags then []
    else if IsAttributeDefault(nul, c) then (if IsAttributeDefault(nul, prev) then [] else [0])
    else FlagCodes(ATTRIBUTES, c.flags, prev.flags, FgCodes(c, prev) + BgCodes(c, prev))
  }

  function StyleChange(nul: Cell, c: Cell, prev: Cell): string {
    var codes := DiffStyle(nul, c, prev);
    if codes == [] then "" else Control(codes, 'm')
  }

  // ---- cells and rows ----

  /** Cells written as blanks: empty ones and those with an unusable code point. */
  predicate IsEmptyCell(c: Cell) {
    c.code == 0 || c.chars == "" || c.code > 0x10FFFF || 0xD800 <= c.code <= 0xDFFF || (c.code >= 0xF000 && c.width == 1)
  }

  /** _currentRow, _nullCellCount, _cursorStyle and _lastContentCursorRow. */
  datatype Writer = Writer(text: string, nulls: nat, style: Cell, content: nat)

  /** _nextCell */
  function NextCell(nul: Cell, w: Writer, c: Cell, row: nat): Writer {
    if c.width == 0 then w
    else
      var codes := DiffStyle(nul, c, w.style);
      var v := if codes == [] then w else Writer(w.text + Spaces(w.nulls) + Control(codes, 'm'), 0, c, row);
      if IsEmptyCell(c) then v.(nulls := v.nulls + c.width)
      else Writer(v.text + Spaces(v.nulls) + c.chars, 0, v.style, row)
  }

  function Cells(nul: Cell, cells: seq<Cell>, j: nat, w: Writer, row: nat): Writer
    requires j <= |cells|
  {
    if j == 0 then w else NextCell(nul, Cells(nul, cells, j - 1, w, row), cells[j - 1], row)
  }

  /** Rows first to last of a buffer. */
  datatype Job = Job(lines: seq<Line>, nul: Cell, first: nat, last: nat) {
    predicate Valid() {
      first <= last < |lines|
    }

    predicate NextIsWrapped(k: nat)
      requires k <= last < |lines|
    {
      k < last && lines[k + 1].isWrapped
    }

    /** The writer at the start of row k, and at the end of its cells. */
    function Before(k: nat): Writer
      requires first <= k <= |lines|
      decreases k, 0
    {
      if k == first then Writer("", 0, nul, first) else After(k - 1).(text := "", nulls := 0)
    }

    function After(k: nat): Writer
      requires first <= k < |lines|
      decreases k, 1
    {
      Cells(nul, lines[k].cells, |lines[k].cells|, Before(k), k)
    }

    /** What _rowEnd stores for row k. */
    function RowText(k: nat): string
      requires first <= k <= last < |lines|
    {
      var w := After(k);
      if NextIsWrapped(k) then w.text + Spaces(w.nulls) else w.text
    }

    function Separator(k: nat): string
      requires k <= last < |lines|
    {
      if k < last && !NextIsWrapped(k) then "\r\n" else ""
    }

    /** Rows first to k - 1, each with its separator. */
    function Upto(k: nat): string
      requires first <= k <= last + 1 <= |lines|
    {
      if k == first then "" else Upto(k - 1) + RowText(k - 1) + Separator(k - 1)
    }

    /** Rows first to k. */
    function Through(k: nat): string
      requires first <= k <= last < |lines|
    {
      Upto(k) + RowText(k)
    }

    /** The last row kept: all of them when the buffer does not fit the terminal. */
    function LastKept(rows: nat): (k: nat)
      requires Valid()
    {
      if |lines| - first <= rows then After(last).content else last
    }

    /** The rows kept, without the final cursor position. */
    function Content(rows: nat): string
      requires Valid()
    {
      var k := LastKept(rows);
      if first <= k <= last then Through(k) else Through(last)
    }

    /** The cell whose style the cursor is left with. */
    function CursorCell(row: nat, x: nat): Cell {
      if row >= |lines| || x >= |lines[row].cells| then nul
      else if lines[row].cells[x].width == 0 && x > 0 then lines[row].cells[x - 1]
      else lines[row].cells[x]
    }

    /** The rows kept, then the cursor, at row `row` of the buffer, and its style. */
    function Output(rows: nat, row: nat, x: nat): string
      requires Valid()
    {
      var line := if row >= first then row - first + 1 else 1;
      Content(rows) + Control([line, x + 1], 'H') + StyleChange(nul, CursorCell(row, x), After(last).style)
    }
  }
}
