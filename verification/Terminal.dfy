/**
 * A small terminal: printing with autowrap, carriage return and line feed, cursor position,
 * and SGR (section 8.3.117 of ECMA-48). Its lines are numbered from the first one written to,
 * without bound, so that lines which scroll off keep their numbers.
 */
module Terminal {
  import opened Decimal

  datatype Colour = Standard | Palette(index: nat) | Rgb(value: nat)

  datatype Flags = Flags(inverse: bool, bold: bool, underline: bool, blink: bool,
                         invisible: bool, italic: bool, dim: bool, strikethrough: bool)

  const NO_FLAGS := Flags(false, false, false, false, false, false, false, false)

  datatype Pen = Pen(fg: Colour, bg: Colour, flags: Flags)

  datatype Place = Place(row: nat, col: nat)

  datatype Glyph = Glyph(text: string, pen: Pen)

  type Columns = n: nat | n > 0 witness 1

  /** Width in columns, columns a character takes, and the colours after a reset. */
  datatype Profile = Profile(cols: Columns, columns: char -> nat, fg: Colour, bg: Colour) {
    function ResetPen(): Pen {
      Pen(fg, bg, NO_FLAGS)
    }
  }

  datatype Mode = Ground | Escape | Csi(params: seq<nat>, current: nat)

  /** x == cols stands for a cursor in the last column with a wrap pending. */
  datatype State = State(row: nat, x: nat, pen: Pen, screen: map<Place, Glyph>, last: Place, mode: Mode)

  const ESC := '\U{1B}'

  function Start(t: Profile): State {
    State(0, 0, t.ResetPen(), map[], Place(0, 0), Ground)
  }

  predicate IsPrintable(c: char) {
    ' ' <= c && !('\U{7F}' <= c <= '\U{9F}')
  }

  // ---- one character ----

  /** A character of `w` columns goes to the next line when it does not fit. */
  function Put(t: Profile, s: State, c: char, w: nat): State {
    var (r, x) := if s.x + w > t.cols then (s.row + 1, 0) else (s.row, s.x);
    var drawn := s.screen[Place(r, x) := Glyph([c], s.pen)];
    s.(row := r, x := x + w, last := Place(r, x),
       screen := if w == 2 then drawn[Place(r, x + 1) := Glyph("", s.pen)] else drawn)
  }

  /** A character without columns of its own joins the last one printed. */
  function Combine(s: State, c: char): State {
    if s.last in s.screen then s.(screen := s.screen[s.last := Glyph(s.screen[s.last].text + [c], s.screen[s.last].pen)])
    else s
  }

  function GroundStep(t: Profile, s: State, c: char): State {
    if c == ESC then s.(mode := Escape)
    else if c == '\r' then s.(x := 0)
    else if c == '\n' then s.(row := s.row + 1, x := if s.x < t.cols then s.x else t.cols - 1)
    else if !IsPrintable(c) then s
    else if t.columns(c) == 0 then Combine(s, c)
    else Put(t, s, c, t.columns(c))
  }

  function Step(t: Profile, s: State, c: char): State
  {
    match s.mode
    case Ground => GroundStep(t, s, c)
    case Escape => s.(mode := if c == '[' then Csi([], 0) else Ground)
    case Csi(params, current) =>
      if IsDigit(c) then s.(mode := Csi(params, 10 * current + (c as int - '0' as int)))
      else if c == ';' then s.(mode := Csi(params + [current], 0))
      else Finish(t, s.(mode := Ground), params + [current], c)
  }

  function Feed(t: Profile, s: State, text: string): State
    decreases |text|
  {
    if text == "" then s else Feed(t, Step(t, s, text[0]), text[1..])
  }

  // ---- control sequences ----

  function Finish(t: Profile, s: State, params: seq<nat>, final: char): State
  {
    if final == 'm' then s.(pen := Sgr(t, s.pen, params))
    else if final == 'H' then
      var r := if |params| > 0 && params[0] > 0 then params[0] - 1 else 0;
      var c := if |params| > 1 && params[1] > 0 then params[1] - 1 else 0;
      s.(row := r, x := if c < t.cols then c else t.cols - 1)
    else s
  }

  /** A parameter that stands alone. */
  function SgrOne(t: Profile, p: Pen, code: nat): Pen {
    var f := p.flags;
    if code == 0 then t.ResetPen()
    else if code == 1 then p.(flags := f.(bold := true))
    else if code == 2 then p.(flags := f.(dim := true))
    else if code == 3 then p.(flags := f.(italic := true))
    else if code == 4 then p.(flags := f.(underline := true))
    else if code == 5 then p.(flags := f.(blink := true))
    else if code == 7 then p.(flags := f.(inverse := true))
    else if code == 8 then p.(flags := f.(invisible := true))
    else if code == 9 then p.(flags := f.(strikethrough := true))
    else if code == 22 then p.(flags := f.(bold := false, dim := false))
    else if code == 23 then p.(flags := f.(italic := false))
    else if code == 24 then p.(flags := f.(underline := false))
    else if code == 25 then p.(flags := f.(blink := false))
    else if code == 27 then p.(flags := f.(inverse := false))
    else if code == 28 then p.(flags := f.(invisible := false))
    else if code == 29 then p.(flags := f.(strikethrough := false))
    else SgrColour(t, p, code)
  }

  function SgrColour(t: Profile, p: Pen, code: nat): Pen {
    if 30 <= code <= 37 then p.(fg := Palette(code - 30))
    else if code == 39 then p.(fg := t.fg)
    else if 40 <= code <= 47 then p.(bg := Palette(code - 40))
    else if code == 49 then p.(bg := t.bg)
    else if 90 <= code <= 97 then p.(fg := Palette(code - 82))
    else if 100 <= code <= 107 then p.(bg := Palette(code - 92))
    else p
  }

  function Extended(p: Pen, code: nat, colour: Colour): Pen {
    if code == 38 then p.(fg := colour) else p.(bg := colour)
  }

  function Sgr(t: Profile, p: Pen, params: seq<nat>): Pen
    decreases |params|
  {
    if params == [] then p
    else if params[0] != 38 && params[0] != 48 then Sgr(t, SgrOne(t, p, params[0]), params[1..])
    else if |params| >= 3 && params[1] == 5 then Sgr(t, Extended(p, params[0], Palette(params[2])), params[3..])
    else if |params| >= 5 && params[1] == 2 then
      Sgr(t, Extended(p, params[0], Rgb(params[2] * 0x1_0000 + params[3] * 0x100 + params[4])), params[5..])
    else p
  }

  // ---- facts ----

  lemma {:induction false} FeedAppend(t: Profile, s: State, a: string, b: string)
    ensures Feed(t, s, a + b) == Feed(t, Feed(t, s, a), b)
    decreases |a|
  {
    if a == "" {
      assert a + b == b;
    } else {
      assert (a + b)[1..] == a[1..] + b;
      FeedAppend(t, Step(t, s, a[0]), a[1..], b);
    }
  }

  lemma FeedThree(t: Profile, s: State, a: string, b: string, c: string)
    ensures Feed(t, s, a + b + c) == Feed(t, Feed(t, Feed(t, s, a), b), c)
  {
    FeedAppend(t, s, a + b, c);
    FeedAppend(t, s, a, b);
  }

  /** Parameters as a printer writes them. */
  function Joined(params: seq<nat>): string {
    if params == [] then ""
    else if |params| == 1 then Print(params[0])
    else Print(params[0]) + ";" + Joined(params[1..])
  }

  function Control(params: seq<nat>, final: char): string {
    [ESC, '['] + Joined(params) + [final]
  }

  lemma {:induction false} FeedDigits(t: Profile, s: State, n: nat)
    requires s.mode.Csi? && s.mode.current == 0
    ensures Feed(t, s, Print(n)) == s.(mode := Csi(s.mode.params, n))
  {
    if n < 10 {
      assert Print(n)[1..] == "";
    } else {
      FeedDigits(t, s, n / 10);
      FeedAppend(t, s, Print(n / 10), [DigitChar(n % 10)]);
      FeedOne(t, Feed(t, s, Print(n / 10)), DigitChar(n % 10));
    }
  }

  lemma FeedOne(t: Profile, s: State, c: char)
    ensures Feed(t, s, [c]) == Step(t, s, c)
  {
    assert [c][1..] == "";
  }

  // A parameter and the semicolon after it.
  lemma FeedParam(t: Profile, s: State, n: nat)
    requires s.mode.Csi? && s.mode.current == 0
    ensures Feed(t, s, Print(n) + ";") == s.(mode := Csi(s.mode.params + [n], 0))
  {
    FeedDigits(t, s, n);
    FeedAppend(t, s, Print(n), ";");
    FeedOne(t, s.(mode := Csi(s.mode.params, n)), ';');
  }

  lemma FeedLastParam(t: Profile, s: State, n: nat, final: char)
    requires s.mode.Csi? && s.mode.current == 0 && !IsDigit(final) && final != ';'
    ensures Feed(t, s, Print(n) + [final]) == Finish(t, s.(mode := Ground), s.mode.params + [n], final)
  {
    FeedDigits(t, s, n);
    FeedAppend(t, s, Print(n), [final]);
    FeedOne(t, s.(mode := Csi(s.mode.params, n)), final);
  }

  lemma {:induction false} FeedParams(t: Profile, s: State, params: seq<nat>, final: char)
    requires s.mode.Csi? && s.mode.current == 0 && params != []
    requires !IsDigit(final) && final != ';'
    ensures Feed(t, s, Joined(params) + [final]) == Finish(t, s.(mode := Ground), s.mode.params + params, final)
    decreases |params|
  {
    if |params| == 1 {
      assert params == [params[0]];
      FeedLastParam(t, s, params[0], final);
    } else {
      var first := Print(params[0]) + ";";
      var rest := Joined(params[1..]) + [final];
      var s1 := s.(mode := Csi(s.mode.params + [params[0]], 0));
      assert Joined(params) + [final] == first + rest;
      FeedParam(t, s, params[0]);
      FeedAppend(t, s, first, rest);
      FeedParams(t, s1, params[1..], final);
      assert s.mode.params + [params[0]] + params[1..] == s.mode.params + params;
    }
  }

  /** A control sequence takes effect as written. */
  lemma FeedControl(t: Profile, s: State, params: seq<nat>, final: char)
    requires s.mode.Ground? && params != []
    requires !IsDigit(final) && final != ';'
    ensures Feed(t, s, Control(params, final)) == Finish(t, s, params, final)
  {
    var s1 := s.(mode := Escape);
    var s2 := s.(mode := Csi([], 0));
    var rest := Joined(params) + [final];
    assert Control(params, final) == [ESC] + (['['] + rest);
    FeedAppend(t, s, [ESC], ['['] + rest);
    FeedOne(t, s, ESC);
    FeedAppend(t, s1, ['['], rest);
    FeedOne(t, s1, '[');
    FeedParams(t, s2, params, final);
    assert [] + params == params;
    assert s2.(mode := Ground) == s;
  }

  // ---- printing where the cursor is about to print ----

  /** The next character goes to column c of line r, at once or by wrapping. */
  predicate Poised(t: Profile, s: State, r: nat, c: nat) {
    s.mode.Ground? && ((s.row == r && s.x == c) || (c == 0 && s.row + 1 == r && s.x == t.cols))
  }

  lemma PutPoised(t: Profile, s: State, ch: char, r: nat, c: nat)
    requires Poised(t, s, r, c) && IsPrintable(ch) && 1 <= t.columns(ch) <= 2
    requires c + t.columns(ch) <= t.cols
    ensures var u := Step(t, s, ch);
            u.mode.Ground? && u.pen == s.pen && u.row == r && u.x == c + t.columns(ch) && u.last == Place(r, c)
            && u.screen == if t.columns(ch) == 2 then s.screen[Place(r, c) := Glyph([ch], s.pen)][Place(r, c + 1) := Glyph("", s.pen)]
                           else s.screen[Place(r, c) := Glyph([ch], s.pen)]
  {
  }

  lemma {:induction false} FeedCombining(t: Profile, s: State, text: string, marks: string)
    requires s.mode.Ground? && s.last in s.screen && s.screen[s.last].text == text
    requires forall i :: 0 <= i < |marks| ==> IsPrintable(marks[i]) && t.columns(marks[i]) == 0
    ensures Feed(t, s, marks) == s.(screen := s.screen[s.last := Glyph(text + marks, s.screen[s.last].pen)])
    decreases |marks|
  {
    if marks == "" {
      assert text + marks == text;
      assert s.screen[s.last := s.screen[s.last]] == s.screen;
    } else {
      var u := Combine(s, marks[0]);
      assert Step(t, s, marks[0]) == u;
      FeedCombining(t, u, text + [marks[0]], marks[1..]);
      assert text + [marks[0]] + marks[1..] == text + marks;
    }
  }

  /** One cell's text: a character of one or two columns and what combines with it. */
  predicate IsCellText(t: Profile, text: string, w: nat) {
    && text != "" && 1 <= w <= 2 && t.columns(text[0]) == w
    && (forall i :: 0 <= i < |text| ==> IsPrintable(text[i]))
    && (forall i :: 0 < i < |text| ==> t.columns(text[i]) == 0)
  }

  function DrawnAt(screen: map<Place, Glyph>, r: nat, c: nat, text: string, w: nat, pen: Pen): map<Place, Glyph> {
    var drawn := screen[Place(r, c) := Glyph(text, pen)];
    if w == 2 then drawn[Place(r, c + 1) := Glyph("", pen)] else drawn
  }

  lemma DrawnAtIs(screen: map<Place, Glyph>, r: nat, c: nat, text: string, w: nat, pen: Pen)
    requires 1 <= w <= 2
    ensures forall k: Place :: k in DrawnAt(screen, r, c, text, w, pen) <==> k in screen || (k.row == r && c <= k.col < c + w)
    ensures forall k: Place :: k in DrawnAt(screen, r, c, text, w, pen) ==>
              DrawnAt(screen, r, c, text, w, pen)[k] ==
              if k.row == r && c <= k.col < c + w then Glyph(if k.col == c then text else "", pen) else screen[k]
  {
  }

  lemma FeedCellText(t: Profile, s: State, text: string, w: nat, r: nat, c: nat)
    requires Poised(t, s, r, c) && IsCellText(t, text, w) && c + w <= t.cols
    ensures var u := Feed(t, s, text);
            u.mode.Ground? && u.pen == s.pen && u.row == r && u.x == c + w
            && u.screen == DrawnAt(s.screen, r, c, text, w, s.pen)
  {
    PutPoised(t, s, text[0], r, c);
    var u := Step(t, s, text[0]);
    FeedCombining(t, u, [text[0]], text[1..]);
    assert [text[0]] + text[1..] == text;
    assert u.screen[Place(r, c) := Glyph(text, s.pen)] == DrawnAt(s.screen, r, c, text, w, s.pen);
  }

  function Spaces(n: nat): (s: string)
    ensures |s| == n && forall i :: 0 <= i < n ==> s[i] == ' '
  {
    if n == 0 then "" else Spaces(n - 1) + " "
  }

  /** The screen with n spaces from column c on. */
  function WithSpaces(screen: map<Place, Glyph>, r: nat, c: nat, n: nat, pen: Pen): map<Place, Glyph> {
    if n == 0 then screen else WithSpaces(screen, r, c, n - 1, pen)[Place(r, c + n - 1) := Glyph(" ", pen)]
  }

  lemma {:induction false} FeedSpaces(t: Profile, s: State, n: nat, r: nat, c: nat)
    requires Poised(t, s, r, c) && t.columns(' ') == 1 && c + n <= t.cols && n > 0
    ensures var u := Feed(t, s, Spaces(n));
            u.mode.Ground? && u.pen == s.pen && u.row == r && u.x == c + n
            && u.screen == WithSpaces(s.screen, r, c, n, s.pen)
  {
    if n == 1 {
      assert Spaces(1) == " ";
      FeedOne(t, s, ' ');
      PutPoised(t, s, ' ', r, c);
      assert WithSpaces(s.screen, r, c, 0, s.pen) == s.screen;
    } else {
      FeedSpaces(t, s, n - 1, r, c);
      FeedAppend(t, s, Spaces(n - 1), " ");
      FeedOne(t, Feed(t, s, Spaces(n - 1)), ' ');
      PutPoised(t, Feed(t, s, Spaces(n - 1)), ' ', r, c + n - 1);
    }
  }

  lemma {:induction false} WithSpacesIs(screen: map<Place, Glyph>, r: nat, c: nat, n: nat, pen: Pen)
    ensures forall k: Place :: k in WithSpaces(screen, r, c, n, pen) <==> k in screen || (k.row == r && c <= k.col < c + n)
    ensures forall k: Place :: k in WithSpaces(screen, r, c, n, pen) ==>
              WithSpaces(screen, r, c, n, pen)[k] == if k.row == r && c <= k.col < c + n then Glyph(" ", pen) else screen[k]
  {
    if n > 0 {
      WithSpacesIs(screen, r, c, n - 1, pen);
    }
  }
}
