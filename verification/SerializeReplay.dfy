/** Replaying the serializer's output rebuilds the buffer, and exactly when it does not. */
module SerializeReplay {
  import opened Terminal
  import opened Serialize
  import opened SerializeStyle
  import opened SerializeRow

  /** A buffer as wide as the terminal, of cells the serializer can express. */
  ghost predicate Serializable(t: Profile, faint: bool, job: Job) {
    && job.Valid() && t.columns(' ') == 1 && Fits(t, job.nul) && IsPlain(t, job.nul, faint, job.nul)
    && (forall k :: 0 <= k < |job.lines| ==> IsRow(t, job.nul, faint, job.lines[k].cells))
  }

  // ---- where each row goes ----

  /**
   * The line break after this row only ends the pending wrap of the row before: the row
   * continues that one, prints nothing, and the next row continues nothing.
   */
  predicate Swallows(job: Job, k: nat) {
    && job.first < k < job.last < |job.lines|
    && job.lines[k].isWrapped && !job.lines[k + 1].isWrapped && IsBare(job.nul, job.lines[k].cells)
  }

  /** The terminal line row k is drawn on. */
  function Target(job: Job, k: nat): nat
    requires job.first <= k
  {
    if k == job.first then 0 else Target(job, k - 1) + (if Swallows(job, k - 1) then 0 else 1)
  }

  lemma {:induction false} TargetGrows(job: Job, i: nat, k: nat)
    requires job.first <= i <= k
    ensures Target(job, i) <= Target(job, k) <= Target(job, i) + (k - i)
    decreases k
  {
    if i < k {
      TargetGrows(job, i, k - 1);
    }
  }

  /** A row is drawn at its own place exactly when no earlier row swallows a line break. */
  lemma {:induction false} TargetIsPlaceExactly(job: Job, k: nat)
    requires job.first <= k
    ensures Target(job, k) <= k - job.first
    ensures Target(job, k) == k - job.first <==> forall h: nat :: h < k ==> !Swallows(job, h)
    decreases k
  {
    if k > job.first {
      TargetIsPlaceExactly(job, k - 1);
    }
  }

  // ---- the picture so far ----

  predicate IsWrappedOnto(job: Job, k: nat) {
    job.first < k < |job.lines| && job.lines[k].isWrapped
  }

  /** The terminal at the start of row k. */
  ghost predicate AtRow(t: Profile, job: Job, e: State, k: nat)
    requires job.Valid() && job.first <= k <= job.last
  {
    && e.mode.Ground? && e.pen == PenOf(t, job.Before(k).style)
    && (if IsWrappedOnto(job, k) then e.row + 1 == Target(job, k) && e.x == t.cols
        else e.row == Target(job, k) && e.x == 0)
  }

  predicate IsFilled(job: Job, i: nat, j: nat) {
    i < |job.lines| && j < |job.lines[i].cells| && !IsEmptyCell(Owner(job.lines[i].cells, j))
  }

  /** Column j of a line looks as in row i of the buffer. */
  predicate Shows(t: Profile, job: Job, screen: map<Place, Glyph>, i: nat, j: nat, line: nat)
    requires i < |job.lines| && j < |job.lines[i].cells|
  {
    Place(line, j) in screen && screen[Place(line, j)] == Image(t, job.lines[i].cells, j)
  }

  /** How many columns of row k are drawn. */
  function DrawnColumns(job: Job, k: nat): int
    requires job.Valid() && job.first <= k <= job.last
  {
    if job.NextIsWrapped(k) then |job.lines[k].cells| else |job.lines[k].cells| - job.After(k).nulls
  }

  /** Each drawn column of rows first to k - 1 is on its row's line. */
  ghost predicate Shown(t: Profile, job: Job, screen: map<Place, Glyph>, k: nat)
    requires job.Valid() && k <= job.last + 1
  {
    forall i: nat, j: nat :: job.first <= i < k && j < DrawnColumns(job, i) ==> Shows(t, job, screen, i, j, Target(job, i))
  }

  /** Row i is drawn at this place, and looks like this. */
  predicate Pictures(t: Profile, job: Job, i: nat, p: Place, g: Glyph)
    requires job.Valid()
  {
    && job.first <= i <= job.last && Target(job, i) == p.row && p.col < DrawnColumns(job, i)
    && g == Image(t, job.lines[i].cells, p.col)
  }

  /** Nothing is on the screen but what rows first to k - 1 look like. */
  ghost predicate NothingElse(t: Profile, job: Job, screen: map<Place, Glyph>, k: nat)
    requires job.Valid()
  {
    forall p: Place :: p in screen ==> exists i: nat :: i < k && Pictures(t, job, i, p, screen[p])
  }

  /** No non-blank cell of rows first to k - 1 is left undrawn. */
  ghost predicate FilledAreDrawn(job: Job, k: nat)
    requires job.Valid() && k <= job.last + 1
  {
    forall i: nat, j: nat :: job.first <= i < k && IsFilled(job, i, j) ==> j < DrawnColumns(job, i)
  }

  ghost predicate Above(screen: map<Place, Glyph>, r: nat) {
    forall p: Place :: p in screen ==> p.row < r
  }

  // ---- one row ----

  lemma {:induction false} StylesArePlain(t: Profile, faint: bool, job: Job, k: nat)
    requires Serializable(t, faint, job) && job.first <= k <= |job.lines|
    ensures IsPlain(t, job.nul, faint, job.Before(k).style)
    ensures k < |job.lines| ==> IsPlain(t, job.nul, faint, job.After(k).style)
    decreases k
  {
    if k > job.first {
      StylesArePlain(t, faint, job, k - 1);
    }
    if k < |job.lines| {
      StyleFromCells(t, faint, job.nul, job.lines[k].cells, |job.lines[k].cells|, job.Before(k), k);
    }
  }

  lemma {:induction false} StyleFromCells(t: Profile, faint: bool, nul: Cell, cells: seq<Cell>, j: nat, w: Writer, row: nat)
    requires IsRow(t, nul, faint, cells) && j <= |cells| && IsPlain(t, nul, faint, w.style)
    ensures IsPlain(t, nul, faint, Cells(nul, cells, j, w, row).style)
    decreases j
  {
    if j > 0 {
      StyleFromCells(t, faint, nul, cells, j - 1, w, row);
    }
  }

  lemma RowDrawn(t: Profile, faint: bool, job: Job, e: State, k: nat)
    requires Serializable(t, faint, job) && job.first <= k <= job.last
    requires AtRow(t, job, e, k) && Above(e.screen, Target(job, k))
    ensures var cells := job.lines[k].cells;
            var e1 := Feed(t, e, job.RowText(k));
            var n := DrawnColumns(job, k);
            && 0 <= n && Drawn(t, cells, e, e1, Target(job, k), n) && e1.pen == PenOf(t, job.After(k).style)
            && (forall j: nat :: n <= j < |cells| ==> IsEmptyCell(Owner(cells, j)))
  {
    var cells := job.lines[k].cells;
    var w := job.After(k);
    var r := Target(job, k);
    StylesArePlain(t, faint, job, k);
    CellsDrawn(t, job.nul, faint, cells, job.Before(k), e, r, |cells|, k);
    assert Reach(cells, |cells|) == |cells|;
    if job.NextIsWrapped(k) {
      FeedAppend(t, e, w.text, Spaces(w.nulls));
      BlanksDrawn(t, cells, e, Feed(t, e, w.text), r, |cells| - w.nulls, w.nulls);
    }
  }

  lemma DrawsNothingExactly(t: Profile, faint: bool, job: Job, k: nat)
    requires Serializable(t, faint, job) && job.first <= k <= job.last
    ensures DrawnColumns(job, k) == 0 <==> !job.NextIsWrapped(k) && IsBare(job.nul, job.lines[k].cells)
  {
    var cells := job.lines[k].cells;
    PrintsNothingExactly(t, job.nul, faint, cells, job.Before(k), |cells|, k);
    assert Reach(cells, |cells|) == |cells| && cells[..|cells|] == cells;
  }

  // The picture after a row.
  lemma CellIsShown(t: Profile, job: Job, e: State, e1: State, k: nat, n: nat, i: nat, j: nat)
    requires job.Valid() && job.first <= i <= k <= job.last && j < |job.lines[i].cells|
    requires Above(e.screen, Target(job, k)) && Drawn(t, job.lines[k].cells, e, e1, Target(job, k), n)
    requires if i < k then Shows(t, job, e.screen, i, j, Target(job, i)) else j < n
    ensures Shows(t, job, e1.screen, i, j, Target(job, i))
  {
    var p := Place(Target(job, i), j);
    assert p in e1.screen;
    if i < k {
      assert p.row < Target(job, k);
    }
  }

  lemma RowIsShown(t: Profile, job: Job, e: State, e1: State, k: nat, n: nat)
    requires job.Valid() && job.first <= k <= job.last
    requires Above(e.screen, Target(job, k)) && Drawn(t, job.lines[k].cells, e, e1, Target(job, k), n) && n == DrawnColumns(job, k)
    requires Shown(t, job, e.screen, k)
    ensures Shown(t, job, e1.screen, k + 1)
  {
    forall i: nat, j: nat | job.first <= i < k + 1 && j < DrawnColumns(job, i)
      ensures Shows(t, job, e1.screen, i, j, Target(job, i))
    {
      CellIsShown(t, job, e, e1, k, n, i, j);
    }
  }

  lemma NothingElseIsDrawn(t: Profile, job: Job, e: State, e1: State, k: nat, n: nat)
    requires job.Valid() && job.first <= k <= job.last
    requires Above(e.screen, Target(job, k)) && Drawn(t, job.lines[k].cells, e, e1, Target(job, k), n) && n == DrawnColumns(job, k)
    requires NothingElse(t, job, e.screen, k)
    ensures NothingElse(t, job, e1.screen, k + 1)
    ensures Above(e1.screen, Target(job, k) + (if n == 0 then 0 else 1))
  {
    forall p: Place | p in e1.screen
      ensures exists i: nat :: i < k + 1 && Pictures(t, job, i, p, e1.screen[p])
    {
      if p.row == Target(job, k) && p.col < n {
        assert Pictures(t, job, k, p, e1.screen[p]);
      } else {
        assert p in e.screen && e1.screen[p] == e.screen[p];
        var i: nat :| i < k && Pictures(t, job, i, p, e.screen[p]);
      }
    }
  }

  // ---- from row to row ----

  lemma FeedLineBreak(t: Profile, e: State)
    requires e.mode.Ground?
    ensures Feed(t, e, "\r\n") == e.(row := e.row + 1, x := 0)
  {
    assert "\r\n" == "\r" + "\n";
    FeedAppend(t, e, "\r", "\n");
    FeedOne(t, e, '\r');
    FeedOne(t, e.(x := 0), '\n');
  }

  lemma NextRowReached(t: Profile, faint: bool, job: Job, e: State, e1: State, k: nat, n: nat)
    requires Serializable(t, faint, job) && job.first <= k < job.last
    requires AtRow(t, job, e, k) && n == DrawnColumns(job, k)
    requires Drawn(t, job.lines[k].cells, e, e1, Target(job, k), n) && e1.pen == PenOf(t, job.After(k).style)
    ensures AtRow(t, job, Feed(t, e1, job.Separator(k)), k + 1)
    ensures Feed(t, e1, job.Separator(k)).screen == e1.screen
    ensures Target(job, k + 1) == Target(job, k) + (if n == 0 && IsWrappedOnto(job, k) then 0 else 1)
  {
    DrawsNothingExactly(t, faint, job, k);
    assert Swallows(job, k) <==> n == 0 && IsWrappedOnto(job, k);
    if !job.NextIsWrapped(k) {
      FeedLineBreak(t, e1);
    }
  }

  ghost predicate Replayed(t: Profile, job: Job, e: State, k: nat)
    requires job.Valid() && job.first <= k <= job.last
  {
    && AtRow(t, job, e, k) && Above(e.screen, Target(job, k))
    && Shown(t, job, e.screen, k) && NothingElse(t, job, e.screen, k) && FilledAreDrawn(job, k)
  }

  lemma OneMoreRow(t: Profile, faint: bool, job: Job, e: State, k: nat)
    requires Serializable(t, faint, job) && job.first <= k < job.last && Replayed(t, job, e, k)
    ensures Replayed(t, job, Feed(t, Feed(t, e, job.RowText(k)), job.Separator(k)), k + 1)
  {
    RowDrawn(t, faint, job, e, k);
    var e1 := Feed(t, e, job.RowText(k));
    var n: nat := DrawnColumns(job, k);
    RowIsShown(t, job, e, e1, k, n);
    NothingElseIsDrawn(t, job, e, e1, k, n);
    NextRowReached(t, faint, job, e, e1, k, n);
  }

  lemma StartReplayed(t: Profile, faint: bool, job: Job)
    requires Serializable(t, faint, job)
    ensures job.Upto(job.first) == "" && Feed(t, Start(t), "") == Start(t) && Replayed(t, job, Start(t), job.first)
  {
  }

  lemma {:induction false} UptoReplayed(t: Profile, faint: bool, job: Job, k: nat)
    requires Serializable(t, faint, job) && job.first <= k <= job.last
    ensures Replayed(t, job, Feed(t, Start(t), job.Upto(k)), k)
    decreases k
  {
    if k == job.first {
      StartReplayed(t, faint, job);
    } else {
      UptoReplayed(t, faint, job, k - 1);
      OneMoreRow(t, faint, job, Feed(t, Start(t), job.Upto(k - 1)), k - 1);
      FeedThree(t, Start(t), job.Upto(k - 1), job.RowText(k - 1), job.Separator(k - 1));
    }
  }

  lemma ThroughReplayed(t: Profile, faint: bool, job: Job, k: nat)
    requires Serializable(t, faint, job) && job.first <= k <= job.last
    ensures var e := Feed(t, Start(t), job.Through(k));
            e.mode.Ground? && e.pen == PenOf(t, job.After(k).style)
            && Shown(t, job, e.screen, k + 1) && NothingElse(t, job, e.screen, k + 1) && FilledAreDrawn(job, k + 1)
  {
    var e := Feed(t, Start(t), job.Upto(k));
    UptoReplayed(t, faint, job, k);
    RowDrawn(t, faint, job, e, k);
    var n: nat := DrawnColumns(job, k);
    RowIsShown(t, job, e, Feed(t, e, job.RowText(k)), k, n);
    NothingElseIsDrawn(t, job, e, Feed(t, e, job.RowText(k)), k, n);
    FeedAppend(t, Start(t), job.Upto(k), job.RowText(k));
  }

  // ---- the rows left off ----

  predicate AllEmpty(cells: seq<Cell>) {
    forall j :: 0 <= j < |cells| && cells[j].width != 0 ==> IsEmptyCell(cells[j])
  }

  // A row is the last with content, or is blank and changes no style.
  lemma {:induction false} RowContent(nul: Cell, cells: seq<Cell>, j: nat, w: Writer, row: nat)
    requires j <= |cells|
    ensures var v := Cells(nul, cells, j, w, row);
            v.content == row || (v.content == w.content && v.style == w.style && AllEmpty(cells[..j]))
    decreases j
  {
    if j > 0 {
      RowContent(nul, cells, j - 1, w, row);
      assert forall i :: 0 <= i < j - 1 ==> cells[..j][i] == cells[..j - 1][i];
    }
  }

  lemma {:induction false} RowsLeftOff(job: Job, k: nat)
    requires job.Valid() && job.first <= k <= job.last
    ensures var m := job.After(k).content;
            job.first <= m <= k && job.After(m).style == job.After(k).style
            && forall i: nat :: m < i <= k ==> AllEmpty(job.lines[i].cells)
    decreases k
  {
    var cells := job.lines[k].cells;
    RowContent(job.nul, cells, |cells|, job.Before(k), k);
    assert cells[..|cells|] == cells;
    if k > job.first {
      RowsLeftOff(job, k - 1);
    }
  }

  lemma BlankRowOwners(t: Profile, nul: Cell, faint: bool, cells: seq<Cell>)
    requires IsRow(t, nul, faint, cells) && AllEmpty(cells)
    ensures forall j: nat :: j < |cells| ==> IsEmptyCell(Owner(cells, j))
  {
  }

  lemma BlankRowsHoldNothing(t: Profile, faint: bool, job: Job, k: nat)
    requires Serializable(t, faint, job) && k <= job.last && forall i: nat :: k < i <= job.last ==> AllEmpty(job.lines[i].cells)
    ensures forall i: nat, j: nat :: k < i <= job.last ==> !IsFilled(job, i, j)
  {
    forall i: nat | k < i <= job.last
      ensures forall j: nat :: j < |job.lines[i].cells| ==> IsEmptyCell(Owner(job.lines[i].cells, j))
    {
      BlankRowOwners(t, job.nul, faint, job.lines[i].cells);
    }
  }

  /**
   * Fed to an empty terminal of the buffer's width, the rows written draw every non-blank cell
   * with its text and style in its column of its row's line, draw nothing the rows do not
   * look like, and leave the pen with the style the serializer has noted.
   */
  lemma Replay(t: Profile, faint: bool, job: Job, rows: nat)
    requires Serializable(t, faint, job)
    ensures var e := Feed(t, Start(t), job.Content(rows));
            && e.mode.Ground? && e.pen == PenOf(t, job.After(job.last).style)
            && job.LastKept(rows) <= job.last && IsPictureOf(t, job, e.screen, job.LastKept(rows))
            && FilledAreShown(t, job, e.screen)
  {
    var k := job.LastKept(rows);
    RowsLeftOff(job, job.last);
    ThroughReplayed(t, faint, job, k);
    BlankRowsHoldNothing(t, faint, job, k);
    AllAreShown(t, job, Feed(t, Start(t), job.Content(rows)).screen, k);
  }

  /** The screen is what rows first to k draw, each on its line. */
  ghost predicate IsPictureOf(t: Profile, job: Job, screen: map<Place, Glyph>, k: nat)
    requires job.Valid() && k <= job.last
  {
    Shown(t, job, screen, k + 1) && NothingElse(t, job, screen, k + 1)
  }

  ghost predicate FilledAreShown(t: Profile, job: Job, screen: map<Place, Glyph>)
    requires job.Valid()
  {
    forall i: nat, j: nat :: job.first <= i <= job.last && IsFilled(job, i, j) ==> Shows(t, job, screen, i, j, Target(job, i))
  }

  lemma AllAreShown(t: Profile, job: Job, screen: map<Place, Glyph>, k: nat)
    requires job.Valid() && k <= job.last && Shown(t, job, screen, k + 1) && FilledAreDrawn(job, k + 1)
    requires forall i: nat, j: nat :: k < i <= job.last ==> !IsFilled(job, i, j)
    ensures FilledAreShown(t, job, screen)
  {
  }

  // ---- when every cell is in its place ----

  /** Every non-blank cell is in its row and column. */
  ghost predicate InPlace(t: Profile, job: Job, screen: map<Place, Glyph>)
    requires job.Valid()
  {
    forall i: nat, j: nat :: job.first <= i <= job.last && IsFilled(job, i, j) ==> Shows(t, job, screen, i, j, i - job.first)
  }

  lemma ShownInPlace(t: Profile, job: Job, screen: map<Place, Glyph>)
    requires job.Valid() && FilledAreShown(t, job, screen) && forall h: nat :: !Swallows(job, h)
    ensures InPlace(t, job, screen)
  {
    forall i: nat, j: nat | job.first <= i <= job.last && IsFilled(job, i, j)
      ensures Shows(t, job, screen, i, j, i - job.first)
    {
      TargetIsPlaceExactly(job, i);
      assert Shows(t, job, screen, i, j, Target(job, i));
    }
  }

  /** When no row swallows a line break, every non-blank cell is rebuilt in its row and column. */
  lemma ReplayInPlace(t: Profile, faint: bool, job: Job, rows: nat)
    requires Serializable(t, faint, job)
    requires forall h: nat :: !Swallows(job, h)
    ensures InPlace(t, job, Feed(t, Start(t), job.Content(rows)).screen)
  {
    Replay(t, faint, job, rows);
    ShownInPlace(t, job, Feed(t, Start(t), job.Content(rows)).screen);
  }

  predicate SwallowsAbove(job: Job, i: nat) {
    exists h: nat :: h < i && Swallows(job, h)
  }

  /** Row k, one of those kept, is drawn on row i's line and looks in column j as row i does. */
  predicate StandsIn(t: Profile, job: Job, kept: nat, i: nat, j: nat, k: nat)
    requires job.Valid() && kept <= job.last && job.first <= i <= job.last && j < |job.lines[i].cells|
  {
    && i < k <= kept && Target(job, k) == i - job.first && j < DrawnColumns(job, k)
    && Image(t, job.lines[k].cells, j) == Image(t, job.lines[i].cells, j)
  }

  ghost predicate IsStoodInFor(t: Profile, job: Job, kept: nat, i: nat, j: nat)
    requires job.Valid() && kept <= job.last && job.first <= i <= job.last && j < |job.lines[i].cells|
  {
    exists k: nat :: StandsIn(t, job, kept, i, j, k)
  }

  /** Below a row that swallows a line break, each non-blank cell is repeated by the row that takes its line. */
  ghost predicate AllStoodInFor(t: Profile, job: Job, kept: nat)
    requires job.Valid() && kept <= job.last
  {
    forall i: nat, j: nat :: job.first <= i <= job.last && SwallowsAbove(job, i) && IsFilled(job, i, j) ==>
      IsStoodInFor(t, job, kept, i, j)
  }

  // A line at least as far down as row i, when a row before i swallows, is a later row's.
  lemma LineIsLaterRow(job: Job, i: nat, k: nat)
    requires SwallowsAbove(job, i) && job.first <= i && job.first <= k && Target(job, k) == i - job.first
    ensures k > i
  {
    TargetIsPlaceExactly(job, i);
    if k <= i {
      TargetGrows(job, k, i);
    }
  }

  lemma CellInPlaceExactly(t: Profile, job: Job, kept: nat, screen: map<Place, Glyph>, i: nat, j: nat)
    requires job.Valid() && kept <= job.last && IsPictureOf(t, job, screen, kept)
    requires job.first <= i <= job.last && j < |job.lines[i].cells| && SwallowsAbove(job, i)
    ensures Shows(t, job, screen, i, j, i - job.first) <==> IsStoodInFor(t, job, kept, i, j)
  {
    var p := Place(i - job.first, j);
    if Shows(t, job, screen, i, j, i - job.first) {
      var k: nat :| k < kept + 1 && Pictures(t, job, k, p, screen[p]);
      LineIsLaterRow(job, i, k);
      assert StandsIn(t, job, kept, i, j, k);
    }
    if k: nat :| StandsIn(t, job, kept, i, j, k) {
      assert Shows(t, job, screen, k, j, Target(job, k));
    }
  }

  lemma AnyCellInPlaceExactly(t: Profile, job: Job, kept: nat, screen: map<Place, Glyph>, i: nat, j: nat)
    requires job.Valid() && kept <= job.last && IsPictureOf(t, job, screen, kept)
    requires job.first <= i <= job.last && j < |job.lines[i].cells| && Shows(t, job, screen, i, j, Target(job, i))
    ensures Shows(t, job, screen, i, j, i - job.first) <==> (SwallowsAbove(job, i) ==> IsStoodInFor(t, job, kept, i, j))
  {
    if SwallowsAbove(job, i) {
      CellInPlaceExactly(t, job, kept, screen, i, j);
    } else {
      TargetIsPlaceExactly(job, i);
    }
  }

  lemma PictureInPlaceExactly(t: Profile, job: Job, kept: nat, screen: map<Place, Glyph>)
    requires job.Valid() && kept <= job.last && IsPictureOf(t, job, screen, kept) && FilledAreShown(t, job, screen)
    ensures InPlace(t, job, screen) <==> AllStoodInFor(t, job, kept)
  {
    forall i: nat, j: nat | job.first <= i <= job.last && IsFilled(job, i, j)
      ensures Shows(t, job, screen, i, j, i - job.first) <==> (SwallowsAbove(job, i) ==> IsStoodInFor(t, job, kept, i, j))
    {
      AnyCellInPlaceExactly(t, job, kept, screen, i, j);
    }
  }

  /**
   * Every non-blank cell is in its row and column exactly when, below each row that swallows a
   * line break, it is repeated by the row that takes its line.
   */
  lemma InPlaceExactly(t: Profile, faint: bool, job: Job, rows: nat)
    requires Serializable(t, faint, job)
    ensures job.LastKept(rows) <= job.last
    ensures InPlace(t, job, Feed(t, Start(t), job.Content(rows)).screen) <==> AllStoodInFor(t, job, job.LastKept(rows))
  {
    Replay(t, faint, job, rows);
    PictureInPlaceExactly(t, job, job.LastKept(rows), Feed(t, Start(t), job.Content(rows)).screen);
  }

  /** A cell showing something other than a blank. */
  predicate IsVisible(cells: seq<Cell>, j: nat) {
    j < |cells| && cells[j].width != 0 && !IsEmptyCell(cells[j]) && cells[j].chars != " "
  }

  /** Row i, or one below it, shows something. */
  ghost predicate VisibleFrom(job: Job, i: nat) {
    exists k: nat, j: nat :: i <= k <= job.last < |job.lines| && IsVisible(job.lines[k].cells, j)
  }

  /** With anything visible below a row that swallows a line break, some non-blank cell is out of place. */
  lemma {:induction false} VisibleBelowIsMissing(t: Profile, faint: bool, job: Job, kept: nat, i: nat)
    requires Serializable(t, faint, job) && kept <= job.last && job.first <= i && SwallowsAbove(job, i) && VisibleFrom(job, i)
    ensures !AllStoodInFor(t, job, kept)
    decreases job.last - i
  {
    var m: nat, j: nat :| i <= m <= job.last && IsVisible(job.lines[m].cells, j);
    assert IsFilled(job, m, j) && SwallowsAbove(job, m);
    if IsStoodInFor(t, job, kept, m, j) {
      var k: nat :| StandsIn(t, job, kept, m, j, k);
      StandInIsVisible(t, faint, job, m, j, k);
      VisibleBelowIsMissing(t, faint, job, kept, k);
    }
  }

  lemma StandInIsVisible(t: Profile, faint: bool, job: Job, i: nat, j: nat, k: nat)
    requires Serializable(t, faint, job) && i < |job.lines| && k < |job.lines| && IsVisible(job.lines[i].cells, j)
    requires Image(t, job.lines[k].cells, j) == Image(t, job.lines[i].cells, j)
    ensures IsVisible(job.lines[k].cells, j)
  {
  }

  // ---- the cursor ----

  /** The column a terminal takes for one past its last. */
  function Clamped(t: Profile, x: nat): nat {
    if x < t.cols then x else t.cols - 1
  }

  lemma CursorFed(t: Profile, e: State, row: nat, x: nat)
    requires e.mode.Ground?
    ensures Feed(t, e, Control([row + 1, x + 1], 'H')) == e.(row := row, x := Clamped(t, x))
  {
    FeedControl(t, e, [row + 1, x + 1], 'H');
  }

  lemma StyleFed(t: Profile, faint: bool, nul: Cell, e: State, c: Cell, prev: Cell)
    requires e.mode.Ground? && e.pen == PenOf(t, prev) && IsPlain(t, nul, faint, c) && IsPlain(t, nul, faint, prev)
    ensures Feed(t, e, StyleChange(nul, c, prev)) == e.(pen := PenOf(t, c))
  {
    PlainReaches(t, nul, faint, c, prev);
    if DiffStyle(nul, c, prev) != [] {
      FeedControl(t, e, DiffStyle(nul, c, prev), 'm');
    }
  }

  lemma CursorCellIsPlain(t: Profile, faint: bool, job: Job, row: nat, x: nat)
    requires Serializable(t, faint, job)
    ensures IsPlain(t, job.nul, faint, job.CursorCell(row, x))
  {
  }

  lemma EndingFed(t: Profile, faint: bool, nul: Cell, s: State, text: string, c: Cell, prev: Cell, row: nat, x: nat)
    requires var e := Feed(t, s, text); e.mode.Ground? && e.pen == PenOf(t, prev)
    requires IsPlain(t, nul, faint, c) && IsPlain(t, nul, faint, prev)
    ensures Feed(t, s, text + Control([row + 1, x + 1], 'H') + StyleChange(nul, c, prev))
            == Feed(t, s, text).(row := row, x := Clamped(t, x), pen := PenOf(t, c))
  {
    var e := Feed(t, s, text);
    FeedThree(t, s, text, Control([row + 1, x + 1], 'H'), StyleChange(nul, c, prev));
    CursorFed(t, e, row, x);
    StyleFed(t, faint, nul, e.(row := row, x := Clamped(t, x)), c, prev);
  }

  lemma PenIsNoted(t: Profile, faint: bool, job: Job, rows: nat)
    requires Serializable(t, faint, job)
    ensures var e := Feed(t, Start(t), job.Content(rows)); e.mode.Ground? && e.pen == PenOf(t, job.After(job.last).style)
  {
    Replay(t, faint, job, rows);
  }

  /** The cursor's row among those serialised; a cursor above them is put on the first. */
  function CursorLine(job: Job, row: nat): nat {
    if row >= job.first then row - job.first else 0
  }

  lemma OutputParts(job: Job, rows: nat, row: nat, x: nat)
    requires job.Valid()
    ensures job.Output(rows, row, x)
            == job.Content(rows) + Control([CursorLine(job, row) + 1, x + 1], 'H') + StyleChange(job.nul, job.CursorCell(row, x), job.After(job.last).style)
  {
  }

  lemma PlainEnding(t: Profile, faint: bool, job: Job, row: nat, x: nat)
    requires Serializable(t, faint, job)
    ensures IsPlain(t, job.nul, faint, job.CursorCell(row, x)) && IsPlain(t, job.nul, faint, job.After(job.last).style)
  {
    StylesArePlain(t, faint, job, job.last);
    CursorCellIsPlain(t, faint, job, row, x);
  }

  /**
   * After the whole output the pen is that of the cursor's cell and the cursor is in its place:
   * the buffer's, unless it is above the rows serialised or past the last column, where the
   * serializer and the terminal clamp it.
   */
  lemma CursorRestored(t: Profile, faint: bool, job: Job, rows: nat, row: nat, x: nat)
    requires Serializable(t, faint, job)
    ensures var e := Feed(t, Start(t), job.Output(rows, row, x));
            && e.mode.Ground? && e.row == CursorLine(job, row) && e.x == Clamped(t, x)
            && e.pen == PenOf(t, job.CursorCell(row, x))
            && e.screen == Feed(t, Start(t), job.Content(rows)).screen
  {
    PenIsNoted(t, faint, job, rows);
    PlainEnding(t, faint, job, row, x);
    OutputParts(job, rows, row, x);
    EndingFed(t, faint, job.nul, Start(t), job.Content(rows), job.CursorCell(row, x), job.After(job.last).style,
              CursorLine(job, row), x);
  }
}
