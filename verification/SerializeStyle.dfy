/** When the serializer's style changes bring the terminal's pen to the cell's style. */
module SerializeStyle {
  import opened Terminal
  import opened Serialize

  function Shade(mode: int, v: nat, standard: Colour): Colour {
    if IsRgbMode(mode) then Rgb(v) else if mode == 1 then Palette(v) else standard
  }

  /** The pen a cell was drawn with. */
  function PenOf(t: Profile, c: Cell): Pen {
    Pen(Shade(c.fgMode, c.fg, t.fg), Shade(c.bgMode, c.bg, t.bg), c.flags)
  }

  /** The terminal's reset colours are those of its null cell. */
  predicate Fits(t: Profile, nul: Cell) {
    PenOf(t, nul) == t.ResetPen()
  }

  predicate IsShade(mode: int, v: nat) {
    (IsRgbMode(mode) ==> v < 0x100_0000) && (mode == 1 ==> v < 256)
  }

  predicate HasShades(c: Cell) {
    IsShade(c.fgMode, c.fg) && IsShade(c.bgMode, c.bg)
  }

  // ---- colours ----

  lemma ThreeBytes(v: nat)
    requires v < 0x100_0000
    ensures (v / 0x1_0000 % 256) * 0x1_0000 + (v / 0x100 % 256) * 0x100 + v % 256 == v
  {
    var mid := v / 0x100;
    assert v == 256 * mid + v % 256;
    assert mid == 256 * (v / 0x1_0000) + mid % 256;
  }

  lemma RgbApplied(t: Profile, p: Pen, base: nat, v: nat, rest: seq<nat>)
    requires (base == 38 || base == 48) && v < 0x100_0000
    ensures Sgr(t, p, [base, 2, v / 0x1_0000 % 256, v / 0x100 % 256, v % 256] + rest) == Sgr(t, Extended(p, base, Rgb(v)), rest)
  {
    ThreeBytes(v);
    assert ([base, 2, v / 0x1_0000 % 256, v / 0x100 % 256, v % 256] + rest)[5..] == rest;
  }

  lemma SimpleApplied(t: Profile, p: Pen, code: nat, rest: seq<nat>)
    requires code != 38 && code != 48
    ensures Sgr(t, p, [code] + rest) == Sgr(t, SgrOne(t, p, code), rest)
  {
    assert ([code] + rest)[1..] == rest;
  }

  lemma PaletteApplied(t: Profile, p: Pen, base: nat, v: nat, rest: seq<nat>)
    requires base == 38 || base == 48
    ensures Sgr(t, p, [base, 5, v] + rest) == Sgr(t, Extended(p, base, Palette(v)), rest)
  {
    assert ([base, 5, v] + rest)[3..] == rest;
  }

  // One of the sixteen colours with codes of their own.
  lemma EightApplied(t: Profile, p: Pen, v: nat, base: nat, low: nat, high: nat)
    requires v < 16 && (base, low, high) in {(38, 30, 90), (48, 40, 100)}
    ensures var code := if v / 8 % 2 == 1 then high + v % 8 else low + v % 8;
            code != 38 && code != 48 && SgrOne(t, p, code) == Extended(p, base, Palette(v))
  {
    if v < 8 {
      assert v / 8 == 0 && v % 8 == v;
    } else {
      assert v / 8 == 1 && v % 8 == v - 8;
    }
  }

  lemma ColourApplied(t: Profile, p: Pen, mode: int, v: nat, base: nat, low: nat, high: nat, rest: seq<nat>)
    requires IsShade(mode, v) && (base, low, high) in {(38, 30, 90), (48, 40, 100)}
    ensures Sgr(t, p, ColourCodes(mode, v, base, low, high) + rest)
            == Sgr(t, Extended(p, base, Shade(mode, v, if base == 38 then t.fg else t.bg)), rest)
  {
    if IsRgbMode(mode) {
      RgbApplied(t, p, base, v, rest);
    } else if mode == 1 && v >= 16 {
      PaletteApplied(t, p, base, v, rest);
    } else if mode == 1 {
      EightApplied(t, p, v, base, low, high);
      SimpleApplied(t, p, if v / 8 % 2 == 1 then high + v % 8 else low + v % 8, rest);
    } else {
      SimpleApplied(t, p, base + 1, rest);
    }
  }

  lemma ColoursApplied(t: Profile, p: Pen, c: Cell, prev: Cell)
    requires HasShades(c) && p.fg == PenOf(t, prev).fg && p.bg == PenOf(t, prev).bg
    ensures Sgr(t, p, FgCodes(c, prev) + BgCodes(c, prev)) == Pen(PenOf(t, c).fg, PenOf(t, c).bg, p.flags)
  {
    var bgCodes := BgCodes(c, prev);
    var p1 := p.(fg := PenOf(t, c).fg);
    if EqualFg(c, prev) {
      assert [] + bgCodes == bgCodes && p1 == p;
    } else {
      ColourApplied(t, p, c.fgMode, c.fg, 38, 30, 90, bgCodes);
    }
    if !EqualBg(c, prev) {
      ColourApplied(t, p1, c.bgMode, c.bg, 48, 40, 100, []);
      assert bgCodes + [] == bgCodes;
    }
  }

  // ---- flags ----

  /** What the code for an attribute does. */
  function Changed(g: Flags, a: Attribute, on: bool): Flags {
    match a
    case Inverse => g.(inverse := on)
    case Bold => if on then g.(bold := true) else g.(bold := false, dim := false)
    case Underline => g.(underline := on)
    case Blink => g.(blink := on)
    case Invisible => g.(invisible := on)
    case Italic => g.(italic := on)
    case Dim => if on then g.(dim := true) else g.(bold := false, dim := false)
    case Strikethrough => g.(strikethrough := on)
  }

  lemma CodeApplied(t: Profile, p: Pen, a: Attribute, on: bool)
    ensures var code := if on then a.On() else a.Off();
            code < 38 && SgrOne(t, p, code) == p.(flags := Changed(p.flags, a, on))
  {
  }

  /** The flags reached from h by the codes for going from g to f. */
  function AfterCodes(attributes: seq<Attribute>, f: Flags, g: Flags, h: Flags): Flags {
    if attributes == [] then h
    else
      AfterCodes(attributes[1..], f, g, NextFlags(attributes[0], f, g, h))
  }

  function NextFlags(a: Attribute, f: Flags, g: Flags, h: Flags): Flags {
    if a.Of(f) == a.Of(g) then h else Changed(h, a, a.Of(f))
  }

  lemma {:induction false} FlagCodesApplied(t: Profile, p: Pen, attributes: seq<Attribute>, f: Flags, g: Flags, rest: seq<nat>)
    ensures Sgr(t, p, FlagCodes(attributes, f, g, rest)) == Sgr(t, p.(flags := AfterCodes(attributes, f, g, p.flags)), rest)
    decreases |attributes|
  {
    if attributes != [] {
      var a := attributes[0];
      var more := FlagCodes(attributes[1..], f, g, rest);
      if a.Of(f) == a.Of(g) {
        assert [] + more == more;
        FlagCodesApplied(t, p, attributes[1..], f, g, rest);
      } else {
        CodeApplied(t, p, a, a.Of(f));
        SimpleApplied(t, p, if a.Of(f) then a.On() else a.Off(), more);
        FlagCodesApplied(t, p.(flags := Changed(p.flags, a, a.Of(f))), attributes[1..], f, g, rest);
      }
    }
  }

  lemma AfterCode(a: Attribute, more: seq<Attribute>, f: Flags, g: Flags, h: Flags)
    ensures AfterCodes([a] + more, f, g, h) == AfterCodes(more, f, g, NextFlags(a, f, g, h))
  {
    assert ([a] + more)[1..] == more;
  }

  /** Code 22 ends both bold and faint, so a change that ends just one of them can undo the other. */
  predicate IntensityLost(f: Flags, g: Flags) {
    (f.bold && g.dim && !f.dim) || (f.dim && g.dim && g.bold && !f.bold)
  }

  predicate IsIntensity(a: Attribute) {
    a == Bold || a == Dim
  }

  lemma OwnCodeNext(a: Attribute, f: Flags, g: Flags, h: Flags, x: Attribute)
    requires !IsIntensity(x) && (x.Of(h) == x.Of(g) || x.Of(h) == x.Of(f))
    ensures x.Of(NextFlags(a, f, g, h)) == if x == a then x.Of(f) else x.Of(h)
  {
  }

  lemma QuietNext(a: Attribute, f: Flags, g: Flags, h: Flags)
    requires !IsIntensity(a)
    ensures NextFlags(a, f, g, h).bold == h.bold && NextFlags(a, f, g, h).dim == h.dim
  {
    match a
    case Inverse =>
    case Underline =>
    case Blink =>
    case Invisible =>
    case Italic =>
    case Strikethrough =>
  }

  lemma EveryAttribute(a: Attribute)
    ensures a in ATTRIBUTES
  {
    assert ATTRIBUTES[0] == Inverse && ATTRIBUTES[1] == Bold && ATTRIBUTES[2] == Underline && ATTRIBUTES[3] == Blink;
    assert ATTRIBUTES[4] == Invisible && ATTRIBUTES[5] == Italic && ATTRIBUTES[6] == Dim && ATTRIBUTES[7] == Strikethrough;
  }

  // Attributes with an end code of their own are reached.
  lemma {:induction false} OwnCodeReached(attributes: seq<Attribute>, f: Flags, g: Flags, h: Flags, x: Attribute)
    requires !IsIntensity(x) && (x.Of(h) == x.Of(g) || x.Of(h) == x.Of(f))
    ensures x in attributes ==> x.Of(AfterCodes(attributes, f, g, h)) == x.Of(f)
    ensures x !in attributes ==> x.Of(AfterCodes(attributes, f, g, h)) == x.Of(h)
    decreases |attributes|
  {
    if attributes != [] {
      var a := attributes[0];
      OwnCodeNext(a, f, g, h, x);
      OwnCodeReached(attributes[1..], f, g, NextFlags(a, f, g, h), x);
    }
  }

  // They leave the intensities alone.
  lemma {:induction false} OthersKeepIntensity(quiet: seq<Attribute>, more: seq<Attribute>, f: Flags, g: Flags, h: Flags) returns (k: Flags)
    requires forall i :: 0 <= i < |quiet| ==> !IsIntensity(quiet[i])
    ensures AfterCodes(quiet + more, f, g, h) == AfterCodes(more, f, g, k) && k.bold == h.bold && k.dim == h.dim
    decreases |quiet|
  {
    if quiet == [] {
      assert quiet + more == more;
      k := h;
    } else {
      var a := quiet[0];
      var h1 := NextFlags(a, f, g, h);
      QuietNext(a, f, g, h);
      assert quiet + more == [a] + (quiet[1..] + more);
      AfterCode(a, quiet[1..] + more, f, g, h);
      k := OthersKeepIntensity(quiet[1..], more, f, g, h1);
    }
  }

  lemma IntensityCodes(f: Flags, g: Flags, a: Flags, c: Flags)
    requires a.bold == g.bold && a.dim == g.dim
    requires c.bold == NextFlags(Bold, f, g, a).bold && c.dim == NextFlags(Bold, f, g, a).dim
    ensures var d := NextFlags(Dim, f, g, c);
            (d.bold == f.bold && d.dim == f.dim) <==> !IntensityLost(f, g)
  {
  }

  lemma IntensityReached(f: Flags, g: Flags)
    ensures var h := AfterCodes(ATTRIBUTES, f, g, g);
            (h.bold == f.bold && h.dim == f.dim) <==> !IntensityLost(f, g)
  {
    var tail := [Dim] + [Strikethrough];
    var middle := [Underline, Blink, Invisible, Italic] + tail;
    assert ATTRIBUTES == [Inverse] + ([Bold] + middle);
    var a := OthersKeepIntensity([Inverse], [Bold] + middle, f, g, g);
    AfterCode(Bold, middle, f, g, a);
    var c := OthersKeepIntensity([Underline, Blink, Invisible, Italic], tail, f, g, NextFlags(Bold, f, g, a));
    AfterCode(Dim, [Strikethrough], f, g, c);
    assert [Strikethrough] + [] == [Strikethrough];
    var e := OthersKeepIntensity([Strikethrough], [], f, g, NextFlags(Dim, f, g, c));
    IntensityCodes(f, g, a, c);
  }

  lemma FlagsReached(f: Flags, g: Flags)
    ensures AfterCodes(ATTRIBUTES, f, g, g) == f <==> !IntensityLost(f, g)
  {
    var h := AfterCodes(ATTRIBUTES, f, g, g);
    forall x: Attribute | !IsIntensity(x)
      ensures x.Of(h) == x.Of(f)
    {
      EveryAttribute(x);
      OwnCodeReached(ATTRIBUTES, f, g, g, x);
    }
    assert Inverse.Of(h) == Inverse.Of(f) && Underline.Of(h) == Underline.Of(f) && Blink.Of(h) == Blink.Of(f);
    assert Invisible.Of(h) == Invisible.Of(f) && Italic.Of(h) == Italic.Of(f) && Strikethrough.Of(h) == Strikethrough.Of(f);
    IntensityReached(f, g);
  }

  // ---- the whole change ----

  /** Whether the change of style from prev to c can be relied on. */
  predicate Reaches(t: Profile, nul: Cell, c: Cell, prev: Cell) {
    if EqualFg(c, prev) && EqualBg(c, prev) && c.flags == prev.flags then true
    else if IsAttributeDefault(nul, c) then
      PenOf(t, c) == if IsAttributeDefault(nul, prev) then PenOf(t, prev) else t.ResetPen()
    else !IntensityLost(c.flags, prev.flags)
  }

  /**
   * The parameters written for a change of style take a pen with the old style to the new one
   * exactly when no intensity is lost and the null cell's colour numbers, if the cell has
   * them, mean the null cell's colours.
   */
  lemma DiffReachesExactly(t: Profile, nul: Cell, c: Cell, prev: Cell)
    requires HasShades(c)
    ensures Sgr(t, PenOf(t, prev), DiffStyle(nul, c, prev)) == PenOf(t, c) <==> Reaches(t, nul, c, prev)
  {
    var p := PenOf(t, prev);
    if EqualFg(c, prev) && EqualBg(c, prev) && c.flags == prev.flags {
      assert p == PenOf(t, c);
    } else if IsAttributeDefault(nul, c) {
      if !IsAttributeDefault(nul, prev) {
        assert [0] + [] == [0];
        SimpleApplied(t, p, 0, []);
      }
    } else {
      FlagCodesApplied(t, p, ATTRIBUTES, c.flags, prev.flags, FgCodes(c, prev) + BgCodes(c, prev));
      ColoursApplied(t, p.(flags := AfterCodes(ATTRIBUTES, c.flags, prev.flags, prev.flags)), c, prev);
      FlagsReached(c.flags, prev.flags);
    }
  }

  const FAINT := NO_FLAGS.(dim := true)
  const FAINT_AND_BOLD := NO_FLAGS.(dim := true, bold := true)

  /** From bold and faint to faint alone: code 22 ends both. */
  lemma EndingBoldEndsFaint(t: Profile, nul: Cell)
    ensures var prev := Cell(97, "a", 1, -1, 0xCCCCCC, -1, 0, FAINT_AND_BOLD);
            var c := prev.(flags := FAINT);
            Sgr(t, PenOf(t, prev), DiffStyle(nul, c, prev)) != PenOf(t, c)
  {
    var prev := Cell(97, "a", 1, -1, 0xCCCCCC, -1, 0, FAINT_AND_BOLD);
    assert IntensityLost(FAINT, FAINT_AND_BOLD);
    DiffReachesExactly(t, nul, prev.(flags := FAINT), prev);
  }

  // ---- cells for which every change can be relied on ----

  /**
   * Usable colours, the null cell's numbers used only for its colours, and no mixing of the
   * two intensities: faint cells only if `faint`, bold ones only otherwise.
   */
  predicate IsPlain(t: Profile, nul: Cell, faint: bool, c: Cell) {
    && HasShades(c)
    && (IsAttributeDefault(nul, c) ==> PenOf(t, c) == t.ResetPen())
    && (if faint then !c.flags.bold else !c.flags.dim)
  }

  lemma PlainReaches(t: Profile, nul: Cell, faint: bool, c: Cell, prev: Cell)
    requires IsPlain(t, nul, faint, c) && IsPlain(t, nul, faint, prev)
    ensures Sgr(t, PenOf(t, prev), DiffStyle(nul, c, prev)) == PenOf(t, c)
  {
    DiffReachesExactly(t, nul, c, prev);
  }

  /** A screen in RGB whose null cell is RGB too has only plain cells, if none is faint. */
  lemma RgbIsPlain(t: Profile, nul: Cell, c: Cell)
    requires Fits(t, nul) && IsRgbMode(nul.fgMode) && IsRgbMode(nul.bgMode)
    requires IsRgbMode(c.fgMode) && IsRgbMode(c.bgMode) && c.fg < 0x100_0000 && c.bg < 0x100_0000 && !c.flags.dim
    ensures IsPlain(t, nul, false, c)
  {
  }

  /** Writing nothing for a change is an equivalence between styles. */
  predicate SameStyle(nul: Cell, a: Cell, b: Cell) {
    (EqualFg(a, b) && EqualBg(a, b) && a.flags == b.flags) || (IsAttributeDefault(nul, a) && IsAttributeDefault(nul, b))
  }

  lemma NothingWrittenExactly(nul: Cell, c: Cell, prev: Cell)
    ensures DiffStyle(nul, c, prev) == [] <==> SameStyle(nul, c, prev)
  {
    if !SameStyle(nul, c, prev) && !IsAttributeDefault(nul, c) {
      var colours := FgCodes(c, prev) + BgCodes(c, prev);
      FlagsDiffer(ATTRIBUTES, c.flags, prev.flags, colours);
      SomeFlagDiffers(c.flags, prev.flags);
      assert (EqualFg(c, prev) && EqualBg(c, prev)) || |colours| > 0;
    }
  }

  lemma {:induction false} FlagsDiffer(attributes: seq<Attribute>, f: Flags, g: Flags, rest: seq<nat>)
    ensures |FlagCodes(attributes, f, g, rest)| >= |rest|
    ensures (exists a: Attribute :: a in attributes && a.Of(f) != a.Of(g)) ==> |FlagCodes(attributes, f, g, rest)| > |rest|
    decreases |attributes|
  {
    if attributes != [] {
      FlagsDiffer(attributes[1..], f, g, rest);
    }
  }

  lemma SomeFlagDiffers(f: Flags, g: Flags)
    ensures f == g || exists a: Attribute :: a in ATTRIBUTES && a.Of(f) != a.Of(g)
  {
    forall a: Attribute ensures a in ATTRIBUTES { EveryAttribute(a); }
    assert f == g <==> Inverse.Of(f) == Inverse.Of(g) && Bold.Of(f) == Bold.Of(g) && Underline.Of(f) == Underline.Of(g)
                       && Blink.Of(f) == Blink.Of(g) && Invisible.Of(f) == Invisible.Of(g) && Italic.Of(f) == Italic.Of(g)
                       && Dim.Of(f) == Dim.Of(g) && Strikethrough.Of(f) == Strikethrough.Of(g);
  }
}
