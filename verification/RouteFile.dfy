/** The web route file of the gateway (daemon/opencode-gateway.c): its lines and their scanning. */
module RouteFile {
  import opened Util
  import opened CText
  import opened Decimal

  datatype Route = Route(prefix: string, host: string, target: string, port: int, isUds: bool, uid: nat, auth: int)

  /** An address family's routes keep their address in one of two fields. */
  function Address(r: Route): string {
    if r.isUds then r.target else r.host
  }

  const UIDS: nat := 0x1_0000_0000

  /** (int)uid, and back. */
  function AsInt(uid: nat): int {
    if uid < 0x8000_0000 then uid else uid - UIDS
  }

  function AsUid(n: int): (uid: nat)
    ensures uid < UIDS
  {
    n % UIDS
  }

  // ---- writing ----

  function Kind(isUds: bool): string {
    if isUds then "uds" else "tcp"
  }

  /** A route's line up to the owner's uid, and any text after that. */
  function LineWith(r: Route, tail: string): string {
    r.prefix + AfterPrefix(r, tail)
  }

  function AfterPrefix(r: Route, tail: string): (s: string)
    ensures s != "" && s[0] == ' '
  {
    " " + (Kind(r.isUds) + AfterKind(r, tail))
  }

  function AfterKind(r: Route, tail: string): (s: string)
    ensures s != "" && s[0] == ' '
  {
    " " + (Address(r) + Numbers(r, tail))
  }

  function Numbers(r: Route, tail: string): (s: string)
    ensures s != "" && s[0] == ' '
  {
    NumberThen(r.port, NumberThen(AsInt(r.uid), tail))
  }

  function Fields(r: Route, end: string): string {
    LineWith(r, NumberThen(r.auth, end))
  }

  function Lines(routes: seq<Route>): string {
    if routes == [] then "" else Fields(routes[0], "") + "\n" + Lines(routes[1..])
  }

  /** A line beginning with '#', short enough to be read whole. */
  predicate IsComment(line: string) {
    line != "" && line[0] == '#' && |line| + 1 <= LINE && '\n' !in line
  }

  predicate AreComments(lines: seq<string>) {
    forall i :: 0 <= i < |lines| ==> IsComment(lines[i])
  }

  function Comments(lines: seq<string>, rest: string): string {
    if lines == [] then rest else lines[0] + "\n" + Comments(lines[1..], rest)
  }

  /** flush_web_routes: the file's explanatory comments, then a line a route. */
  function FlushText(header: seq<string>, routes: seq<Route>): string {
    Comments(header, Lines(routes))
  }

  // ---- reading ----

  const LINE: nat := 511

  function Cut(s: string, n: nat): string {
    if |s| <= n then s else s[..n]
  }

  datatype Typed = Typed(prefix: string, kind: string, target: string, numbers: seq<int>)

  /** Prefix, type and target, and up to three numbers. */
  function ScanTyped(line: string): Option<Typed> {
    var a := ScanWord(line, 255);
    if a.None? then None else
    var b := ScanWord(a.value.1, 31);
    if b.None? then None else
    var c := ScanWord(b.value.1, 255);
    if c.None? then None else
    Some(Typed(a.value.0, b.value.0, c.value.0, ScanInts(c.value.1, 3)))
  }

  function NumberAt(numbers: seq<int>, i: nat, default: int): int {
    if i < |numbers| then numbers[i] else default
  }

  predicate IsTyped(t: Typed) {
    |t.numbers| >= 2 && (t.kind == "tcp" || t.kind == "uds")
  }

  /** A socket route leaves the slot's host as it was. */
  function TypedRoute(t: Typed, slotHost: string): Route
    requires IsTyped(t)
  {
    var isUds := t.kind == "uds";
    Route(t.prefix, if isUds then slotHost else Cut(t.target, 63), t.target,
          t.numbers[0], isUds, AsUid(t.numbers[1]), NumberAt(t.numbers, 2, 0))
  }

  /** The older form without a type; uidBefore is what the first scan left in the variable. */
  function LegacyRoute(line: string, uidBefore: int): Option<Route> {
    var a := ScanWord(line, 255);
    if a.None? then None else
    var b := ScanWord(a.value.1, 63);
    if b.None? then None else
    var numbers := ScanInts(b.value.1, 3);
    if numbers == [] then None
    else Some(Route(a.value.0, b.value.0, b.value.0, numbers[0], false, AsUid(NumberAt(numbers, 1, uidBefore)), NumberAt(numbers, 2, 0)))
  }

  /** One line, for a slot with this host. */
  function LoadLine(line: string, slotHost: string): Option<Route> {
    if line == "" || line[0] == '#' || line[0] == '\n' || line[0] == '\r' then None
    else
      var t := ScanTyped(line);
      if t.Some? && IsTyped(t.value) then Some(TypedRoute(t.value, slotHost))
      else
        LegacyRoute(line, if t.Some? then NumberAt(t.value.numbers, 1, 0) else 0)
  }

  /** The routes `load` makes of the pieces read, in order, until the slots are used up. */
  function LoadPieces(load: (string, string) -> Option<Route>, pieces: seq<string>, loaded: seq<Route>, slots: seq<Route>): (r: seq<Route>)
    requires |loaded| <= |slots|
    ensures |r| <= |slots|
    decreases |pieces|
  {
    if pieces == [] || |loaded| == |slots| then loaded
    else
      var r := load(pieces[0], slots[|loaded|].host);
      LoadPieces(load, pieces[1..], if r.Some? then loaded + [r.value] else loaded, slots)
  }

  function LoadText(text: string, slots: seq<Route>): (r: seq<Route>)
    ensures |r| <= |slots|
  {
    LoadPieces(LoadLine, Pieces(text, LINE), [], slots)
  }

  // ---- what survives ----

  predicate IsField(s: string, width: nat) {
    s != "" && HasNoSpace(s) && |s| <= width
  }

  /** Fields without white space, as wide as their buffers allow, and one address. */
  predicate HasFields(r: Route) {
    && IsField(r.prefix, 255)
    && (if r.isUds then IsField(r.target, 255) else IsField(r.host, 63) && r.target == r.host)
    && r.uid < UIDS
  }

  /** The line is read whole; only " 0" at its end, the default, may be cut off. */
  predicate FitsLine(r: Route) {
    |Fields(r, "")| <= LINE || (r.auth == 0 && |LineWith(r, "")| <= LINE)
  }

  predicate IsWritable(r: Route) {
    HasFields(r) && FitsLine(r)
  }

  /** A route whose line is read back: writable, and not taken for a comment. */
  predicate IsStorable(r: Route) {
    IsWritable(r) && r.prefix[0] != '#'
  }

  predicate AreWritable(routes: seq<Route>) {
    forall i :: 0 <= i < |routes| ==> IsWritable(routes[i])
  }

  predicate AreStorable(routes: seq<Route>) {
    forall i :: 0 <= i < |routes| ==> IsStorable(routes[i])
  }

  /** A route as loaded into a slot. */
  function Again(r: Route, slotHost: string): Route {
    if r.isUds then r.(host := slotHost) else r
  }

  /** Routes as loaded into the slots from the k-th on. */
  function Reloaded(routes: seq<Route>, k: nat, slots: seq<Route>): (rs: seq<Route>)
    requires k + |routes| <= |slots|
    ensures |rs| == |routes|
    decreases |routes|
  {
    if routes == [] then [] else [Again(routes[0], slots[k].host)] + Reloaded(routes[1..], k + 1, slots)
  }

  /** The routes whose lines are not comments. */
  function Unhashed(routes: seq<Route>): (rs: seq<Route>)
    ensures |rs| <= |routes|
  {
    if routes == [] then []
    else (if StartsWith(routes[0].prefix, "#") then [] else [routes[0]]) + Unhashed(routes[1..])
  }

  // ---- a line, scanned ----

  lemma UidRoundTrip(uid: nat)
    requires uid < UIDS
    ensures AsUid(AsInt(uid)) == uid
  {
  }

  lemma PrefixIsScanned(r: Route, tail: string)
    requires HasFields(r)
    ensures ScanWord(LineWith(r, tail), 255) == Some((r.prefix, AfterPrefix(r, tail)))
  {
    var rest := AfterPrefix(r, tail);
    assert "" + (r.prefix + rest) == r.prefix + rest;
    ScanPrintedWord("", r.prefix, rest, 255);
  }

  lemma KindIsScanned(r: Route, tail: string)
    ensures ScanWord(AfterPrefix(r, tail), 31) == Some((Kind(r.isUds), AfterKind(r, tail)))
  {
    ScanPrintedWord(" ", Kind(r.isUds), AfterKind(r, tail), 31);
  }

  lemma AddressIsScanned(r: Route, tail: string)
    requires HasFields(r)
    ensures ScanWord(AfterKind(r, tail), 255) == Some((Address(r), Numbers(r, tail)))
  {
    ScanPrintedWord(" ", Address(r), Numbers(r, tail), 255);
  }

  lemma TypedFromWords(line: string, a: (string, string), b: (string, string), c: (string, string))
    requires ScanWord(line, 255) == Some(a) && ScanWord(a.1, 31) == Some(b) && ScanWord(b.1, 255) == Some(c)
    ensures ScanTyped(line) == Some(Typed(a.0, b.0, c.0, ScanInts(c.1, 3)))
  {
  }

  lemma TypedIsScanned(r: Route, tail: string, more: seq<int>)
    requires HasFields(r) && (tail == "" || !IsDigit(tail[0])) && ScanInts(tail, 1) == more
    ensures ScanTyped(LineWith(r, tail)) == Some(TypedOf(r, more))
  {
    PrefixIsScanned(r, tail);
    KindIsScanned(r, tail);
    AddressIsScanned(r, tail);
    ScanTwoInts(r.port, AsInt(r.uid), tail, more);
    TypedFromWords(LineWith(r, tail), (r.prefix, AfterPrefix(r, tail)), (Kind(r.isUds), AfterKind(r, tail)),
                   (Address(r), Numbers(r, tail)));
  }

  function TypedOf(r: Route, more: seq<int>): Typed {
    Typed(r.prefix, Kind(r.isUds), Address(r), [r.port] + ([AsInt(r.uid)] + more))
  }

  lemma TypedRouteIs(r: Route, more: seq<int>, slotHost: string)
    requires HasFields(r) && NumberAt(more, 0, 0) == r.auth
    ensures var t := TypedOf(r, more); IsTyped(t) && TypedRoute(t, slotHost) == Again(r, slotHost)
  {
    UidRoundTrip(r.uid);
    assert |more| > 0 ==> TypedOf(r, more).numbers[2] == more[0];
  }

  lemma LineStarts(r: Route, tail: string)
    requires HasFields(r)
    ensures var line := LineWith(r, tail);
            line != "" && line[0] != '\n' && line[0] != '\r' && (line[0] == '#' <==> StartsWith(r.prefix, "#"))
  {
    assert LineWith(r, tail)[0] == r.prefix[0];
    assert !IsSpace(r.prefix[0]);
  }

  lemma TypedIsLoaded(line: string, t: Typed, slotHost: string)
    requires line != "" && line[0] != '#' && line[0] != '\n' && line[0] != '\r'
    requires ScanTyped(line) == Some(t) && IsTyped(t)
    ensures LoadLine(line, slotHost) == Some(TypedRoute(t, slotHost))
  {
  }

  /** Whatever stands after the uid, as long as the auth field is scanned from it or left at its default. */
  lemma LineRoundTrip(r: Route, tail: string, more: seq<int>, slotHost: string)
    requires HasFields(r) && (tail == "" || !IsDigit(tail[0])) && ScanInts(tail, 1) == more && NumberAt(more, 0, 0) == r.auth
    ensures LoadLine(LineWith(r, tail), slotHost)
            == if StartsWith(r.prefix, "#") then None else Some(Again(r, slotHost))
  {
    LineStarts(r, tail);
    TypedIsScanned(r, tail, more);
    TypedRouteIs(r, more, slotHost);
    if !StartsWith(r.prefix, "#") {
      TypedIsLoaded(LineWith(r, tail), TypedOf(r, more), slotHost);
    }
  }

  // ---- a line, as text ----

  lemma NumberEnds(n: int, a: string, b: string)
    ensures NumberThen(n, a + b) == NumberThen(n, a) + b
  {
    Regroup(PrintInt(n), a, b);
    Regroup(" ", PrintInt(n) + a, b);
  }

  lemma NumbersEnd(r: Route, a: string, b: string)
    ensures Numbers(r, a + b) == Numbers(r, a) + b
  {
    NumberEnds(AsInt(r.uid), a, b);
    NumberEnds(r.port, NumberThen(AsInt(r.uid), a), b);
  }

  lemma LineEnds(r: Route, a: string, b: string)
    ensures LineWith(r, a + b) == LineWith(r, a) + b
  {
    NumbersEnd(r, a, b);
    Regroup(Address(r), Numbers(r, a), b);
    Regroup(" ", Address(r) + Numbers(r, a), b);
    Regroup(Kind(r.isUds), AfterKind(r, a), b);
    Regroup(" ", Kind(r.isUds) + AfterKind(r, a), b);
    Regroup(r.prefix, AfterPrefix(r, a), b);
  }

  lemma FieldsEnd(r: Route, end: string)
    ensures Fields(r, end) == Fields(r, "") + end
  {
    assert "" + end == end;
    NumberEnds(r.auth, "", end);
    LineEnds(r, NumberThen(r.auth, ""), end);
  }

  predicate IsOneLine(s: string) {
    '\n' !in s
  }

  lemma OneLineJoined(a: string, b: string)
    requires IsOneLine(a) && IsOneLine(b)
    ensures IsOneLine(a + b)
  {
  }

  lemma NumberIsOneLine(n: int, rest: string)
    requires IsOneLine(rest)
    ensures IsOneLine(NumberThen(n, rest))
  {
    assert IsOneLine(PrintInt(n));
    OneLineJoined(PrintInt(n), rest);
    OneLineJoined(" ", PrintInt(n) + rest);
  }

  lemma WordIsOneLine(s: string, width: nat)
    requires IsField(s, width)
    ensures IsOneLine(s)
  {
    assert IsSpace('\n');
  }

  lemma FieldsAreOneLine(r: Route)
    requires IsField(r.prefix, 255) && IsField(Address(r), 255)
    ensures IsOneLine(Fields(r, ""))
  {
    WordIsOneLine(Address(r), 255);
    WordIsOneLine(r.prefix, 255);
    PartsAreOneLine(r);
  }

  lemma PartsAreOneLine(r: Route)
    requires IsOneLine(r.prefix) && IsOneLine(Address(r))
    ensures IsOneLine(Fields(r, ""))
  {
    var tail := NumberThen(r.auth, "");
    NumberIsOneLine(r.auth, "");
    NumberIsOneLine(AsInt(r.uid), tail);
    NumberIsOneLine(r.port, NumberThen(AsInt(r.uid), tail));
    OneLineJoined(Address(r), Numbers(r, tail));
    OneLineJoined(" ", Address(r) + Numbers(r, tail));
    OneLineJoined(Kind(r.isUds), AfterKind(r, tail));
    OneLineJoined(" ", Kind(r.isUds) + AfterKind(r, tail));
    OneLineJoined(r.prefix, AfterPrefix(r, tail));
  }

  // ---- the pieces of a line ----

  /** What fgets makes of a route's line. */
  function LinePieces(r: Route): seq<string> {
    Pieces(Fields(r, "") + "\n", LINE)
  }

  lemma WholeLine(r: Route)
    requires IsOneLine(Fields(r, "")) && |Fields(r, "")| + 1 <= LINE
    ensures LinePieces(r) == [Fields(r, "\n")]
  {
    FirstPiece(Fields(r, ""), "", LINE);
    FieldsEnd(r, "\n");
    assert Fields(r, "") + "\n" + "" == Fields(r, "") + "\n" && Pieces("", LINE) == [];
  }

  lemma CutLine(r: Route)
    requires IsOneLine(Fields(r, "")) && LINE < |Fields(r, "")| + 1 <= 2 * LINE
    ensures LinePieces(r) == [Fields(r, "")[..LINE], Fields(r, "")[LINE..] + "\n"]
  {
    var line := Fields(r, "");
    var rest := line[LINE..];
    CutPiece(line, "", LINE);
    FirstPiece(rest, "", LINE);
    assert line + "\n" + "" == line + "\n" && Pieces("", LINE) == [];
  }

  /** Nothing is loaded from this text. */
  ghost predicate IsIgnored(load: (string, string) -> Option<Route>, piece: string) {
    forall slotHost :: load(piece, slotHost).None?
  }

  ghost predicate IsIgnoredFrom(load: (string, string) -> Option<Route>, pieces: seq<string>, k: nat) {
    forall i :: k <= i < |pieces| ==> IsIgnored(load, pieces[i])
  }

  lemma RemaindersIgnored()
    ensures forall piece :: IsRemainder(piece) ==> IsIgnored(LoadLine, piece)
  {
    LoneWordIgnored("0\n");
    LoneWordIgnored(" 0\n");
  }

  lemma LoneWordIgnored(line: string)
    requires line == "0\n" || line == " 0\n"
    ensures IsIgnored(LoadLine, line)
  {
    assert SkipSpace("0\n") == "0\n" && SkipSpace(" 0\n") == "0\n" by {
      assert " 0\n"[1..] == "0\n";
    }
    assert "0\n"[1..] == "\n" && "\n"[1..] == "";
    assert WordLength("0\n", 255) == 1 + WordLength("\n", 254) == 1;
    assert WordLength("0\n", 63) == 1 && "0\n"[..1] == "0";
    assert ScanWord(line, 255) == Some(("0", "\n"));
    assert SkipSpace("\n") == "" && ScanWord("\n", 31) == None && ScanWord("\n", 63) == None;
  }

  /** What is read of the auth field along with the rest of the route. */
  function AuthText(r: Route): string {
    var n := |Fields(r, "")|;
    if n < LINE then NumberThen(r.auth, "\n") else if n == LINE then NumberThen(r.auth, "") else if n == LINE + 1 then " " else ""
  }

  predicate IsRemainder(piece: string) {
    piece == "\n" || piece == "0\n" || piece == " 0\n"
  }

  lemma DefaultAuth(r: Route)
    requires r.auth == 0
    ensures Fields(r, "") == LineWith(r, "") + " 0" && LineWith(r, " ") == LineWith(r, "") + " "
  {
    assert PrintInt(0) == "0" && NumberThen(0, "") == " 0";
    assert "" + " 0" == " 0" && "" + " " == " ";
    LineEnds(r, "", " 0");
    LineEnds(r, "", " ");
  }

  lemma CutBeforeEnd(line: string, n: nat)
    requires |line| <= n < |line| + 2
    ensures (line + " 0")[..n] == (if n == |line| then line else line + " ")
    ensures (line + " 0")[n..] == if n == |line| then " 0" else "0"
  {
  }

  lemma DefaultAuthCut(r: Route)
    requires IsWritable(r) && |Fields(r, "")| > LINE
    ensures LINE < |Fields(r, "")| <= LINE + 2
    ensures Fields(r, "")[..LINE] == LineWith(r, AuthText(r)) && IsRemainder(Fields(r, "")[LINE..] + "\n")
  {
    DefaultAuth(r);
    CutBeforeEnd(LineWith(r, ""), LINE);
  }

  lemma PiecesOfLine(r: Route)
    requires IsWritable(r)
    ensures LinePieces(r) != [] && LinePieces(r)[0] == LineWith(r, AuthText(r))
    ensures forall i :: 0 < i < |LinePieces(r)| ==> IsRemainder(LinePieces(r)[i])
  {
    FieldsAreOneLine(r);
    if |Fields(r, "")| < LINE {
      WholeLine(r);
    } else if |Fields(r, "")| == LINE {
      CutLine(r);
      assert Fields(r, "")[LINE..] + "\n" == "\n";
    } else {
      DefaultAuthCut(r);
      CutLine(r);
    }
  }

  lemma ScanLast(auth: int, end: string)
    requires end == "" || end == "\n"
    ensures ScanInts(NumberThen(auth, end), 1) == [auth]
  {
    assert ScanInts(end, 0) == [];
    ScanOneMore(auth, end, 0, []);
  }

  lemma AuthIsScanned(r: Route)
    requires IsWritable(r)
    ensures var tail := AuthText(r); (tail == "" || !IsDigit(tail[0])) && NumberAt(ScanInts(tail, 1), 0, 0) == r.auth
  {
    ScanLast(r.auth, "\n");
    ScanLast(r.auth, "");
    assert SkipSpace(" ") == "" by { assert " "[1..] == ""; }
    assert ScanInts(" ", 1) == [] && ScanInts("", 1) == [];
  }

  /** A writable route's line: its first piece is the route, unless it is a comment, and the rest is ignored. */
  lemma WritablePieces(r: Route)
    requires IsWritable(r)
    ensures LinePieces(r) != [] && IsIgnoredFrom(LoadLine, LinePieces(r), 1)
    ensures forall slotHost :: LoadLine(LinePieces(r)[0], slotHost)
                               == if StartsWith(r.prefix, "#") then None else Some(Again(r, slotHost))
  {
    PiecesOfLine(r);
    AuthIsScanned(r);
    RemaindersIgnored();
    forall slotHost
      ensures LoadLine(LinePieces(r)[0], slotHost) == if StartsWith(r.prefix, "#") then None else Some(Again(r, slotHost))
    {
      LineRoundTrip(r, AuthText(r), ScanInts(AuthText(r), 1), slotHost);
    }
  }

  // ---- a file of routes, loaded ----

  lemma FirstPieceLoaded(load: (string, string) -> Option<Route>, piece: string, pieces: seq<string>,
      loaded: seq<Route>, slots: seq<Route>)
    requires |loaded| < |slots|
    ensures var r := load(piece, slots[|loaded|].host);
            LoadPieces(load, [piece] + pieces, loaded, slots) == LoadPieces(load, pieces, if r.Some? then loaded + [r.value] else loaded, slots)
  {
    assert ([piece] + pieces)[1..] == pieces;
  }

  lemma {:induction false} IgnoredPieces(load: (string, string) -> Option<Route>, pieces: seq<string>,
      more: seq<string>, loaded: seq<Route>, slots: seq<Route>)
    requires |loaded| <= |slots| && IsIgnoredFrom(load, pieces, 0)
    ensures LoadPieces(load, pieces + more, loaded, slots) == LoadPieces(load, more, loaded, slots)
    decreases |pieces|
  {
    if pieces == [] {
      assert pieces + more == more;
    } else if |loaded| < |slots| {
      assert pieces + more == [pieces[0]] + (pieces[1..] + more);
      FirstPieceLoaded(load, pieces[0], pieces[1..] + more, loaded, slots);
      IgnoredPieces(load, pieces[1..], more, loaded, slots);
    }
  }

  /** A way of reading that takes every writable route's line back. */
  ghost predicate ReadsBack(load: (string, string) -> Option<Route>) {
    forall r: Route :: IsWritable(r) ==>
      && LinePieces(r) != [] && IsIgnoredFrom(load, LinePieces(r), 1)
      && forall slotHost :: load(LinePieces(r)[0], slotHost) == if StartsWith(r.prefix, "#") then None else Some(Again(r, slotHost))
  }

  lemma LoadLineReadsBack()
    ensures ReadsBack(LoadLine)
  {
    forall r: Route | IsWritable(r)
      ensures LinePieces(r) != [] && IsIgnoredFrom(LoadLine, LinePieces(r), 1)
      ensures forall slotHost :: LoadLine(LinePieces(r)[0], slotHost)
                                 == if StartsWith(r.prefix, "#") then None else Some(Again(r, slotHost))
    {
      WritablePieces(r);
    }
  }

  lemma LineLoaded(load: (string, string) -> Option<Route>, pieces: seq<string>, first: Option<Route>,
      more: seq<string>, loaded: seq<Route>, slots: seq<Route>)
    requires |loaded| < |slots| && pieces != [] && IsIgnoredFrom(load, pieces, 1) && load(pieces[0], slots[|loaded|].host) == first
    ensures LoadPieces(load, pieces + more, loaded, slots)
            == LoadPieces(load, more, if first.Some? then loaded + [first.value] else loaded, slots)
  {
    assert pieces + more == [pieces[0]] + (pieces[1..] + more);
    FirstPieceLoaded(load, pieces[0], pieces[1..] + more, loaded, slots);
    IgnoredPieces(load, pieces[1..], more, if first.Some? then loaded + [first.value] else loaded, slots);
  }

  lemma RouteLoaded(load: (string, string) -> Option<Route>, r: Route, more: seq<string>, loaded: seq<Route>, slots: seq<Route>)
    requires ReadsBack(load) && IsWritable(r) && |loaded| < |slots|
    ensures LoadPieces(load, LinePieces(r) + more, loaded, slots)
            == LoadPieces(load, more, if StartsWith(r.prefix, "#") then loaded else loaded + [Again(r, slots[|loaded|].host)], slots)
  {
    LineLoaded(load, LinePieces(r), if StartsWith(r.prefix, "#") then None else Some(Again(r, slots[|loaded|].host)), more, loaded, slots);
  }

  lemma {:induction false} LinesLoaded(load: (string, string) -> Option<Route>, routes: seq<Route>,
      loaded: seq<Route>, slots: seq<Route>)
    requires ReadsBack(load) && AreWritable(routes) && |loaded| + |routes| <= |slots|
    ensures LoadPieces(load, Pieces(Lines(routes), LINE), loaded, slots) == loaded + Reloaded(Unhashed(routes), |loaded|, slots)
    decreases |routes|
  {
    if routes == [] {
      assert Pieces("", LINE) == [];
    } else {
      var r, rest := routes[0], routes[1..];
      FieldsAreOneLine(r);
      PiecesOfLines(Fields(r, ""), Lines(rest), LINE);
      RouteLoaded(load, r, Pieces(Lines(rest), LINE), loaded, slots);
      if StartsWith(r.prefix, "#") {
        assert Unhashed(routes) == Unhashed(rest) by { assert [] + Unhashed(rest) == Unhashed(rest); }
        LinesLoaded(load, rest, loaded, slots);
      } else {
        var first := Again(r, slots[|loaded|].host);
        LinesLoaded(load, rest, loaded + [first], slots);
        assert ([r] + Unhashed(rest))[1..] == Unhashed(rest);
        Regroup(loaded, [first], Reloaded(Unhashed(rest), |loaded| + 1, slots));
      }
    }
  }

  lemma CommentSkipped(line: string, rest: string, slots: seq<Route>)
    requires IsComment(line)
    ensures LoadPieces(LoadLine, Pieces(line + "\n" + rest, LINE), [], slots) == LoadPieces(LoadLine, Pieces(rest, LINE), [], slots)
  {
    if slots != [] {
      FirstPiece(line, rest, LINE);
      assert (line + "\n")[0] == '#';
      FirstPieceLoaded(LoadLine, line + "\n", Pieces(rest, LINE), [], slots);
    }
  }

  lemma {:induction false} HeaderSkipped(header: seq<string>, rest: string, slots: seq<Route>)
    requires AreComments(header)
    ensures LoadText(Comments(header, rest), slots) == LoadPieces(LoadLine, Pieces(rest, LINE), [], slots)
    decreases |header|
  {
    if header != [] {
      CommentSkipped(header[0], Comments(header[1..], rest), slots);
      HeaderSkipped(header[1..], rest, slots);
    }
  }

  /**
   * What was flushed loads as it was, save for the routes whose prefix begins with '#', which
   * are lost, and for the hosts of socket routes, which stay the slots'.
   */
  lemma FlushThenLoad(header: seq<string>, routes: seq<Route>, slots: seq<Route>)
    requires AreComments(header) && AreWritable(routes) && |routes| <= |slots|
    ensures LoadText(FlushText(header, routes), slots) == Reloaded(Unhashed(routes), 0, slots)
  {
    HeaderSkipped(header, Lines(routes), slots);
    LoadLineReadsBack();
    LinesLoaded(LoadLine, routes, [], slots);
    assert [] + Reloaded(Unhashed(routes), 0, slots) == Reloaded(Unhashed(routes), 0, slots);
  }

  lemma {:induction false} UnhashedExactly(routes: seq<Route>)
    ensures |Unhashed(routes)| == |routes| <==> forall i :: 0 <= i < |routes| ==> !StartsWith(routes[i].prefix, "#")
    ensures |Unhashed(routes)| == |routes| ==> Unhashed(routes) == routes
    decreases |routes|
  {
    if routes != [] {
      UnhashedExactly(routes[1..]);
      assert forall i :: 0 < i < |routes| ==> routes[i] == routes[1..][i - 1];
    }
  }

  /** Writable routes load back, all of them, exactly when no prefix begins with '#'. */
  lemma LoadsBackExactly(header: seq<string>, routes: seq<Route>, slots: seq<Route>)
    requires AreComments(header) && AreWritable(routes) && |routes| <= |slots|
    ensures LoadText(FlushText(header, routes), slots) == Reloaded(routes, 0, slots)
            <==> forall i :: 0 <= i < |routes| ==> !StartsWith(routes[i].prefix, "#")
  {
    FlushThenLoad(header, routes, slots);
    UnhashedExactly(routes);
  }

  /** Into slots that hold the same hosts (their own, or empty ones after a restart) they load as they were. */
  lemma {:induction false} ReloadedIsSame(routes: seq<Route>, k: nat, slots: seq<Route>)
    requires k + |routes| <= |slots| && forall i :: 0 <= i < |routes| && routes[i].isUds ==> slots[k + i].host == routes[i].host
    ensures Reloaded(routes, k, slots) == routes
    decreases |routes|
  {
    if routes != [] {
      ReloadedIsSame(routes[1..], k + 1, slots);
    }
  }

  /** A route whose prefix starts with '#' is published, written, and never read back. */
  lemma HashPrefixIsLost(header: seq<string>, slots: seq<Route>)
    requires AreComments(header) && slots != []
    ensures var r := Route("#a", "x", "x", 80, false, 0, 0);
            IsWritable(r) && LoadText(FlushText(header, [r]), slots) == []
  {
    var r := Route("#a", "x", "x", 80, false, 0, 0);
    assert Print(80) == Print(8) + ['0'] && |Print(8)| == 1 && |Print(0)| == 1;
    FlushThenLoad(header, [r], slots);
    assert [r][1..] == [] && Unhashed([r]) == [];
  }
}
