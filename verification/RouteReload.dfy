/** Exactly which tables a reload of the route file leaves as they were. */
module RouteReload {
  import opened Util
  import opened Decimal
  import opened CText
  import opened RouteFile

  predicate HasUniquePrefixes(rs: seq<Route>) {
    forall i, j :: 0 <= i < j < |rs| ==> rs[i].prefix != rs[j].prefix
  }

  predicate IsCInt(n: int) {
    -0x8000_0000 <= n < 0x8000_0000
  }

  /** What C's types say of a route's numbers. */
  predicate HasCNumbers(r: Route) {
    IsCInt(r.port) && IsCInt(r.auth) && r.uid < UIDS
  }

  predicate HaveCNumbers(rs: seq<Route>) {
    forall i :: 0 <= i < |rs| ==> HasCNumbers(rs[i])
  }

  // ---- where a loaded route comes from ----

  lemma {:induction false} LoadedFromPiece(load: (string, string) -> Option<Route>, pieces: seq<string>, loaded: seq<Route>,
      slots: seq<Route>, r: Route) returns (i: nat, k: nat)
    requires |loaded| <= |slots| && r !in loaded && r in LoadPieces(load, pieces, loaded, slots)
    ensures i < |pieces| && k < |slots| && load(pieces[i], slots[k].host) == Some(r)
    decreases |pieces|
  {
    assert pieces != [] && |loaded| < |slots|;
    var x := load(pieces[0], slots[|loaded|].host);
    if x == Some(r) {
      i, k := 0, |loaded|;
    } else {
      i, k := LoadedFromPiece(load, pieces[1..], if x.Some? then loaded + [x.value] else loaded, slots, r);
      i := i + 1;
    }
  }

  lemma PiecesOfRest(routes: seq<Route>)
    requires routes != [] ==> IsOneLine(Fields(routes[0], ""))
    ensures routes == [] ==> Pieces(Lines(routes), LINE) == []
    ensures routes != [] ==> Pieces(Lines(routes), LINE) == LinePieces(routes[0]) + Pieces(Lines(routes[1..]), LINE)
  {
    if routes != [] {
      PiecesOfLines(Fields(routes[0], ""), Lines(routes[1..]), LINE);
    }
  }

  lemma {:induction false} PieceOfRoute(routes: seq<Route>, i: nat) returns (q: nat, j: nat)
    requires forall r :: r in routes ==> IsOneLine(Fields(r, ""))
    requires i < |Pieces(Lines(routes), LINE)|
    ensures q < |routes| && j < |LinePieces(routes[q])| && LinePieces(routes[q])[j] == Pieces(Lines(routes), LINE)[i]
    decreases |routes|
  {
    PiecesOfRest(routes);
    assert routes != [];
    var own, rest := LinePieces(routes[0]), Pieces(Lines(routes[1..]), LINE);
    JoinedAt(own, rest, i);
    if i < |own| {
      q, j := 0, i;
    } else {
      q, j := PieceOfRoute(routes[1..], i - |own|);
      q := q + 1;
    }
  }

  lemma JoinedAt(a: seq<string>, b: seq<string>, i: nat)
    requires i < |a + b|
    ensures (a + b)[i] == if i < |a| then a[i] else b[i - |a|]
  {
  }

  lemma {:induction false} WordHasNoSpace(s: string, width: nat)
    ensures HasNoSpace(s[..WordLength(s, width)])
    decreases |s|
  {
    if WordLength(s, width) > 0 {
      WordHasNoSpace(s[1..], width - 1);
      assert s[..WordLength(s, width)] == [s[0]] + s[1..][..WordLength(s[1..], width - 1)];
    }
  }

  lemma ScannedIsField(s: string, width: nat)
    requires ScanWord(s, width).Some?
    ensures IsField(ScanWord(s, width).value.0, width)
  {
    WordHasNoSpace(SkipSpace(s), width);
  }

  /** Whatever the line, the fields loaded are words that fit. */
  lemma LoadedHasFields(line: string, slotHost: string)
    requires LoadLine(line, slotHost).Some?
    ensures var r := LoadLine(line, slotHost).value;
            IsField(r.prefix, 255) && r.uid < UIDS && (if r.isUds then IsField(r.target, 255) else IsField(r.host, 63))
  {
    var a := ScanWord(line, 255);
    ScannedIsField(line, 255);
    var t := ScanTyped(line);
    if t.Some? && IsTyped(t.value) {
      var b := ScanWord(a.value.1, 31);
      ScannedIsField(b.value.1, 255);
    } else {
      ScannedIsField(a.value.1, 63);
    }
  }

  lemma LoadedPrefix(line: string, slotHost: string)
    requires LoadLine(line, slotHost).Some?
    ensures ScanWord(line, 255).Some? && LoadLine(line, slotHost).value.prefix == ScanWord(line, 255).value.0
  {
  }

  // ---- what stands after the first piece of a line ----

  predicate IsNumeral(c: char) {
    IsDigit(c) || c == '-' || IsSpace(c)
  }

  predicate AreNumerals(s: string) {
    forall i :: 0 <= i < |s| ==> IsNumeral(s[i])
  }

  lemma {:induction false} SkipKeepsNumerals(s: string)
    requires AreNumerals(s)
    ensures AreNumerals(SkipSpace(s))
    decreases |s|
  {
    if s != "" && IsSpace(s[0]) {
      SkipKeepsNumerals(s[1..]);
    }
  }

  lemma NumeralsScanned(s: string, width: nat)
    requires AreNumerals(s) && ScanWord(s, width).Some?
    ensures AreNumerals(ScanWord(s, width).value.0) && AreNumerals(ScanWord(s, width).value.1)
  {
    SkipKeepsNumerals(s);
  }

  predicate IsTail(word: string, numerals: string) {
    HasNoSpace(word) && |word| <= 255 && AreNumerals(numerals) && (word != "" && numerals != "" ==> IsSpace(numerals[0]))
  }

  lemma AfterFirstWord(word: string, numerals: string)
    requires IsTail(word, numerals) && ScanWord(word + numerals, 255).Some?
    ensures AreNumerals(ScanWord(word + numerals, 255).value.1)
  {
    if word == "" {
      assert word + numerals == numerals;
      NumeralsScanned(numerals, 255);
    } else {
      assert "" + (word + numerals) == word + numerals;
      ScanPrintedWord("", word, numerals, 255);
    }
  }

  // Its second word is a number, so no socket route is read from it.
  lemma TailIsNoSocket(word: string, numerals: string, slotHost: string)
    requires IsTail(word, numerals) && LoadLine(word + numerals, slotHost).Some?
    ensures !LoadLine(word + numerals, slotHost).value.isUds
  {
    var line := word + numerals;
    AfterFirstWord(word, numerals);
    if ScanTyped(line).Some? {
      NumeralsScanned(ScanWord(line, 255).value.1, 31);
      assert AreNumerals(ScanTyped(line).value.kind);
      assert "uds"[0] == 'u' && !IsNumeral('u');
    }
  }

  lemma TailIsCut(word: string, numerals: string, n: nat)
    requires IsTail(word, numerals) && n <= |word| + |numerals|
    ensures var m := if n < |word| then n else |word|;
            && (word + numerals)[..n] == word[..m] + numerals[..n - m] && IsTail(word[..m], numerals[..n - m])
            && (word + numerals)[n..] == word[m..] + numerals[n - m..] && IsTail(word[m..], numerals[n - m..])
  {
  }

  lemma PiecesStep(s: string, i: nat)
    requires i < |Pieces(s, LINE)|
    ensures var n := PieceLength(s, LINE);
            if i == 0 then Pieces(s, LINE)[i] == s[..n]
            else i - 1 < |Pieces(s[n..], LINE)| && Pieces(s, LINE)[i] == Pieces(s[n..], LINE)[i - 1]
  {
    var n := PieceLength(s, LINE);
    assert Pieces(s, LINE) == [s[..n]] + Pieces(s[n..], LINE);
  }

  lemma TailPieceIsNoSocket(piece: string, word: string, numerals: string, slotHost: string)
    requires piece == word + numerals && IsTail(word, numerals)
    ensures NoSocket(LoadLine(piece, slotHost))
  {
    if LoadLine(piece, slotHost).Some? {
      TailIsNoSocket(word, numerals, slotHost);
    }
  }

  /** A way of reading that reads no socket route from numbers after at most one word. */
  ghost predicate ReadsNoSocket(load: (string, string) -> Option<Route>) {
    forall piece, word, numerals, slotHost {:trigger load(piece, slotHost), IsTail(word, numerals)} ::
      piece == word + numerals && IsTail(word, numerals) ==> NoSocket(load(piece, slotHost))
  }

  predicate NoSocket(r: Option<Route>) {
    r.Some? ==> !r.value.isUds
  }

  lemma LoadLineReadsNoSocket()
    ensures ReadsNoSocket(LoadLine)
  {
    forall piece, word, numerals, slotHost | piece == word + numerals && IsTail(word, numerals)
      ensures NoSocket(LoadLine(piece, slotHost))
    {
      TailPieceIsNoSocket(piece, word, numerals, slotHost);
    }
  }

  lemma {:induction false} TailPieces(load: (string, string) -> Option<Route>, s: string, word: string,
      numerals: string, i: nat, slotHost: string)
    requires ReadsNoSocket(load) && s == word + numerals && IsTail(word, numerals) && i < |Pieces(s, LINE)|
    ensures NoSocket(load(Pieces(s, LINE)[i], slotHost))
    decreases i
  {
    var n := PieceLength(s, LINE);
    var m := if n < |word| then n else |word|;
    TailIsCut(word, numerals, n);
    PiecesStep(s, i);
    if i > 0 {
      TailPieces(load, s[n..], word[m..], numerals[n - m..], i - 1, slotHost);
    }
  }

  lemma NumberIsNumerals(n: int, rest: string)
    requires AreNumerals(rest)
    ensures AreNumerals(NumberThen(n, rest))
  {
    assert AreNumerals(PrintInt(n));
  }

  /** A line is its prefix and kind, its address, and its numbers. */
  function Head(r: Route): (s: string)
    ensures |s| == |r.prefix| + 5
  {
    r.prefix + " " + Kind(r.isUds) + " "
  }

  lemma LineParts(r: Route, tail: string)
    ensures LineWith(r, tail) == Head(r) + Address(r) + Numbers(r, tail)
  {
    var rest := Address(r) + Numbers(r, tail);
    Regroup(r.prefix, " ", Kind(r.isUds) + (" " + rest));
    Regroup(r.prefix + " ", Kind(r.isUds), " " + rest);
    Regroup(r.prefix + " " + Kind(r.isUds), " ", rest);
    Regroup(Head(r), Address(r), Numbers(r, tail));
  }

  lemma NumbersAreNumerals(r: Route)
    ensures AreNumerals(Numbers(r, NumberThen(r.auth, "")) + "\n")
  {
    NumberIsNumerals(r.auth, "");
    NumberIsNumerals(AsInt(r.uid), NumberThen(r.auth, ""));
    NumberIsNumerals(r.port, NumberThen(AsInt(r.uid), NumberThen(r.auth, "")));
  }

  lemma CutAfterHead(head: string, word: string, numerals: string, n: nat)
    requires |head| <= n <= |head| + |word| + |numerals|
    ensures (head + word + numerals + "\n")[n..] == (head + word + numerals)[n..] + "\n" == (word + (numerals + "\n"))[n - |head|..]
  {
  }

  lemma LineAfterCut(r: Route) returns (word: string, numerals: string)
    requires IsField(r.prefix, 255) && IsField(Address(r), 255) && |Fields(r, "")| >= LINE
    ensures IsTail(word, numerals) && Fields(r, "")[LINE..] + "\n" == word + numerals
  {
    var ns := Numbers(r, NumberThen(r.auth, ""));
    LineParts(r, NumberThen(r.auth, ""));
    NumbersAreNumerals(r);
    var n := LINE - |Head(r)|;
    var m := if n < |Address(r)| then n else |Address(r)|;
    CutAfterHead(Head(r), Address(r), ns, LINE);
    word, numerals := Address(r)[m..], (ns + "\n")[n - m..];
    TailIsCut(Address(r), ns + "\n", n);
  }

  /** No socket route is read from a later piece of a line. */
  lemma LaterPieceIsNoSocket(load: (string, string) -> Option<Route>, r: Route, j: nat, slotHost: string)
    requires ReadsNoSocket(load) && IsField(r.prefix, 255) && IsField(Address(r), 255) && 0 < j < |LinePieces(r)|
    ensures NoSocket(load(LinePieces(r)[j], slotHost)) && |Fields(r, "")| >= LINE
  {
    var line := Fields(r, "");
    FieldsAreOneLine(r);
    if |line| < LINE {
      WholeLine(r);
    } else {
      CutPiece(line, "", LINE);
      assert line + "\n" + "" == line + "\n" && line[LINE..] + "\n" + "" == line[LINE..] + "\n";
      var word, numerals := LineAfterCut(r);
      TailPieces(load, line[LINE..] + "\n", word, numerals, j - 1, slotHost);
    }
  }

  lemma FirstPieceStarts(r: Route) returns (rest: string)
    requires IsField(r.prefix, 255) && IsField(Address(r), 255) && LinePieces(r) != []
    ensures LinePieces(r)[0] == r.prefix + rest && rest != "" && rest[0] == ' '
  {
    var line := Fields(r, "");
    FieldsAreOneLine(r);
    if |line| < LINE {
      WholeLine(r);
      rest := AfterPrefix(r, NumberThen(r.auth, "\n"));
    } else {
      CutPiece(line, "", LINE);
      assert line + "\n" + "" == line + "\n";
      rest := AfterPrefix(r, NumberThen(r.auth, ""))[..LINE - |r.prefix|];
    }
  }

  /** The first piece of a line is read as a route of its prefix. */
  lemma FirstPiecePrefix(r: Route, slotHost: string)
    requires IsField(r.prefix, 255) && IsField(Address(r), 255) && LinePieces(r) != []
    ensures var x := LoadLine(LinePieces(r)[0], slotHost); x.Some? ==> x.value.prefix == r.prefix
  {
    var rest := FirstPieceStarts(r);
    PrefixOfLine(r.prefix, rest, slotHost);
  }

  lemma PrefixOfLine(prefix: string, rest: string, slotHost: string)
    requires IsField(prefix, 255) && rest != "" && rest[0] == ' '
    ensures var x := LoadLine(prefix + rest, slotHost); x.Some? ==> x.value.prefix == prefix
  {
    assert "" + (prefix + rest) == prefix + rest;
    ScanPrintedWord("", prefix, rest, 255);
    if LoadLine(prefix + rest, slotHost).Some? {
      LoadedPrefix(prefix + rest, slotHost);
    }
  }

  // ---- numbers cut short ----

  lemma {:induction false} CutDigits(n: nat, k: nat)
    requires 0 < k < |Print(n)|
    ensures Value(Print(n)[..k]) < n && DigitCount(Print(n)[..k]) == k
    decreases n
  {
    var d := Print(n)[..k];
    DigitsEnd(d, "");
    assert d + "" == d;
    if k == |Print(n / 10)| {
      assert d == Print(n / 10);
      PrintThenRead(n / 10);
    } else {
      assert d == Print(n / 10)[..k];
      CutDigits(n / 10, k);
    }
  }

  lemma CutDigitsScanned(n: nat, k: nat)
    requires k < |Print(n)|
    ensures var v := ScanDigits(Print(n)[..k]); v.Some? ==> v.value.0 < n && v.value.1 == ""
  {
    if k > 0 {
      CutDigits(n, k);
      assert Print(n)[..k][..k] == Print(n)[..k] && Print(n)[..k][k..] == "";
    }
  }

  /** Between zero and n, and not n. */
  predicate IsShort(v: int, n: int) {
    if n < 0 then n < v <= 0 else 0 <= v < n
  }

  lemma CutSigned(n: int, k: nat)
    requires k < |PrintInt(n)|
    ensures var v := ScanSigned(PrintInt(n)[..k]); v.Some? ==> IsShort(v.value.0, n) && v.value.1 == ""
  {
    var s := PrintInt(n)[..k];
    if n < 0 {
      if k > 0 {
        CutDigitsScanned(-n, k - 1);
        assert s[1..] == Print(-n)[..k - 1];
      }
    } else {
      CutDigitsScanned(n, k);
      assert s != "" ==> s[0] == Print(n)[0];
    }
  }

  /** What is scanned of a number whose end is missing: nothing, or another number. */
  lemma CutNumber(n: int, k: nat, m: nat)
    requires k < |PrintInt(n)| && m > 0
    ensures var ns := ScanInts(" " + PrintInt(n)[..k], m); ns != [] ==> ns == [ns[0]] && IsShort(ns[0], n)
  {
    var s := PrintInt(n)[..k];
    CutSigned(n, k);
    if k == 0 {
      assert (" " + s)[1..] == "" && SkipSpace(" " + s) == "";
    } else {
      PrintIntStarts(n);
      SkipOne(s);
    }
    assert ScanInts("", m - 1) == [];
  }

  lemma NumberThenCut(n: int, rest: string, c: nat)
    requires 0 < c <= |NumberThen(n, rest)|
    ensures var c1 := c - 1 - |PrintInt(n)|;
            NumberThen(n, rest)[..c] == if c1 < 0 then " " + PrintInt(n)[..c - 1] else NumberThen(n, rest[..c1])
  {
    var c1 := c - 1 - |PrintInt(n)|;
    if c1 >= 0 {
      assert (PrintInt(n) + rest)[..c - 1] == PrintInt(n) + rest[..c1];
    } else {
      assert (PrintInt(n) + rest)[..c - 1] == PrintInt(n)[..c - 1];
    }
  }

  lemma CutNumberThen(n: int, rest: string, c: nat, m: nat)
    requires 0 < c <= |NumberThen(n, rest)| && m > 0 && (rest == "" || rest[0] == ' ')
    ensures var ns := ScanInts(NumberThen(n, rest)[..c], m);
            var c1 := c - 1 - |PrintInt(n)|;
            if c1 < 0 then ns != [] ==> ns == [ns[0]] && IsShort(ns[0], n)
            else ns == [n] + ScanInts(rest[..c1], m - 1)
  {
    var c1 := c - 1 - |PrintInt(n)|;
    NumberThenCut(n, rest, c);
    if c1 < 0 {
      CutNumber(n, c - 1, m);
    } else {
      var more := ScanInts(rest[..c1], m - 1);
      assert rest[..c1] == "" || rest[..c1][0] == ' ';
      ScanOneMore(n, rest[..c1], m - 1, more);
    }
  }

  lemma UidsDiffer(m: int, n: int)
    requires IsCInt(m) && IsCInt(n) && AsUid(m) == AsUid(n)
    ensures m == n
  {
  }

  // Of the numbers only a default auth can be missing.
  lemma OnlyDefaultAuthMissing(auth: int, c: nat)
    requires c < |NumberThen(auth, "")|
    requires NumberAt(ScanInts(NumberThen(auth, "")[..c], 1), 0, 0) == auth
    ensures auth == 0
  {
    if c > 0 {
      CutNumberThen(auth, "", c, 1);
    } else {
      assert ScanInts("", 1) == [];
    }
  }

  lemma UidAndAuthMissing(uid: int, auth: int, c: nat, ns: seq<int>)
    requires IsCInt(uid) && 0 < c < |NumberThen(uid, NumberThen(auth, ""))|
    requires ns == ScanInts(NumberThen(uid, NumberThen(auth, ""))[..c], 2)
    requires ns != [] && AsUid(ns[0]) == AsUid(uid) && NumberAt(ns, 1, 0) == auth
    ensures auth == 0 && c >= |NumberThen(uid, "")|
  {
    var a := NumberThen(auth, "");
    CutNumberThen(uid, a, c, 2);
    UidMissing(uid, ns);
    var c1 := c - 1 - |PrintInt(uid)|;
    var last := ScanInts(a[..c1], 1);
    assert ns == [uid] + last && NumberAt(ns, 1, 0) == NumberAt(last, 0, 0);
    OnlyDefaultAuthMissing(auth, c1);
  }

  // With two numbers read, the first is the port and the others follow it.
  lemma PortIsRead(port: int, rest: string, c: nat, ns: seq<int>) returns (c1: nat)
    requires 0 < c <= |NumberThen(port, rest)| && rest != "" && rest[0] == ' '
    requires ns == ScanInts(NumberThen(port, rest)[..c], 3) && |ns| >= 2
    ensures c == 1 + |PrintInt(port)| + c1 && 0 < c1 <= |rest| && ns == [port] + ScanInts(rest[..c1], 2)
  {
    CutNumberThen(port, rest, c, 3);
    assert rest[..0] == "" && ScanInts("", 2) == [];
    c1 := c - 1 - |PrintInt(port)|;
  }

  lemma NumbersMissing(port: int, uid: int, auth: int, c: nat)
    requires IsCInt(uid) && 0 < c < |NumberThen(port, NumberThen(uid, NumberThen(auth, "")))|
    requires var ns := ScanInts(NumberThen(port, NumberThen(uid, NumberThen(auth, "")))[..c], 3);
             |ns| >= 2 && AsUid(ns[1]) == AsUid(uid) && NumberAt(ns, 2, 0) == auth
    ensures auth == 0 && c >= |NumberThen(port, NumberThen(uid, ""))|
  {
    var u := NumberThen(uid, NumberThen(auth, ""));
    var c1 := PortIsRead(port, u, c, ScanInts(NumberThen(port, u)[..c], 3));
    UidAndAuthMissing(uid, auth, c1, ScanInts(u[..c1], 2));
  }

  lemma UidMissing(uid: int, ns: seq<int>)
    requires IsCInt(uid) && ns != [] && AsUid(ns[0]) == AsUid(uid)
    ensures !IsShort(ns[0], uid)
  {
    if IsShort(ns[0], uid) {
      UidsDiffer(ns[0], uid);
    }
  }

  // ---- which lines are read back ----

  function Power10(k: nat): nat {
    if k == 0 then 1 else 10 * Power10(k - 1)
  }

  lemma {:induction false} PrintLength(n: nat, k: nat)
    requires n < Power10(k) && k > 0
    ensures |Print(n)| <= k
    decreases k
  {
    if n >= 10 {
      assert k > 1;
      PrintLength(n / 10, k - 1);
    }
  }

  lemma CIntLength(n: int)
    requires IsCInt(n)
    ensures |PrintInt(n)| <= 11
  {
    assert Power10(5) == 10_0000 && Power10(10) == 10_0000 * Power10(5);
    PrintLength(if n < 0 then -n else n, 10);
  }

  lemma LineLength(r: Route)
    requires HasCNumbers(r)
    ensures |Fields(r, "")| <= |r.prefix| + 5 + |Address(r)| + 36
  {
    LineParts(r, NumberThen(r.auth, ""));
    CIntLength(r.port);
    CIntLength(AsInt(r.uid));
    CIntLength(r.auth);
  }

  /** A route with a host has a short line. */
  lemma HostLineFits(r: Route)
    requires IsField(r.prefix, 255) && IsField(r.host, 63) && !r.isUds && HasCNumbers(r)
    ensures |Fields(r, "")| + 1 <= LINE
  {
    LineLength(r);
  }

  lemma HostLineReadBack(r: Route, slotHost: string)
    requires IsField(r.prefix, 255) && IsField(r.host, 63) && !r.isUds && HasCNumbers(r)
    requires LinePieces(r) != [] && LoadLine(LinePieces(r)[0], slotHost) == Some(r)
    ensures IsStorable(r)
  {
    var own := r.(target := r.host);
    HostLineFits(r);
    FieldsAreOneLine(r);
    WholeLine(r);
    ScanLast(r.auth, "\n");
    LineRoundTrip(own, NumberThen(r.auth, "\n"), [r.auth], slotHost);
  }

  // The words of a socket route's line, as far as they are read.
  lemma SocketWords(r: Route, target: string, numbers: string)
    requires r.isUds && IsField(r.prefix, 255) && IsField(target, 255) && (numbers == "" || IsSpace(numbers[0]))
    ensures ScanTyped(Head(r) + target + numbers) == Some(Typed(r.prefix, "uds", target, ScanInts(numbers, 3)))
  {
    var c := " " + (target + numbers);
    var b := " " + ("uds" + c);
    HeadThen(r, target, numbers, c, b);
    ScanPrintedWord("", r.prefix, b, 255);
    ScanPrintedWord(" ", "uds", c, 31);
    ScanPrintedWord(" ", target, numbers, 255);
    TypedFromWords(Head(r) + target + numbers, (r.prefix, b), ("uds", c), (target, numbers));
  }

  lemma HeadThen(r: Route, target: string, numbers: string, c: string, b: string)
    requires r.isUds && c == " " + (target + numbers) && b == " " + ("uds" + c)
    ensures Head(r) + target + numbers == "" + (r.prefix + b)
  {
    var rest := target + numbers;
    Regroup(r.prefix, " ", "uds" + c);
    Regroup(r.prefix + " ", "uds", c);
    Regroup(r.prefix + " " + "uds", " ", rest);
    Regroup(Head(r), target, numbers);
  }

  lemma SocketIsTyped(line: string, slotHost: string)
    requires LoadLine(line, slotHost).Some? && LoadLine(line, slotHost).value.isUds
    ensures ScanTyped(line).Some? && IsTyped(ScanTyped(line).value)
    ensures LoadLine(line, slotHost).value == TypedRoute(ScanTyped(line).value, slotHost)
  {
  }

  lemma CutLineParts(r: Route) returns (target: string, numbers: string, c: int)
    requires r.isUds && IsField(r.prefix, 255) && IsField(r.target, 255) && |Fields(r, "")| > LINE
    ensures c == LINE - |Head(r)| - |r.target| < |Numbers(r, NumberThen(r.auth, ""))| && IsField(target, 255)
    ensures if c < 0 then target != r.target && numbers == "" else target == r.target && numbers == Numbers(r, NumberThen(r.auth, ""))[..c]
    ensures Fields(r, "")[..LINE] == Head(r) + target + numbers
  {
    LineParts(r, NumberThen(r.auth, ""));
    c := LINE - |Head(r)| - |r.target|;
    target := if c < 0 then r.target[..|r.target| + c] else r.target;
    numbers := if c < 0 then "" else Numbers(r, NumberThen(r.auth, ""))[..c];
  }

  lemma SocketLineReadBack(r: Route, slotHost: string)
    requires r.isUds && IsField(r.prefix, 255) && IsField(r.target, 255) && HasCNumbers(r) && |Fields(r, "")| > LINE
    requires LoadLine(Fields(r, "")[..LINE], slotHost) == Some(r)
    ensures FitsLine(r)
  {
    var target, numbers, c := CutLineParts(r);
    SocketIsTyped(Fields(r, "")[..LINE], slotHost);
    SocketWords(r, target, numbers);
    assert ScanInts("", 3) == [];
    assert numbers != "";
    UidRoundTrip(r.uid);
    NumbersMissing(r.port, AsInt(r.uid), r.auth, c);
    LineParts(r, "");
  }

  /** A route whose own line gives it back is storable. */
  lemma ReadBackIsStorable(r: Route, slotHost: string)
    requires IsField(r.prefix, 255) && HasCNumbers(r)
    requires if r.isUds then IsField(r.target, 255) else IsField(r.host, 63)
    requires LinePieces(r) != [] && LoadLine(LinePieces(r)[0], slotHost) == Some(r)
    ensures IsStorable(r) && (r.isUds ==> r.host == slotHost)
  {
    if r.isUds {
      FieldsAreOneLine(r);
      if |Fields(r, "")| > LINE {
        CutPiece(Fields(r, ""), "", LINE);
        assert Fields(r, "") + "\n" + "" == Fields(r, "") + "\n";
        SocketLineReadBack(r, slotHost);
      }
      WritablePieces(r);
    } else {
      HostLineReadBack(r, slotHost);
    }
  }

  // ---- which tables are kept ----

  /** Everything in the table was loaded, so its fields are words. */
  ghost predicate AllLoaded(load: (string, string) -> Option<Route>, routes: seq<Route>, slots: seq<Route>) {
    && HasUniquePrefixes(routes) && HaveCNumbers(routes) && ReadsOwn(load)
    && (forall r :: r in routes ==> IsField(r.prefix, 255) && IsField(Address(r), if r.isUds then 255 else 63))
    && (forall r :: r in routes ==> r in LoadPieces(load, Pieces(Lines(routes), LINE), [], slots))
  }

  // A route read from a piece of q's line has q's prefix, or is no socket route.
  predicate IsReadFrom(q: Route, j: nat, r: Option<Route>) {
    r.Some? ==> if j == 0 then r.value.prefix == q.prefix else |Fields(q, "")| >= LINE && !r.value.isUds
  }

  ghost predicate ReadsOwn(load: (string, string) -> Option<Route>) {
    forall q: Route, j: nat, slotHost :: IsField(q.prefix, 255) && IsField(Address(q), 255) && j < |LinePieces(q)| ==>
      IsReadFrom(q, j, load(LinePieces(q)[j], slotHost))
  }

  lemma LoadLineReadsOwn()
    ensures ReadsOwn(LoadLine)
  {
    LoadLineReadsNoSocket();
    forall q: Route, j: nat, slotHost | IsField(q.prefix, 255) && IsField(Address(q), 255) && j < |LinePieces(q)|
      ensures IsReadFrom(q, j, LoadLine(LinePieces(q)[j], slotHost))
    {
      if j == 0 {
        FirstPiecePrefix(q, slotHost);
      } else {
        LaterPieceIsNoSocket(LoadLine, q, j, slotHost);
      }
    }
  }

  lemma OneLineEach(load: (string, string) -> Option<Route>, routes: seq<Route>, slots: seq<Route>)
    requires AllLoaded(load, routes, slots)
    ensures forall r :: r in routes ==> IsOneLine(Fields(r, ""))
  {
    forall r | r in routes
      ensures IsOneLine(Fields(r, ""))
    {
      FieldsAreOneLine(r);
    }
  }

  lemma LineOfLoaded(load: (string, string) -> Option<Route>, routes: seq<Route>, slots: seq<Route>,
      r: Route) returns (q: nat, j: nat, k: nat)
    requires forall x :: x in routes ==> IsOneLine(Fields(x, ""))
    requires r in LoadPieces(load, Pieces(Lines(routes), LINE), [], slots)
    ensures q < |routes| && j < |LinePieces(routes[q])| && k < |slots| && load(LinePieces(routes[q])[j], slots[k].host) == Some(r)
  {
    var i: nat;
    i, k := LoadedFromPiece(load, Pieces(Lines(routes), LINE), [], slots, r);
    q, j := PieceOfRoute(routes, i);
  }

  lemma OnlyOnePrefix(routes: seq<Route>, q: nat, r: Route)
    requires HasUniquePrefixes(routes) && r in routes && q < |routes| && routes[q].prefix == r.prefix
    ensures routes[q] == r
  {
  }

  /** The piece a route of the table was loaded from. */
  lemma OwnPiece(load: (string, string) -> Option<Route>, routes: seq<Route>, slots: seq<Route>,
      r: Route) returns (q: nat, j: nat, k: nat)
    requires AllLoaded(load, routes, slots) && r in routes
    ensures q < |routes| && j < |LinePieces(routes[q])| && k < |slots| && load(LinePieces(routes[q])[j], slots[k].host) == Some(r)
    ensures if j == 0 then routes[q] == r else |Fields(routes[q], "")| >= LINE && !r.isUds
  {
    OneLineEach(load, routes, slots);
    q, j, k := LineOfLoaded(load, routes, slots, r);
    var own := routes[q];
    assert own in routes && IsField(own.prefix, 255);
    assert IsReadFrom(own, j, load(LinePieces(own)[j], slots[k].host));
    if j == 0 {
      OnlyOnePrefix(routes, q, r);
    }
  }

  lemma SocketIsStorable(routes: seq<Route>, slots: seq<Route>, r: Route)
    requires AllLoaded(LoadLine, routes, slots) && r in routes && r.isUds
    ensures IsStorable(r) && exists k :: 0 <= k < |slots| && slots[k].host == r.host
  {
    var q, j, k := OwnPiece(LoadLine, routes, slots, r);
    ReadBackIsStorable(r, slots[k].host);
  }

  lemma LaterPiecesIgnored(routes: seq<Route>, slots: seq<Route>, q: Route)
    requires AllLoaded(LoadLine, routes, slots) && q in routes && |Fields(q, "")| >= LINE
    ensures IsIgnoredFrom(LoadLine, LinePieces(q), 1)
  {
    if !q.isUds {
      HostLineFits(q);
    }
    SocketIsStorable(routes, slots, q);
    WritablePieces(q);
  }

  lemma EachIsStorable(routes: seq<Route>, slots: seq<Route>, r: Route)
    requires AllLoaded(LoadLine, routes, slots) && r in routes
    ensures IsStorable(r)
  {
    var q, j, k := OwnPiece(LoadLine, routes, slots, r);
    if j > 0 {
      LaterPiecesIgnored(routes, slots, routes[q]);
    }
    ReadBackIsStorable(r, slots[k].host);
  }

  lemma SameRoutes(a: seq<Route>, b: seq<Route>)
    requires multiset(a) == multiset(b)
    ensures forall r :: r in a <==> r in b
  {
    forall r
      ensures r in a <==> r in b
    {
      assert r in a <==> r in multiset(a);
      assert r in b <==> r in multiset(b);
    }
  }

  lemma {:induction false} LoadedAreWords(load: (string, string) -> Option<Route>, pieces: seq<string>,
      slots: seq<Route>, r: Route)
    requires load == LoadLine && r in LoadPieces(load, pieces, [], slots)
    ensures IsField(r.prefix, 255) && IsField(Address(r), if r.isUds then 255 else 63)
  {
    var i, k := LoadedFromPiece(load, pieces, [], slots, r);
    LoadedHasFields(pieces[i], slots[k].host);
  }

  lemma KeptAreStorable(header: seq<string>, routes: seq<Route>, slots: seq<Route>)
    requires AreComments(header) && HasUniquePrefixes(routes) && HaveCNumbers(routes)
    requires multiset(LoadText(FlushText(header, routes), slots)) == multiset(routes)
    ensures AllLoaded(LoadLine, routes, slots) && AreStorable(routes)
  {
    HeaderSkipped(header, Lines(routes), slots);
    LoadLineReadsOwn();
    SameRoutes(LoadText(FlushText(header, routes), slots), routes);
    forall r | r in routes
      ensures IsField(r.prefix, 255) && IsField(Address(r), if r.isUds then 255 else 63)
    {
      LoadedAreWords(LoadLine, Pieces(Lines(routes), LINE), slots, r);
    }
    forall i | 0 <= i < |routes|
      ensures IsStorable(routes[i])
    {
      EachIsStorable(routes, slots, routes[i]);
    }
  }

  lemma StorableLoadBack(header: seq<string>, routes: seq<Route>, slots: seq<Route>)
    requires AreComments(header) && AreStorable(routes) && |routes| <= |slots|
    ensures LoadText(FlushText(header, routes), slots) == Reloaded(routes, 0, slots)
  {
    assert forall i :: 0 <= i < |routes| ==> IsStorable(routes[i]) ==> !StartsWith(routes[i].prefix, "#");
    LoadsBackExactly(header, routes, slots);
  }

  /** Slots that hold the same hosts: the routes' own, or none for socket routes that had none. */
  predicate AreOwnSlots(routes: seq<Route>, slots: seq<Route>) {
    |routes| <= |slots| && slots[..|routes|] == routes
  }

  predicate AreCleared(slots: seq<Route>) {
    forall i :: 0 <= i < |slots| ==> slots[i].host == ""
  }

  predicate HaveNoSocketHosts(routes: seq<Route>) {
    forall i :: 0 <= i < |routes| && routes[i].isUds ==> routes[i].host == ""
  }

  lemma SlotsKeepHosts(routes: seq<Route>, slots: seq<Route>)
    requires |routes| <= |slots|
    requires AreOwnSlots(routes, slots) || (AreCleared(slots) && HaveNoSocketHosts(routes))
    ensures Reloaded(routes, 0, slots) == routes
  {
    assert AreOwnSlots(routes, slots) ==> forall i :: 0 <= i < |routes| ==> slots[..|routes|][i] == slots[i];
    ReloadedIsSame(routes, 0, slots);
  }

  /**
   * A reload of the file written last gives the table's routes again exactly when every route is
   * storable: fields without white space that fit, on a line that fits, and no prefix beginning
   * with '#'.
   */
  lemma ReloadKeepsExactly(header: seq<string>, routes: seq<Route>, slots: seq<Route>)
    requires AreComments(header) && HasUniquePrefixes(routes) && HaveCNumbers(routes) && AreOwnSlots(routes, slots)
    ensures multiset(LoadText(FlushText(header, routes), slots)) == multiset(routes) <==> AreStorable(routes)
    ensures AreStorable(routes) ==> LoadText(FlushText(header, routes), slots) == routes
  {
    if AreStorable(routes) {
      StorableLoadBack(header, routes, slots);
      SlotsKeepHosts(routes, slots);
    } else if multiset(LoadText(FlushText(header, routes), slots)) == multiset(routes) {
      KeptAreStorable(header, routes, slots);
    }
  }

  lemma SocketHostsAreSlots(routes: seq<Route>, slots: seq<Route>)
    requires AllLoaded(LoadLine, routes, slots) && AreCleared(slots)
    ensures HaveNoSocketHosts(routes)
  {
    forall i | 0 <= i < |routes| && routes[i].isUds
      ensures routes[i].host == ""
    {
      SocketIsStorable(routes, slots, routes[i]);
    }
  }

  /** After a restart, when the slots are clear, socket routes must have had no host either. */
  lemma RestartKeepsExactly(header: seq<string>, routes: seq<Route>, slots: seq<Route>)
    requires AreComments(header) && HasUniquePrefixes(routes) && HaveCNumbers(routes)
    requires |routes| <= |slots| && AreCleared(slots)
    ensures multiset(LoadText(FlushText(header, routes), slots)) == multiset(routes)
            <==> AreStorable(routes) && HaveNoSocketHosts(routes)
    ensures AreStorable(routes) && HaveNoSocketHosts(routes) ==> LoadText(FlushText(header, routes), slots) == routes
  {
    if AreStorable(routes) && HaveNoSocketHosts(routes) {
      StorableLoadBack(header, routes, slots);
      SlotsKeepHosts(routes, slots);
    } else if multiset(LoadText(FlushText(header, routes), slots)) == multiset(routes) {
      KeptAreStorable(header, routes, slots);
      SocketHostsAreSlots(routes, slots);
    }
  }
}
