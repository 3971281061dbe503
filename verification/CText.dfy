/** C's scanning of text: white space, %s with a width, %d, and what fgets reads. */
module CText {
  import opened Util
  import opened Decimal

  predicate IsSpace(c: char) {
    c == ' ' || '\U{9}' <= c <= '\U{D}'
  }

  predicate HasNoSpace(s: string) {
    forall i :: 0 <= i < |s| ==> !IsSpace(s[i])
  }

  function SkipSpace(s: string): (r: string)
    ensures |r| <= |s| && (r != "" ==> !IsSpace(r[0]))
  {
    if s != "" && IsSpace(s[0]) then SkipSpace(s[1..]) else s
  }

  /** The number of leading characters a %s of this width takes. */
  function WordLength(s: string, width: nat): (n: nat)
    ensures n <= |s| && n <= width
  {
    if s == "" || width == 0 || IsSpace(s[0]) then 0 else 1 + WordLength(s[1..], width - 1)
  }

  /** %s with a width: the word and the rest. */
  function ScanWord(s: string, width: nat): Option<(string, string)> {
    var t := SkipSpace(s);
    var n := WordLength(t, width);
    if n == 0 then None else Some((t[..n], t[n..]))
  }

  function DigitCount(s: string): (k: nat)
    ensures k <= |s| && forall i :: 0 <= i < k ==> IsDigit(s[i])
  {
    if s != "" && IsDigit(s[0]) then 1 + DigitCount(s[1..]) else 0
  }

  /** %u: the number and the rest. */
  function ScanDigits(s: string): (r: Option<(nat, string)>)
    ensures r.Some? ==> |r.value.1| < |s|
  {
    var k := DigitCount(s);
    if k == 0 then None else Some((Value(s[..k]), s[k..]))
  }

  function ScanSigned(t: string): (r: Option<(int, string)>)
    ensures r.Some? ==> |r.value.1| < |t|
  {
    if t != "" && t[0] == '-' then
      var v := ScanDigits(t[1..]);
      if v.None? then None else Some((0 - v.value.0 as int, v.value.1))
    else if t != "" && t[0] == '+' then ScanDigits(t[1..])
    else ScanDigits(t)
  }

  /** %d: the number and the rest. */
  function ScanInt(s: string): (r: Option<(int, string)>)
    ensures r.Some? ==> |r.value.1| < |s|
  {
    ScanSigned(SkipSpace(s))
  }

  /** Up to k numbers. */
  function ScanInts(s: string, k: nat): seq<int>
    decreases k
  {
    var v := ScanInt(s);
    if k == 0 || v.None? then [] else [v.value.0] + ScanInts(v.value.1, k - 1)
  }

  function PrintInt(n: int): string {
    if n < 0 then "-" + Print(-n) else Print(n)
  }

  // ---- reading back what was printed ----

  lemma SkipOne(s: string)
    requires s != "" && !IsSpace(s[0])
    ensures SkipSpace(s) == s && SkipSpace(" " + s) == s
  {
    assert (" " + s)[1..] == s;
  }

  lemma {:induction false} WordEnds(w: string, rest: string, width: nat)
    requires HasNoSpace(w) && |w| <= width && (rest == "" || IsSpace(rest[0]))
    ensures WordLength(w + rest, width) == |w|
    decreases |w|
  {
    if w == "" {
      assert w + rest == rest;
    } else {
      assert (w + rest)[1..] == w[1..] + rest;
      WordEnds(w[1..], rest, width - 1);
    }
  }

  lemma ScanPrintedWord(space: string, w: string, rest: string, width: nat)
    requires (space == "" || space == " ") && w != "" && HasNoSpace(w) && |w| <= width && (rest == "" || IsSpace(rest[0]))
    ensures ScanWord(space + (w + rest), width) == Some((w, rest))
  {
    SkipOne(w + rest);
    assert space == "" ==> space + (w + rest) == w + rest;
    WordEnds(w, rest, width);
    assert (w + rest)[..|w|] == w && (w + rest)[|w|..] == rest;
  }

  lemma {:induction false} DigitsEnd(d: string, rest: string)
    requires (forall i :: 0 <= i < |d| ==> IsDigit(d[i])) && (rest == "" || !IsDigit(rest[0]))
    ensures DigitCount(d + rest) == |d|
    decreases |d|
  {
    if d == "" {
      assert d + rest == rest;
    } else {
      assert (d + rest)[1..] == d[1..] + rest;
      DigitsEnd(d[1..], rest);
    }
  }

  lemma ScanPrintedDigits(n: nat, rest: string)
    requires rest == "" || !IsDigit(rest[0])
    ensures ScanDigits(Print(n) + rest) == Some((n, rest))
  {
    var d := Print(n);
    DigitsEnd(d, rest);
    PrintThenRead(n);
    assert (d + rest)[..|d|] == d && (d + rest)[|d|..] == rest;
  }

  lemma SignedDigits(d: string, v: int, rest: string)
    requires d != "" && IsDigit(d[0]) && ScanDigits(d + rest) == Some((v, rest))
    ensures ScanSigned(d + rest) == Some((v, rest)) && ScanSigned("-" + d + rest) == Some((-v, rest))
  {
    assert ("-" + d + rest)[1..] == d + rest;
  }

  lemma ScanPrintedSigned(n: int, rest: string)
    requires rest == "" || !IsDigit(rest[0])
    ensures ScanSigned(PrintInt(n) + rest) == Some((n, rest))
  {
    var m := if n < 0 then -n else n;
    ScanPrintedDigits(m, rest);
    SignedDigits(Print(m), m, rest);
  }

  lemma PrintIntStarts(n: int)
    ensures PrintInt(n) != "" && !IsSpace(PrintInt(n)[0])
  {
  }

  lemma ScanPrintedInt(n: int, rest: string)
    requires rest == "" || !IsDigit(rest[0])
    ensures ScanInt(" " + (PrintInt(n) + rest)) == Some((n, rest))
  {
    PrintIntStarts(n);
    assert (PrintInt(n) + rest)[0] == PrintInt(n)[0];
    SkipOne(PrintInt(n) + rest);
    ScanPrintedSigned(n, rest);
  }

  /** The text of one more number before others. */
  function NumberThen(n: int, rest: string): (s: string)
    ensures s != "" && s[0] == ' '
  {
    " " + (PrintInt(n) + rest)
  }

  lemma ScanOneMore(n: int, rest: string, k: nat, more: seq<int>)
    requires (rest == "" || !IsDigit(rest[0])) && ScanInts(rest, k) == more
    ensures ScanInts(NumberThen(n, rest), k + 1) == [n] + more
  {
    ScanPrintedInt(n, rest);
  }

  lemma ScanTwoInts(a: int, b: int, rest: string, more: seq<int>)
    requires (rest == "" || !IsDigit(rest[0])) && ScanInts(rest, 1) == more
    ensures ScanInts(NumberThen(a, NumberThen(b, rest)), 3) == [a] + ([b] + more)
  {
    ScanOneMore(b, rest, 1, more);
    ScanOneMore(a, NumberThen(b, rest), 2, [b] + more);
  }

  // ---- fgets ----

  /** The length of the next piece fgets reads: up to a newline, at most `limit` characters. */
  function PieceLength(s: string, limit: nat): (n: nat)
    ensures n <= |s| && n <= limit && (s != "" && limit > 0 ==> n > 0)
  {
    if s == "" || limit == 0 then 0 else if s[0] == '\n' then 1 else 1 + PieceLength(s[1..], limit - 1)
  }

  /** The pieces fgets reads from a text. */
  function Pieces(s: string, limit: nat): seq<string>
    requires limit > 0
    decreases |s|
  {
    if s == "" then [] else [s[..PieceLength(s, limit)]] + Pieces(s[PieceLength(s, limit)..], limit)
  }

  lemma {:induction false} PieceIsLine(line: string, rest: string, limit: nat)
    requires '\n' !in line && |line| + 1 <= limit
    ensures PieceLength(line + "\n" + rest, limit) == |line| + 1
    decreases |line|
  {
    var s := line + "\n" + rest;
    if line != "" {
      assert s[1..] == line[1..] + "\n" + rest;
      PieceIsLine(line[1..], rest, limit - 1);
    }
  }

  /** A line that fits is read whole. */
  lemma FirstPiece(line: string, rest: string, limit: nat)
    requires '\n' !in line && |line| + 1 <= limit
    ensures Pieces(line + "\n" + rest, limit) == [line + "\n"] + Pieces(rest, limit)
  {
    var s := line + "\n" + rest;
    PieceIsLine(line, rest, limit);
    assert s[..|line| + 1] == line + "\n" && s[|line| + 1..] == rest;
  }

  lemma {:induction false} LongPiece(line: string, rest: string, limit: nat)
    requires '\n' !in line && |line| >= limit
    ensures PieceLength(line + rest, limit) == limit
    decreases limit
  {
    if limit > 0 {
      assert (line + rest)[1..] == line[1..] + rest;
      LongPiece(line[1..], rest, limit - 1);
    }
  }

  /** A line that does not fit is read in parts. */
  lemma CutPiece(line: string, rest: string, limit: nat)
    requires '\n' !in line && |line| >= limit > 0
    ensures Pieces(line + "\n" + rest, limit) == [line[..limit]] + Pieces(line[limit..] + "\n" + rest, limit)
  {
    var s := line + ("\n" + rest);
    assert s == line + "\n" + rest;
    LongPiece(line, "\n" + rest, limit);
    assert s[..limit] == line[..limit] && s[limit..] == line[limit..] + "\n" + rest;
  }

  /** The pieces of a line are those it has by itself, whatever follows it. */
  lemma {:induction false} PiecesOfLines(line: string, rest: string, limit: nat)
    requires '\n' !in line && limit > 0
    ensures Pieces(line + "\n" + rest, limit) == Pieces(line + "\n", limit) + Pieces(rest, limit)
    decreases |line|
  {
    assert line + "\n" + "" == line + "\n" && Pieces("", limit) == [];
    if |line| < limit {
      FirstPiece(line, rest, limit);
      FirstPiece(line, "", limit);
    } else {
      CutPiece(line, rest, limit);
      CutPiece(line, "", limit);
      assert line[limit..] + "\n" + "" == line[limit..] + "\n";
      PiecesOfLines(line[limit..], rest, limit);
      Regroup([line[..limit]], Pieces(line[limit..] + "\n", limit), Pieces(rest, limit));
    }
  }
}
