/** Normalising workspace directories (packages/util/src/workspace.ts). */
module Workspace {
  import opened Util
  import opened JsText

  // ---- pieces of a path ----

  /** Each run of backslashes becomes one slash. */
  function Slashed(s: string): (r: string)
    ensures '\\' !in r
  {
    if s == "" then ""
    else if s[0] != '\\' then [s[0]] + Slashed(s[1..])
    else if |s| > 1 && s[1] == '\\' then Slashed(s[1..])
    else "/" + Slashed(s[1..])
  }

  predicate IsLetter(c: char) {
    'a' <= c <= 'z' || 'A' <= c <= 'Z'
  }

  predicate AllSlashes(s: string) {
    forall i :: 0 <= i < |s| ==> s[i] == '/'
  }

  predicate HasDrive(s: string) {
    |s| >= 3 && IsLetter(s[0]) && s[1] == ':' && s[2] == '/'
  }

  /** getWorkspacePathRoot */
  function Root(s: string): (r: string)
    ensures StartsWith(s, r)
  {
    if s == "" then ""
    else if AllSlashes(s) then "/"
    else if StartsWith(s, "//") then "//"
    else if StartsWith(s, "/") then "/"
    else if HasDrive(s) then s[..3]
    else ""
  }

  /** The number of characters before the first slash. */
  function WordLength(s: string): (n: nat)
    ensures n <= |s| && '/' !in s[..n] && (n < |s| ==> s[n] == '/')
  {
    if s == "" || s[0] == '/' then 0
    else
      assert s[..1 + WordLength(s[1..])] == [s[0]] + s[1..][..WordLength(s[1..])];
      1 + WordLength(s[1..])
  }

  /** split(/\/+/) without empty parts. */
  function PartsOf(s: string): seq<string> {
    if s == "" then []
    else if s[0] == '/' then PartsOf(s[1..])
    else [s[..WordLength(s)]] + PartsOf(s[WordLength(s)..])
  }

  function Join(parts: seq<string>): string {
    if parts == [] then "" else if |parts| == 1 then parts[0] else parts[0] + ("/" + Join(parts[1..]))
  }

  /** [\\/]+ at the end taken off. */
  function TrimEnds(s: string): string {
    if s != "" && (s[|s| - 1] == '/' || s[|s| - 1] == '\\') then TrimEnds(s[..|s| - 1]) else s
  }

  /** trimTrailingSeparators */
  function TrimTrailing(s: string): string {
    if s == Root(s) then s else TrimEnds(s)
  }

  // ---- the loop ----

  function Pushed(stack: seq<string>, part: string, hasRoot: bool): seq<string> {
    if part == "." then stack
    else if part == ".." then
      if stack != [] && stack[|stack| - 1] != ".." then stack[..|stack| - 1]
      else if hasRoot then stack else stack + [part]
    else stack + [part]
  }

  function Resolved(parts: seq<string>, hasRoot: bool): seq<string> {
    if parts == [] then [] else Pushed(Resolved(parts[..|parts| - 1], hasRoot), parts[|parts| - 1], hasRoot)
  }

  function Normalized(directory: string): string {
    var s := Slashed(directory);
    var root := Root(s);
    TrimTrailing(root + Join(Resolved(PartsOf(s[|root|..]), root != "")))
  }

  /** normalizeWorkspaceDirectory */
  method NormalizeWorkspaceDirectory(directory: string) returns (r: string)
    ensures r == Normalized(directory)
  {
    var slashNormalized := Slashed(directory);
    var root := Root(slashNormalized);
    var parts := PartsOf(slashNormalized[|root|..]);
    var normalizedParts: seq<string> := [];
    for i := 0 to |parts|
      invariant normalizedParts == Resolved(parts[..i], root != "")
    {
      assert parts[..i + 1][..i] == parts[..i];
      var part := parts[i];
      if part != "." {
        if part == ".." {
          if |normalizedParts| > 0 && normalizedParts[|normalizedParts| - 1] != ".." {
            normalizedParts := normalizedParts[..|normalizedParts| - 1];
          } else if root == "" {
            normalizedParts := normalizedParts + [part];
          }
        } else {
          normalizedParts := normalizedParts + [part];
        }
      }
    }
    assert parts[..|parts|] == parts;
    r := TrimTrailing(root + Join(normalizedParts));
  }

  // ---- canonical paths ----

  predicate IsPart(p: string) {
    p != "" && '/' !in p && '\\' !in p && p != "."
  }

  /** Proper parts, ".." only at the start, and only without a root. */
  predicate AreCanonical(parts: seq<string>, hasRoot: bool) {
    && (forall i :: 0 <= i < |parts| ==> IsPart(parts[i]))
    && (forall i :: 0 <= i < |parts| && parts[i] == ".." ==> !hasRoot)
    && (forall i, j :: 0 <= j < i < |parts| && parts[i] == ".." ==> parts[j] == "..")
  }

  predicate IsRoot(root: string) {
    root == "" || root == "/" || root == "//" || (|root| == 3 && HasDrive(root))
  }

  /** How a canonical path is written; a lone "//" is not kept. */
  function Written(root: string, parts: seq<string>): string {
    if parts == [] then (if root == "//" then "" else root) else root + Join(parts)
  }

  lemma {:induction false} PartsAreWords(s: string)
    requires '\\' !in s
    ensures forall i :: 0 <= i < |PartsOf(s)| ==> PartsOf(s)[i] != "" && '/' !in PartsOf(s)[i] && '\\' !in PartsOf(s)[i]
    decreases |s|
  {
    if s != "" {
      if s[0] == '/' {
        PartsAreWords(s[1..]);
      } else {
        PartsAreWords(s[WordLength(s)..]);
      }
    }
  }

  lemma {:induction false} ResolvedIsCanonical(parts: seq<string>, hasRoot: bool)
    requires forall i :: 0 <= i < |parts| ==> parts[i] != "" && '/' !in parts[i] && '\\' !in parts[i]
    ensures AreCanonical(Resolved(parts, hasRoot), hasRoot)
    decreases |parts|
  {
    if parts != [] {
      ResolvedIsCanonical(parts[..|parts| - 1], hasRoot);
      PushedIsCanonical(Resolved(parts[..|parts| - 1], hasRoot), parts[|parts| - 1], hasRoot);
    }
  }

  lemma PushedIsCanonical(stack: seq<string>, part: string, hasRoot: bool)
    requires AreCanonical(stack, hasRoot) && part != "" && '/' !in part && '\\' !in part
    ensures AreCanonical(Pushed(stack, part, hasRoot), hasRoot)
  {
    if part == ".." && stack != [] && stack[|stack| - 1] == ".." {
      assert forall j :: 0 <= j < |stack| ==> stack[j] == "..";
    }
  }

  lemma PushedCanonical(stack: seq<string>, part: string, hasRoot: bool)
    requires part != "." && (part == ".." ==> !hasRoot && (stack == [] || stack[|stack| - 1] == ".."))
    ensures Pushed(stack, part, hasRoot) == stack + [part]
  {
  }

  lemma {:induction false} ResolvedCanonical(parts: seq<string>, hasRoot: bool)
    requires AreCanonical(parts, hasRoot)
    ensures Resolved(parts, hasRoot) == parts
    decreases |parts|
  {
    if parts != [] {
      var n := |parts| - 1;
      ResolvedCanonical(parts[..n], hasRoot);
      PushedCanonical(parts[..n], parts[n], hasRoot);
      assert parts[..n] + [parts[n]] == parts;
    }
  }

  lemma {:induction false} WordEnds(w: string, rest: string)
    requires '/' !in w && (rest == "" || rest[0] == '/')
    ensures WordLength(w + rest) == |w|
    decreases |w|
  {
    if w == "" {
      assert w + rest == rest;
    } else {
      assert (w + rest)[1..] == w[1..] + rest;
      WordEnds(w[1..], rest);
    }
  }

  lemma {:induction false} PartsOfJoin(parts: seq<string>)
    requires forall i :: 0 <= i < |parts| ==> IsPart(parts[i])
    ensures PartsOf(Join(parts)) == parts
    decreases |parts|
  {
    if parts != [] {
      var rest := if |parts| == 1 then "" else "/" + Join(parts[1..]);
      var s := Join(parts);
      assert s == parts[0] + rest;
      assert s[0] == parts[0][0] != '/';
      WordEnds(parts[0], rest);
      assert s[..|parts[0]|] == parts[0] && s[|parts[0]|..] == rest;
      PartsOfJoin(parts[1..]);
      if |parts| > 1 {
        assert rest[1..] == Join(parts[1..]);
      }
      assert [parts[0]] + parts[1..] == parts;
    }
  }

  lemma {:induction false} JoinShape(parts: seq<string>)
    requires parts != [] && IsPart(parts[0]) && forall i :: 0 <= i < |parts| ==> IsPart(parts[i])
    ensures var s := Join(parts);
            s != "" && '\\' !in s && s[0] == parts[0][0] && s[0] != '/' && s[|s| - 1] != '/'
    decreases |parts|
  {
    assert parts[0][|parts[0]| - 1] != '/';
    if |parts| > 1 {
      JoinShape(parts[1..]);
      var s, t := Join(parts), Join(parts[1..]);
      assert s == parts[0] + ("/" + t);
      assert s[|s| - 1] == t[|t| - 1];
    }
  }

  lemma {:induction false} SlashedIsSame(s: string)
    requires '\\' !in s
    ensures Slashed(s) == s
  {
    if s != "" {
      SlashedIsSame(s[1..]);
      assert [s[0]] + s[1..] == s;
    }
  }

  lemma RootIsRoot(s: string)
    ensures IsRoot(Root(s))
  {
  }

  // What a canonical path looks like before it is trimmed, and after.
  lemma TrimmedIsWritten(root: string, parts: seq<string>)
    requires IsRoot(root) && AreCanonical(parts, root != "")
    ensures TrimTrailing(root + Join(parts)) == Written(root, parts)
  {
    var s := root + Join(parts);
    if parts == [] {
      assert s == root;
      if root == "//" {
        assert TrimEnds("/") == "" && "//"[..1] == "/";
      }
    } else {
      JoinShape(parts);
      assert Join(parts)[|Join(parts)| - 1] in Join(parts);
      NothingTrimmed(root, Join(parts));
    }
  }

  lemma NothingTrimmed(root: string, t: string)
    requires t != "" && t[|t| - 1] != '/' && t[|t| - 1] != '\\'
    ensures TrimTrailing(root + t) == root + t
  {
    assert (root + t)[|root + t| - 1] == t[|t| - 1];
  }

  /** Every result is a canonical path. */
  lemma NormalizedIsCanonical(directory: string) returns (root: string, parts: seq<string>)
    ensures IsRoot(root) && AreCanonical(parts, root != "") && Normalized(directory) == Written(root, parts)
  {
    var s := Slashed(directory);
    root := Root(s);
    RootIsRoot(s);
    assert '\\' !in s[|root|..];
    PartsAreWords(s[|root|..]);
    ResolvedIsCanonical(PartsOf(s[|root|..]), root != "");
    parts := Resolved(PartsOf(s[|root|..]), root != "");
    TrimmedIsWritten(root, parts);
  }

  // ---- normalising a canonical path ----

  lemma RootOfJoin(parts: seq<string>)
    requires parts != [] && forall i :: 0 <= i < |parts| ==> IsPart(parts[i])
    ensures var s := Join(parts);
            Root(s) == if |parts| > 1 && |parts[0]| == 2 && IsLetter(parts[0][0]) && parts[0][1] == ':' then parts[0] + "/" else ""
  {
    var s := Join(parts);
    JoinShape(parts);
    if |parts| > 1 {
      var rest := "/" + Join(parts[1..]);
      assert s == parts[0] + rest;
      if |parts[0]| == 1 {
        assert s[1] == '/';
      } else if |parts[0]| == 2 {
        assert s[2] == '/' && s[..3] == parts[0] + "/";
      } else {
        assert s[2] == parts[0][2] && s[2] in parts[0];
      }
    } else {
      assert |s| > 2 ==> s[2] in s;
    }
  }

  lemma RootOfWritten(root: string, t: string)
    requires IsRoot(root) && root != "" && t != "" && t[0] != '/'
    ensures Root(root + t) == root
  {
    var s := root + t;
    assert s[|root|] == t[0];
    assert !AllSlashes(s);
    assert s[..|root|] == root;
    if root == "/" {
      assert s[..2][1] == t[0];
    } else if |root| == 3 {
      assert s[0] == root[0] && s[1] == root[1] && s[2] == root[2];
      assert s[..1][0] == s[0] && s[..2][0] == s[0];
    }
  }

  // A path with no backslash, of a known root and parts.
  lemma NormalizedFrom(s: string, root: string, parts: seq<string>)
    requires '\\' !in s && Root(s) == root && s[|root|..] == Join(parts)
    requires IsRoot(root) && AreCanonical(parts, root != "")
    ensures Normalized(s) == Written(root, parts)
  {
    SlashedIsSame(s);
    PartsOfJoin(parts);
    ResolvedCanonical(parts, root != "");
    TrimmedIsWritten(root, parts);
  }

  lemma NormalizedRootAlone(root: string)
    requires IsRoot(root)
    ensures Normalized(Written(root, [])) == Written(root, [])
  {
    if root == "//" {
      NormalizedFrom("", "", []);
    } else {
      assert Root(root) == root;
      NormalizedFrom(root, root, []);
    }
  }

  lemma NormalizedRooted(root: string, parts: seq<string>)
    requires IsRoot(root) && root != "" && parts != [] && AreCanonical(parts, true)
    ensures Normalized(root + Join(parts)) == root + Join(parts)
  {
    var s := root + Join(parts);
    JoinShape(parts);
    RootOfWritten(root, Join(parts));
    assert s[|root|..] == Join(parts);
    NormalizedFrom(s, root, parts);
  }

  lemma NormalizedRelative(parts: seq<string>)
    requires parts != [] && AreCanonical(parts, false)
    ensures Normalized(Join(parts)) == Join(parts)
  {
    var s := Join(parts);
    JoinShape(parts);
    RootOfJoin(parts);
    if Root(s) == "" {
      assert s[0..] == s;
      NormalizedFrom(s, "", parts);
    } else {
      DriveFromParts(s, parts);
    }
  }

  lemma NormalizedWritten(root: string, parts: seq<string>)
    requires IsRoot(root) && AreCanonical(parts, root != "")
    ensures Normalized(Written(root, parts)) == Written(root, parts)
  {
    if parts == [] {
      NormalizedRootAlone(root);
    } else if root != "" {
      NormalizedRooted(root, parts);
    } else {
      assert "" + Join(parts) == Join(parts);
      NormalizedRelative(parts);
    }
  }

  // A relative path that now begins like a drive.
  lemma DriveFromParts(s: string, parts: seq<string>)
    requires |parts| > 1 && AreCanonical(parts, false) && s == Join(parts) && '\\' !in s
    requires Root(s) == parts[0] + "/" && |parts[0]| == 2 && IsLetter(parts[0][0]) && parts[0][1] == ':'
    ensures Normalized(s) == s
  {
    var root := parts[0] + "/";
    Regroup(parts[0], "/", Join(parts[1..]));
    assert s == root + Join(parts[1..]);
    NotUp(parts);
    assert IsRoot(root);
    NormalizedRooted(root, parts[1..]);
  }

  lemma NotUp(parts: seq<string>)
    requires |parts| > 1 && AreCanonical(parts, false) && |parts[0]| == 2 && parts[0][1] == ':'
    ensures AreCanonical(parts[1..], true)
  {
    assert parts[0] != "..";
    assert forall i :: 0 <= i < |parts[1..]| ==> parts[1..][i] == parts[i + 1];
  }

  /** Normalising twice is normalising once. */
  lemma Idempotent(directory: string)
    ensures Normalized(Normalized(directory)) == Normalized(directory)
  {
    var root, parts := NormalizedIsCanonical(directory);
    NormalizedWritten(root, parts);
  }

  lemma PartsOfRooted(root: string, parts: seq<string>)
    requires (root == "" || root == "/" || root == "//") && forall i :: 0 <= i < |parts| ==> IsPart(parts[i])
    ensures PartsOf(root + Join(parts)) == parts
  {
    PartsOfJoin(parts);
    var s := root + Join(parts);
    if root == "" {
      assert s == Join(parts);
    } else if root == "/" {
      assert s[1..] == Join(parts);
    } else {
      assert s[1..][1..] == Join(parts);
    }
  }

  lemma DriveParts(root: string, parts: seq<string>)
    requires |root| == 3 && HasDrive(root) && '\\' !in root && AreCanonical(parts, true)
    ensures PartsOf(Written(root, parts)) == [root[..2]] + parts
  {
    var drive := root[..2];
    assert root == drive + "/" && drive[1] == ':';
    if parts == [] {
      DriveAlone(root);
      assert [drive] + [] == [drive];
    } else {
      var all := [drive] + parts;
      assert IsPart(drive);
      assert all[1..] == parts;
      PartsOfJoin(all);
      Regroup(drive, "/", Join(parts));
    }
  }

  // The parts of a written path: a drive is one more.
  lemma WrittenParts(root: string, parts: seq<string>)
    requires IsRoot(root) && '\\' !in root && AreCanonical(parts, root != "")
    ensures PartsOf(Written(root, parts)) == AllParts(root, parts)
  {
    if |root| == 3 {
      DriveParts(root, parts);
    } else {
      PartsOfRooted(root, parts);
      assert parts == [] ==> root + Join(parts) == root && PartsOf("") == [];
    }
  }

  function AllParts(root: string, parts: seq<string>): seq<string> {
    if |root| == 3 then [root[..2]] + parts else parts
  }

  lemma DriveAlone(root: string)
    requires |root| == 3 && HasDrive(root)
    ensures PartsOf(root) == [root[..2]]
  {
    assert root == root[..2] + "/";
    WordEnds(root[..2], "/");
    assert root[2..] == "/";
    assert "/"[1..] == "";
    assert PartsOf("/") == [];
  }

  lemma WrittenShape(root: string, parts: seq<string>)
    requires IsRoot(root) && AreCanonical(parts, root != "")
    ensures '\\' !in Written(root, parts)
    ensures parts != [] && parts[0] == ".." ==> Root(Written(root, parts)) == ""
  {
    if parts != [] {
      JoinShape(parts);
      RootOfJoin(parts);
    }
  }

  /** No "." part; ".." only as a leading run, and then there is no root. */
  predicate IsProper(parts: seq<string>, root: string) {
    && (forall i :: 0 <= i < |parts| ==> parts[i] != ".")
    && (forall i :: 0 <= i < |parts| && parts[i] == ".." ==> root == "")
    && (forall i, j :: 0 <= j < i < |parts| && parts[i] == ".." ==> parts[j] == "..")
  }

  lemma AllPartsProper(root: string, parts: seq<string>)
    requires IsRoot(root) && AreCanonical(parts, root != "")
    ensures IsProper(AllParts(root, parts), Root(Written(root, parts)))
  {
    if |root| == 3 {
      assert root[..2][1] == ':';
    } else {
      WrittenShape(root, parts);
      assert forall i :: 0 <= i < |parts| && parts[i] == ".." ==> i == 0 || parts[0] == "..";
    }
  }

  /** The result has no backslash and its parts are proper. */
  lemma ResultShape(directory: string)
    ensures var r := Normalized(directory);
            '\\' !in r && IsProper(PartsOf(r), Root(r))
  {
    var root, parts := NormalizedIsCanonical(directory);
    WrittenShape(root, parts);
    WrittenParts(root, parts);
    AllPartsProper(root, parts);
  }

  /** Two slashes and nothing kept below them give the empty string. */
  lemma LoneDoubleSlash()
    ensures Normalized("//..") == ""
  {
    var s := "//..";
    SlashedIsSame(s);
    assert s[2..] == "..";
    assert PartsOf("..") == [".."] by {
      PartsOfJoin([".."]);
    }
    assert Root(s) == "//";
    assert Resolved([".."], true) == [] by {
      assert [".."][..0] == [];
    }
    TrimmedIsWritten("//", []);
  }
}
