/** String operations as JavaScript has them: white space, trim, split at newlines. */
module JsText {
  /** White space and line ends, as trim and \s take them. */
  predicate IsSpace(c: char) {
    '\U{9}' <= c <= '\U{D}' || c == ' ' || c == '\U{A0}' || c == '\U{1680}' || '\U{2000}' <= c <= '\U{200A}'
    || c == '\U{2028}' || c == '\U{2029}' || c == '\U{202F}' || c == '\U{205F}' || c == '\U{3000}' || c == '\U{FEFF}'
  }

  function TrimStart(s: string): string {
    if s != "" && IsSpace(s[0]) then TrimStart(s[1..]) else s
  }

  function TrimEnd(s: string): string {
    if s != "" && IsSpace(s[|s| - 1]) then TrimEnd(s[..|s| - 1]) else s
  }

  function Trim(s: string): string {
    TrimEnd(TrimStart(s))
  }

  /** The position of the last newline, or -1. */
  function LastNewline(s: string): (i: int)
    ensures -1 <= i < |s| && (i >= 0 ==> s[i] == '\n') && forall j :: i < j < |s| ==> s[j] != '\n'
  {
    if s == "" then -1 else if s[|s| - 1] == '\n' then |s| - 1 else LastNewline(s[..|s| - 1])
  }

  // ---- lines ----

  /** The lines ended by a newline, without it. */
  function Complete(s: string): seq<string> {
    if s == "" then []
    else if s[|s| - 1] == '\n' then Complete(s[..|s| - 1]) + [Rest(s[..|s| - 1])]
    else Complete(s[..|s| - 1])
  }

  /** What follows the last newline. */
  function Rest(s: string): string {
    if s == "" || s[|s| - 1] == '\n' then "" else Rest(s[..|s| - 1]) + [s[|s| - 1]]
  }

  /** split("\n") */
  function Split(s: string): seq<string> {
    Complete(s) + [Rest(s)]
  }

  lemma {:induction false} RestHasNoNewline(s: string)
    ensures '\n' !in Rest(s)
  {
    if s != "" && s[|s| - 1] != '\n' {
      RestHasNoNewline(s[..|s| - 1]);
    }
  }

  lemma {:induction false} NoNewlineIsRest(s: string)
    requires '\n' !in s
    ensures Complete(s) == [] && Rest(s) == s
  {
    if s != "" {
      assert s == s[..|s| - 1] + [s[|s| - 1]];
      NoNewlineIsRest(s[..|s| - 1]);
    }
  }

  /** Text may be cut anywhere: what is left over is put before what comes next. */
  lemma {:induction false} LinesOfAppend(a: string, b: string)
    ensures Complete(a + b) == Complete(a) + Complete(Rest(a) + b)
    ensures Rest(a + b) == Rest(Rest(a) + b)
    decreases |b|
  {
    if b == "" {
      assert a + b == a && Rest(a) + b == Rest(a);
      RestHasNoNewline(a);
      NoNewlineIsRest(Rest(a));
    } else {
      var c := b[..|b| - 1];
      assert (a + b)[..|a + b| - 1] == a + c;
      assert (Rest(a) + b)[..|Rest(a) + b| - 1] == Rest(a) + c;
      LinesOfAppend(a, c);
    }
  }

  lemma AfterNewline(head: string, tail: string)
    requires head != "" && head[|head| - 1] == '\n' && '\n' !in tail
    ensures Complete(head + tail) == Complete(head) && Rest(head) == "" && Rest(head + tail) == tail
  {
    LinesOfAppend(head, tail);
    assert "" + tail == tail;
    NoNewlineIsRest(tail);
    assert Complete(head) + [] == Complete(head);
  }

  lemma CutAtNewline(s: string, i: nat)
    requires i < |s| && s[i] == '\n' && forall j :: i < j < |s| ==> s[j] != '\n'
    ensures Complete(s) == Complete(s[..i + 1]) && Rest(s[..i + 1]) == "" && Rest(s) == s[i + 1..]
  {
    var head, tail := s[..i + 1], s[i + 1..];
    assert s == head + tail;
    AfterNewline(head, tail);
  }

  /** Splitting at the last newline: the part up to it, and the rest. */
  lemma LastNewlineSplits(s: string)
    ensures LastNewline(s) == -1 ==> Complete(s) == [] && Rest(s) == s
    ensures LastNewline(s) >= 0 ==>
              Complete(s) == Complete(s[..LastNewline(s) + 1]) && Rest(s[..LastNewline(s) + 1]) == ""
              && Rest(s) == s[LastNewline(s) + 1..]
  {
    if LastNewline(s) == -1 {
      NoNewlineIsRest(s);
    } else {
      CutAtNewline(s, LastNewline(s));
    }
  }

  function Joined(chunks: seq<string>): string {
    if chunks == [] then "" else Joined(chunks[..|chunks| - 1]) + chunks[|chunks| - 1]
  }

  lemma {:induction false} JoinedCut(chunks: seq<string>, i: nat)
    requires i <= |chunks|
    ensures Joined(chunks) == Joined(chunks[..i]) + Joined(chunks[i..])
    decreases |chunks|
  {
    if i == |chunks| {
      assert chunks[..i] == chunks && Joined(chunks[i..]) == "";
    } else {
      var n := |chunks| - 1;
      JoinedCut(chunks[..n], i);
      assert chunks[..n][..i] == chunks[..i] && chunks[i..][..n - i] == chunks[..n][i..];
    }
  }
}
