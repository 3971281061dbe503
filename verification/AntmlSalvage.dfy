/**
 * Recovery of tool calls written as text (packages/provider-claude/src/antml-salvage.ts): a
 * direct scanner for its two patterns.
 */
module AntmlSalvage {
  import opened Util
  import opened JsText

  /** name is the tool's, input its parameters. */
  datatype Call = Call(name: string, input: map<string, string>)

  datatype Tag = Invoke | Parameter {
    function Name(): (s: string)
      ensures s != "" && '<' !in s
    {
      match this
      case Invoke => "invoke"
      case Parameter => "parameter"
    }

    /** The start of an opening tag, with or without its namespace. */
    function OpenStart(antml: bool): (s: string)
      ensures s != "" && s[0] == '<' && '<' !in s[1..]
    {
      if antml then "<" + "antml:" + Name() else "<" + Name()
    }

    function CloseTag(antml: bool): (s: string)
      ensures s != "" && s[0] == '<' && '<' !in s[1..]
    {
      if antml then "<" + "/antml:" + Name() + ">" else "<" + "/" + Name() + ">"
    }
  }

  // ---- the patterns ----

  predicate IsSuffix(r: string, s: string) {
    |r| <= |s| && r == s[|s| - |r|..]
  }

  lemma SuffixOfSuffix(a: string, b: string, c: string)
    requires IsSuffix(a, b) && IsSuffix(b, c)
    ensures IsSuffix(a, c)
  {
    assert c[|c| - |b|..][|b| - |a|..] == c[|c| - |a|..];
  }

  function After(s: string, prefix: string): (r: Option<string>)
    ensures r.Some? ==> IsSuffix(r.value, s)
  {
    if StartsWith(s, prefix) then Some(s[|prefix|..]) else None
  }

  function SkipSpace(s: string): (r: string)
    ensures IsSuffix(r, s)
  {
    if s != "" && IsSpace(s[0]) then
      SuffixOfSuffix(SkipSpace(s[1..]), s[1..], s);
      SkipSpace(s[1..])
    else s
  }

  /** At least one character other than a quote, up to a quote. */
  function QuotedName(s: string): (r: Option<(string, string)>)
    ensures r.Some? ==> IsSuffix(r.value.1, s)
  {
    var n := UptoQuote(s);
    if 0 < n < |s| then Some((s[..n], s[n + 1..])) else None
  }

  function UptoQuote(s: string): (n: nat)
    ensures n <= |s| && (n < |s| ==> s[n] == '"') && forall i :: 0 <= i < n ==> s[i] != '"'
  {
    if s == "" || s[0] == '"' then 0 else 1 + UptoQuote(s[1..])
  }

  /** White space, then the literal. */
  function SpaceThen(s: string, literal: string): (r: Option<string>)
    ensures r.Some? ==> IsSuffix(r.value, s)
  {
    var r := After(SkipSpace(s), literal);
    if r.Some? then
      SuffixOfSuffix(r.value, SkipSpace(s), s);
      r
    else None
  }

  /** The part of an opening tag after the tag's name. */
  function Attributes(s: string): (r: Option<(string, string)>)
    ensures r.Some? ==> IsSuffix(r.value.1, s)
  {
    if s == "" || !IsSpace(s[0]) then None
    else
      var value := SpaceThen(s, "name=\"");
      if value.None? then None
      else
        var name := QuotedName(value.value);
        if name.None? then None
        else
          var rest := SpaceThen(name.value.1, ">");
          if rest.None? then None
          else
            SuffixOfSuffix(name.value.1, value.value, s);
            SuffixOfSuffix(rest.value, name.value.1, s);
            Some((name.value.0, rest.value))
  }

  function AfterOpenStart(tag: Tag, s: string): (r: Option<string>)
    ensures r.Some? ==> IsSuffix(r.value, s) && |r.value| < |s|
  {
    if StartsWith(s, tag.OpenStart(true)) then After(s, tag.OpenStart(true)) else After(s, tag.OpenStart(false))
  }

  /** An opening tag at the start of s: the name it gives, and what follows. */
  function Opening(tag: Tag, s: string): (r: Option<(string, string)>)
    ensures r.Some? ==> IsSuffix(r.value.1, s) && |r.value.1| < |s|
  {
    var rest := AfterOpenStart(tag, s);
    if rest.None? then None
    else
      var r := Attributes(rest.value);
      if r.Some? then
        SuffixOfSuffix(r.value.1, rest.value, s);
        r
      else None
  }

  function Closing(tag: Tag, s: string): Option<string> {
    if StartsWith(s, tag.CloseTag(true)) then After(s, tag.CloseTag(true)) else After(s, tag.CloseTag(false))
  }

  /** The shortest text before a closing tag, and what follows the tag. */
  function Body(tag: Tag, s: string): (r: Option<(string, string)>)
    ensures r.Some? ==> |r.value.1| < |s|
  {
    var rest := Closing(tag, s);
    if rest.Some? then Some(("", rest.value))
    else if s == "" then None
    else
      var more := Body(tag, s[1..]);
      if more.None? then None else Some(([s[0]] + more.value.0, more.value.1))
  }

  datatype Match = Match(name: string, body: string, rest: string)

  function MatchHere(tag: Tag, s: string): (r: Option<Match>)
    ensures r.Some? ==> |r.value.rest| < |s|
  {
    var open := Opening(tag, s);
    if open.None? then None
    else
      var body := Body(tag, open.value.1);
      if body.None? then None else Some(Match(open.value.0, body.value.0, body.value.1))
  }

  /** The leftmost match. */
  function Next(tag: Tag, s: string): (r: Option<Match>)
    ensures r.Some? ==> |r.value.rest| < |s|
  {
    if MatchHere(tag, s).Some? then MatchHere(tag, s)
    else if s == "" then None
    else Next(tag, s[1..])
  }

  // ---- calls ----

  /** One newline off each end. */
  function Unpadded(v: string): string {
    var a := if v != "" && v[0] == '\n' then v[1..] else v;
    if a != "" && a[|a| - 1] == '\n' then a[..|a| - 1] else a
  }

  /** Every match leaves less text behind. */
  ghost predicate Shrinks(next: string -> Option<Match>) {
    forall s: string :: next(s).Some? ==> |next(s).value.rest| < |s|
  }

  function NextInvoke(s: string): (r: Option<Match>)
    ensures r.Some? ==> |r.value.rest| < |s|
  {
    Next(Invoke, s)
  }

  function NextParameter(s: string): (r: Option<Match>)
    ensures r.Some? ==> |r.value.rest| < |s|
  {
    Next(Parameter, s)
  }

  /** The parameters a way of matching finds in a body, added to those given. */
  function ParametersBy(next: string -> Option<Match>, body: string, params: map<string, string>): map<string, string>
    requires Shrinks(next)
    decreases |body|
  {
    var m := next(body);
    if m.None? then params else ParametersBy(next, m.value.rest, params[m.value.name := Unpadded(m.value.body)])
  }

  /** The calls two ways of matching find in a text. */
  function CallsBy(invoke: string -> Option<Match>, parameter: string -> Option<Match>, text: string): seq<Call>
    requires Shrinks(invoke) && Shrinks(parameter)
    decreases |text|
  {
    var m := invoke(text);
    if m.None? then []
    else [Call(m.value.name, ParametersBy(parameter, m.value.body, map[]))] + CallsBy(invoke, parameter, m.value.rest)
  }

  function Parameters(body: string, params: map<string, string>): map<string, string> {
    ParametersBy(NextParameter, body, params)
  }

  function Calls(text: string): seq<Call> {
    CallsBy(NextInvoke, NextParameter, text)
  }

  predicate Includes(text: string, part: string) {
    exists i :: 0 <= i <= |text| && StartsWith(text[i..], part)
  }

  predicate MayContainInvoke(text: string) {
    Includes(text, "<invoke") || Includes(text, ":invoke")
  }

  lemma OpeningIncludes(text: string, antml: bool)
    requires StartsWith(text, Invoke.OpenStart(antml))
    ensures MayContainInvoke(text)
  {
    assert text[0..] == text;
    if antml {
      assert text[6..][..7] == text[..13][6..];
    }
  }

  lemma {:induction false} MatchNeedsInvoke(text: string)
    ensures Next(Invoke, text).Some? ==> MayContainInvoke(text)
    decreases |text|
  {
    if StartsWith(text, Invoke.OpenStart(true)) {
      OpeningIncludes(text, true);
    } else if StartsWith(text, Invoke.OpenStart(false)) {
      OpeningIncludes(text, false);
    } else if text != "" {
      MatchNeedsInvoke(text[1..]);
      assert forall i :: 0 <= i <= |text[1..]| ==> text[1..][i..] == text[i + 1..];
    }
  }

  /** The loop over a body's parameters. */
  method CollectParameters(next: string -> Option<Match>, body: string) returns (params: map<string, string>)
    requires Shrinks(next)
    ensures params == ParametersBy(next, body, map[])
  {
    params := map[];
    var rest := body;
    var m := next(rest);
    while m.Some?
      invariant m == next(rest) && ParametersBy(next, rest, params) == ParametersBy(next, body, map[])
      decreases |rest|
    {
      params := params[m.value.name := Unpadded(m.value.body)];
      rest := m.value.rest;
      m := next(rest);
    }
  }

  /** The loop over a text's calls. */
  method CollectCalls(invoke: string -> Option<Match>, parameter: string -> Option<Match>, text: string) returns (calls: seq<Call>)
    requires Shrinks(invoke) && Shrinks(parameter)
    ensures calls == CallsBy(invoke, parameter, text)
  {
    calls := [];
    var rest := text;
    var m := invoke(rest);
    while m.Some?
      invariant m == invoke(rest) && calls + CallsBy(invoke, parameter, rest) == CallsBy(invoke, parameter, text)
      decreases |rest|
    {
      var params := CollectParameters(parameter, m.value.body);
      Regroup(calls, [Call(m.value.name, params)], CallsBy(invoke, parameter, m.value.rest));
      calls := calls + [Call(m.value.name, params)];
      rest := m.value.rest;
      m := invoke(rest);
    }
  }

  /** salvageAntmlInvokes */
  method SalvageAntmlInvokes(text: string) returns (calls: seq<Call>)
    ensures calls == Calls(text)
  {
    if !MayContainInvoke(text) {
      MatchNeedsInvoke(text);
      return [];
    }
    calls := CollectCalls(NextInvoke, NextParameter, text);
  }

  // ---- writing calls as text ----

  /** Nowhere in s does a tag's opening start. */
  predicate NoOpening(tag: Tag, s: string) {
    forall i, antml :: 0 <= i < |s| ==> !StartsWith(s[i..], tag.OpenStart(antml))
  }

  predicate NoClosing(tag: Tag, s: string) {
    forall i, antml :: 0 <= i < |s| ==> !StartsWith(s[i..], tag.CloseTag(antml))
  }

  /** A name, its text, the prose before it and whether its tags carry the namespace. */
  datatype Block = Block(before: string, name: string, text: string, antml: bool)

  function OpenTag(tag: Tag, name: string, antml: bool): string {
    tag.OpenStart(antml) + NameAttribute(name)
  }

  function NameAttribute(name: string): string {
    " name=\"" + name + "\">"
  }

  function RenderBlock(tag: Tag, b: Block): string {
    b.before + (OpenTag(tag, b.name, b.antml) + (b.text + tag.CloseTag(b.antml)))
  }

  function Render(tag: Tag, blocks: seq<Block>, tail: string): string {
    if blocks == [] then tail else RenderBlock(tag, blocks[0]) + Render(tag, blocks[1..], tail)
  }

  predicate IsBlock(tag: Tag, b: Block) {
    NoOpening(tag, b.before) && b.name != "" && '"' !in b.name && NoClosing(tag, b.text)
  }

  predicate AreBlocks(tag: Tag, blocks: seq<Block>) {
    forall i :: 0 <= i < |blocks| ==> IsBlock(tag, blocks[i])
  }

  /** A text with no complete block: nothing opens, or nothing closes. */
  predicate IsTail(tag: Tag, s: string) {
    NoOpening(tag, s) || NoClosing(tag, s)
  }

  // ---- reading them back ----

  // A tag does not start in a text and end beyond it when a '<' comes next.
  lemma StartsInside(u: string, v: string, literal: string)
    requires u != "" && literal != "" && '<' !in literal[1..]
    requires v == "" || v[0] == '<'
    ensures StartsWith(u + v, literal) <==> StartsWith(u, literal)
  {
    if |literal| <= |u| {
      assert (u + v)[..|literal|] == u[..|literal|];
    } else {
      assert literal[|u|] == literal[1..][|u| - 1] != '<';
      assert v != "" ==> (u + v)[|u|] == '<';
    }
  }

  lemma {:induction false} ProseIsSkipped(tag: Tag, prose: string, s: string)
    requires NoOpening(tag, prose) && (s == "" || s[0] == '<')
    ensures Next(tag, prose + s) == Next(tag, s)
    decreases |prose|
  {
    if prose == "" {
      assert prose + s == s;
    } else {
      StartsInside(prose, s, tag.OpenStart(true));
      StartsInside(prose, s, tag.OpenStart(false));
      assert prose[0..] == prose;
      assert (prose + s)[1..] == prose[1..] + s;
      forall i, antml | 0 <= i < |prose[1..]|
        ensures !StartsWith(prose[1..][i..], tag.OpenStart(antml))
      {
        assert prose[1..][i..] == prose[i + 1..];
      }
      ProseIsSkipped(tag, prose[1..], s);
    }
  }

  lemma ClosingNotYet(tag: Tag, text: string, close: string)
    requires text != "" && NoClosing(tag, text) && close != "" && close[0] == '<'
    ensures Closing(tag, text + close).None?
  {
    assert text[0..] == text;
    StartsInside(text, close, tag.CloseTag(true));
    StartsInside(text, close, tag.CloseTag(false));
  }

  lemma {:induction false} BodyIsFound(tag: Tag, text: string, antml: bool, rest: string)
    requires NoClosing(tag, text)
    ensures Body(tag, text + (tag.CloseTag(antml) + rest)) == Some((text, rest))
    decreases |text|
  {
    var close := tag.CloseTag(antml) + rest;
    if text == "" {
      assert text + close == close;
      ClosingIsFound(tag, antml, rest);
    } else {
      var c, more := [text[0]], text[1..];
      assert text == c + more;
      ClosingNotYet(tag, text, close);
      NoClosingInSuffix(tag, text, more);
      BodyIsFound(tag, more, antml, rest);
      Regroup(c, more, close);
      BodyGoesOn(tag, text[0], more + close);
    }
  }

  lemma BodyGoesOn(tag: Tag, c: char, s: string)
    requires Closing(tag, [c] + s).None?
    ensures var more := Body(tag, s);
            Body(tag, [c] + s) == if more.None? then None else Some(([c] + more.value.0, more.value.1))
  {
    assert ([c] + s)[1..] == s;
  }

  lemma NameIsNotNamespace(tag: Tag)
    ensures tag.Name()[0] != 'a'
  {
  }

  lemma ClosingIsFound(tag: Tag, antml: bool, rest: string)
    ensures Closing(tag, tag.CloseTag(antml) + rest) == Some(rest)
  {
    var s := tag.CloseTag(antml) + rest;
    assert s[..|tag.CloseTag(antml)|] == tag.CloseTag(antml);
    if !antml {
      assert s[2] == tag.Name()[0] && tag.CloseTag(true)[2] == 'a';
      NameIsNotNamespace(tag);
    }
  }

  lemma OpenStartIsFound(tag: Tag, antml: bool, rest: string)
    ensures AfterOpenStart(tag, tag.OpenStart(antml) + rest) == Some(rest)
  {
    var s := tag.OpenStart(antml) + rest;
    assert s[..|tag.OpenStart(antml)|] == tag.OpenStart(antml);
    if !antml {
      assert s[1] == tag.Name()[0] && tag.OpenStart(true)[1] == 'a';
      NameIsNotNamespace(tag);
    }
  }

  lemma OpeningIsFound(tag: Tag, name: string, antml: bool, rest: string)
    requires name != "" && '"' !in name
    ensures Opening(tag, OpenTag(tag, name, antml) + rest) == Some((name, rest))
  {
    Regroup(tag.OpenStart(antml), NameAttribute(name), rest);
    OpenStartIsFound(tag, antml, NameAttribute(name) + rest);
    AttributesAreFound(name, rest);
  }

  lemma SpaceThenIsFound(space: string, literal: string, rest: string)
    requires (space == "" || space == " ") && literal != "" && !IsSpace(literal[0])
    ensures SpaceThen(space + (literal + rest), literal) == Some(rest)
  {
    var s := literal + rest;
    assert SkipSpace(s) == s;
    if space == " " {
      assert (space + s)[1..] == s;
      assert SkipSpace(space + s) == s;
    } else {
      assert space + s == s;
    }
    assert s[..|literal|] == literal;
  }

  lemma QuotedNameIsFound(name: string, rest: string)
    requires name != "" && '"' !in name
    ensures QuotedName(name + ("\"" + rest)) == Some((name, rest))
  {
    var s := name + ("\"" + rest);
    assert s[|name|] == '"' && forall i :: 0 <= i < |name| ==> s[i] == name[i];
    assert UptoQuote(s) == |name|;
    assert s[|name| + 1..] == rest && s[..|name|] == name;
  }

  lemma AttributesAreFound(name: string, rest: string)
    requires name != "" && '"' !in name
    ensures Attributes(NameAttribute(name) + rest) == Some((name, rest))
  {
    var end := "" + (">" + rest);
    var quoted := name + ("\"" + end);
    assert NameAttribute(name) + rest == " " + ("name=\"" + quoted);
    SpaceThenIsFound(" ", "name=\"", quoted);
    QuotedNameIsFound(name, end);
    SpaceThenIsFound("", ">", rest);
  }

  lemma MatchIsFound(tag: Tag, s: string, name: string, inner: string, text: string, rest: string)
    requires Opening(tag, s) == Some((name, inner)) && Body(tag, inner) == Some((text, rest))
    ensures Next(tag, s) == Some(Match(name, text, rest))
  {
  }

  lemma BlockIsFound(tag: Tag, b: Block, rest: string)
    requires IsBlock(tag, b)
    ensures Next(tag, RenderBlock(tag, b) + rest) == Some(Match(b.name, b.text, rest))
  {
    var open, close := OpenTag(tag, b.name, b.antml), tag.CloseTag(b.antml);
    var inner := b.text + (close + rest);
    Regroup(b.before, open + (b.text + close), rest);
    Regroup(open, b.text + close, rest);
    Regroup(b.text, close, rest);
    OpenTagStarts(tag, b.name, b.antml, inner);
    ProseIsSkipped(tag, b.before, open + inner);
    OpeningIsFound(tag, b.name, b.antml, inner);
    BodyIsFound(tag, b.text, b.antml, rest);
    MatchIsFound(tag, open + inner, b.name, inner, b.text, rest);
  }

  lemma OpenTagStarts(tag: Tag, name: string, antml: bool, rest: string)
    ensures OpenTag(tag, name, antml) + rest != "" && (OpenTag(tag, name, antml) + rest)[0] == '<'
  {
  }

  lemma {:induction false} NoClosingNoBody(tag: Tag, s: string)
    requires NoClosing(tag, s)
    ensures Body(tag, s).None?
    decreases |s|
  {
    if s != "" {
      assert s[0..] == s;
      NoClosingInSuffix(tag, s, s[1..]);
      NoClosingNoBody(tag, s[1..]);
    }
  }

  lemma NoClosingInSuffix(tag: Tag, s: string, r: string)
    requires NoClosing(tag, s) && IsSuffix(r, s)
    ensures NoClosing(tag, r)
  {
    forall i, a | 0 <= i < |r|
      ensures !StartsWith(r[i..], tag.CloseTag(a))
    {
      assert r[i..] == s[|s| - |r| + i..];
    }
  }

  lemma {:induction false} NoClosingNoMatch(tag: Tag, s: string)
    requires NoClosing(tag, s)
    ensures Next(tag, s).None?
    decreases |s|
  {
    if Opening(tag, s).Some? {
      NoClosingInSuffix(tag, s, Opening(tag, s).value.1);
      NoClosingNoBody(tag, Opening(tag, s).value.1);
    }
    assert MatchHere(tag, s).None?;
    if s != "" {
      NoClosingInSuffix(tag, s, s[1..]);
      NoClosingNoMatch(tag, s[1..]);
    }
  }

  /** Text without a complete block gives no match, however it opens. */
  lemma TailHasNoMatch(tag: Tag, s: string)
    requires IsTail(tag, s)
    ensures Next(tag, s).None?
  {
    if NoOpening(tag, s) {
      ProseIsSkipped(tag, s, "");
      assert s + "" == s;
    } else {
      NoClosingNoMatch(tag, s);
    }
  }

  // ---- round trips ----

  /** The parameters of blocks in order, later ones over earlier ones of the same name. */
  function ParametersOf(blocks: seq<Block>, params: map<string, string>): map<string, string> {
    if blocks == [] then params else ParametersOf(blocks[1..], params[blocks[0].name := Unpadded(blocks[0].text)])
  }

  lemma {:induction false} ParametersRoundTrip(blocks: seq<Block>, tail: string, params: map<string, string>)
    requires AreBlocks(Parameter, blocks) && IsTail(Parameter, tail)
    ensures Parameters(Render(Parameter, blocks, tail), params) == ParametersOf(blocks, params)
    decreases |blocks|
  {
    if blocks == [] {
      TailHasNoMatch(Parameter, tail);
    } else {
      BlockIsFound(Parameter, blocks[0], Render(Parameter, blocks[1..], tail));
      ParametersRoundTrip(blocks[1..], tail, params[blocks[0].name := Unpadded(blocks[0].text)]);
    }
  }

  /** A call as written: its parameters, and the text after the last of them. */
  datatype Written = Written(before: string, name: string, antml: bool, parameters: seq<Block>, after: string) {
    function AsBlock(): Block {
      Block(before, name, Render(Parameter, parameters, after), antml)
    }

    function AsCall(): Call {
      Call(name, ParametersOf(parameters, map[]))
    }

    predicate Valid() {
      IsBlock(Invoke, AsBlock()) && AreBlocks(Parameter, parameters) && IsTail(Parameter, after)
    }
  }

  function AsBlocks(written: seq<Written>): (blocks: seq<Block>)
    ensures |blocks| == |written| && forall i :: 0 <= i < |written| ==> blocks[i] == written[i].AsBlock()
  {
    seq(|written|, i requires 0 <= i < |written| => written[i].AsBlock())
  }

  function AsCalls(written: seq<Written>): (calls: seq<Call>)
    ensures |calls| == |written| && forall i :: 0 <= i < |written| ==> calls[i] == written[i].AsCall()
  {
    seq(|written|, i requires 0 <= i < |written| => written[i].AsCall())
  }

  /**
   * Calls written between tag-free prose are recovered, all of them and in order, with their
   * parameters; a block left open after them yields nothing.
   */
  lemma {:induction false} CallsRoundTrip(written: seq<Written>, tail: string)
    requires forall i :: 0 <= i < |written| ==> written[i].Valid()
    requires IsTail(Invoke, tail)
    ensures Calls(Render(Invoke, AsBlocks(written), tail)) == AsCalls(written)
    decreases |written|
  {
    if written == [] {
      TailHasNoMatch(Invoke, tail);
    } else {
      var w, more := written[0], written[1..];
      assert AsBlocks(written)[1..] == AsBlocks(more);
      assert AsCalls(written) == [w.AsCall()] + AsCalls(more);
      BlockIsFound(Invoke, w.AsBlock(), Render(Invoke, AsBlocks(more), tail));
      ParametersRoundTrip(w.parameters, w.after, map[]);
      CallsRoundTrip(more, tail);
    }
  }

  /** Distinct parameters come back with their own values, one newline at each end taken off. */
  lemma {:induction false} EachParameterKept(blocks: seq<Block>, params: map<string, string>, i: nat)
    requires i < |blocks| && forall j, k :: 0 <= j < k < |blocks| ==> blocks[j].name != blocks[k].name
    ensures blocks[i].name in ParametersOf(blocks, params)
    ensures ParametersOf(blocks, params)[blocks[i].name] == Unpadded(blocks[i].text)
    decreases |blocks|
  {
    var params1 := params[blocks[0].name := Unpadded(blocks[0].text)];
    if i > 0 {
      EachParameterKept(blocks[1..], params1, i - 1);
    } else {
      OthersLeaveParameter(blocks[1..], params1, blocks[0].name);
    }
  }

  lemma {:induction false} OthersLeaveParameter(blocks: seq<Block>, params: map<string, string>, name: string)
    requires name in params && forall j :: 0 <= j < |blocks| ==> blocks[j].name != name
    ensures name in ParametersOf(blocks, params) && ParametersOf(blocks, params)[name] == params[name]
    decreases |blocks|
  {
    if blocks != [] {
      OthersLeaveParameter(blocks[1..], params[blocks[0].name := Unpadded(blocks[0].text)], name);
    }
  }

  /** A value written between newlines comes back as it was. */
  lemma PaddingComesOff(v: string)
    ensures Unpadded("\n" + v + "\n") == v
  {
    assert ("\n" + v + "\n")[1..] == v + "\n";
    assert (v + "\n")[..|v|] == v;
  }
}
