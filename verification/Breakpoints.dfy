/**
 * Where the Claude provider puts its cache breakpoints
 * (packages/provider-claude/src/convert.ts): on tools, system blocks and messages.
 */
module Breakpoints {
  import opened Util
  import opened JsText

  /** A cache_control, by its scope. */
  datatype Mark = NoMark | Org | Global | Plain

  datatype Kind = Text | Image | ToolUse | ToolResult | Thinking | RedactedThinking

  datatype Block = Block(kind: Kind, body: string, mark: Mark)

  datatype Content = Words(text: string) | Blocks(blocks: seq<Block>)

  datatype Message = Message(role: string, content: Content, isPreface: bool)

  function MarksIn(blocks: seq<Block>): nat {
    if blocks == [] then 0
    else MarksIn(blocks[..|blocks| - 1]) + (if blocks[|blocks| - 1].mark == NoMark then 0 else 1)
  }

  lemma {:induction false} MarksOfAppend(a: seq<Block>, b: seq<Block>)
    ensures MarksIn(a + b) == MarksIn(a) + MarksIn(b)
    decreases |b|
  {
    if b == [] {
      assert a + b == a;
    } else {
      assert (a + b)[..|a + b| - 1] == a + b[..|b| - 1];
      MarksOfAppend(a, b[..|b| - 1]);
    }
  }

  function MessageMarks(m: Message): nat {
    if m.content.Blocks? then MarksIn(m.content.blocks) else 0
  }

  function MarksInMessages(ms: seq<Message>): nat {
    if ms == [] then 0 else MarksInMessages(ms[..|ms| - 1]) + MessageMarks(ms[|ms| - 1])
  }

  // ---- which messages ----

  /** The last message up to `from` that is no preface, or -1. */
  function LastReal(ms: seq<Message>, from: int): (i: int)
    requires -1 <= from < |ms|
    ensures -1 <= i <= from && (i >= 0 ==> !ms[i].isPreface) && forall j :: i < j <= from ==> ms[j].isPreface
    decreases from + 1
  {
    if from >= 0 && ms[from].isPreface then LastReal(ms, from - 1) else from
  }

  /** The first preface, or -1. */
  function FirstPreface(ms: seq<Message>): (i: int)
    ensures -1 <= i < |ms| && (i >= 0 ==> ms[i].isPreface)
    ensures forall j :: 0 <= j < (if i >= 0 then i else |ms|) ==> !ms[j].isPreface
  {
    if exists i :: 0 <= i < |ms| && ms[i].isPreface then FirstPrefaceFrom(ms, 0) else -1
  }

  function FirstPrefaceFrom(ms: seq<Message>, from: nat): (i: nat)
    requires exists i :: from <= i < |ms| && ms[i].isPreface
    ensures from <= i < |ms| && ms[i].isPreface && forall j :: from <= j < i ==> !ms[j].isPreface
    decreases |ms| - from
  {
    if ms[from].isPreface then from else FirstPrefaceFrom(ms, from + 1)
  }

  /** The two messages to mark; -1 for none. */
  function Chosen(ms: seq<Message>): (int, int) {
    var first := FirstPreface(ms);
    var last := LastReal(ms, |ms| - 1);
    var second := if first > 0 && last > first then first - 1
                  else if last >= 0 then LastReal(ms, last - 1) else -1;
    (last, if second >= last then -1 else second)
  }

  /** A message with its last block marked, unless that is a thinking block. */
  function WithMark(m: Message): Message {
    if !m.content.Blocks? || m.content.blocks == [] then m
    else
      var n := |m.content.blocks| - 1;
      var b := m.content.blocks[n];
      if b.kind == Thinking || b.kind == RedactedThinking then m
      else m.(content := Blocks(m.content.blocks[n := b.(mark := Plain)]))
  }

  /** The messages as sent. */
  function Sent(ms: seq<Message>, enableCaching: bool): (r: seq<Message>)
    ensures |r| == |ms|
  {
    seq(|ms|, i requires 0 <= i < |ms| =>
      (if enableCaching && (i == Chosen(ms).0 || i == Chosen(ms).1) then WithMark(ms[i]) else ms[i]).(isPreface := false))
  }

  // ---- in place ----

  /** The marker field is taken off every message. */
  method StripPrefaces(messages: array<Message>)
    modifies messages
    ensures forall i :: 0 <= i < messages.Length ==> messages[i] == old(messages[i]).(isPreface := false)
  {
    for i := 0 to messages.Length
      invariant forall j :: 0 <= j < i ==> messages[j] == old(messages[j]).(isPreface := false)
      invariant forall j :: i <= j < messages.Length ==> messages[j] == old(messages[j])
    {
      messages[i] := messages[i].(isPreface := false);
    }
  }

  /** f: down from `from` past prefaces. */
  method FindReal(messages: array<Message>, from: int) returns (i: int)
    requires -1 <= from < messages.Length
    ensures i == LastReal(messages[..], from)
  {
    i := from;
    while i >= 0 && messages[i].isPreface
      invariant -1 <= i <= from && LastReal(messages[..], i) == LastReal(messages[..], from)
      decreases i + 1
    {
      i := i - 1;
    }
  }

  method FindFirstPreface(messages: array<Message>) returns (first: int)
    ensures first == FirstPreface(messages[..])
  {
    first := -1;
    for i := 0 to messages.Length
      invariant forall j :: 0 <= j < i ==> !messages[j].isPreface
    {
      if messages[i].isPreface {
        assert messages[..][i].isPreface;
        OnlyFirst(messages[..], i);
        return i;
      }
    }
  }

  lemma OnlyFirst(ms: seq<Message>, i: nat)
    requires i < |ms| && ms[i].isPreface && forall j :: 0 <= j < i ==> !ms[j].isPreface
    ensures FirstPreface(ms) == i
  {
    assert FirstPreface(ms) >= 0;
    assert ms[FirstPreface(ms)].isPreface;
  }

  method MarkMessage(messages: array<Message>, idx: int)
    requires -1 <= idx < messages.Length
    modifies messages
    ensures messages[..] == if idx < 0 then old(messages[..]) else old(messages[..])[idx := WithMark(old(messages[idx]))]
  {
    if idx < 0 {
      return;
    }
    var m := messages[idx];
    if !m.content.Blocks? || |m.content.blocks| == 0 {
      return;
    }
    var n := |m.content.blocks| - 1;
    var last := m.content.blocks[n];
    if last.kind == Thinking || last.kind == RedactedThinking {
      return;
    }
    messages[idx] := m.(content := Blocks(m.content.blocks[n := last.(mark := Plain)]));
  }

  /** applyConversationCacheBreakpoint */
  method ApplyConversationCacheBreakpoint(messages: array<Message>, enableCaching: bool)
    modifies messages
    ensures messages[..] == Sent(old(messages[..]), enableCaching)
  {
    ghost var was := messages[..];
    if enableCaching && messages.Length > 0 {
      var firstPrefaceIdx := FindFirstPreface(messages);
      var lastIdx := FindReal(messages, messages.Length - 1);
      var secondIdx := -1;
      if firstPrefaceIdx > 0 && lastIdx > firstPrefaceIdx {
        secondIdx := firstPrefaceIdx - 1;
      } else if lastIdx >= 0 {
        secondIdx := FindReal(messages, lastIdx - 1);
      }
      if secondIdx >= lastIdx {
        secondIdx := -1;
      }
      assert Chosen(was) == (lastIdx, secondIdx);
      MarkMessage(messages, lastIdx);
      MarkMessage(messages, secondIdx);
    }
    StripPrefaces(messages);
    assert forall i :: 0 <= i < messages.Length ==> messages[..][i] == Sent(was, enableCaching)[i];
  }

  // ---- what the choice is good for ----

  /**
   * Both chosen messages are real and different, the first is the last real one, and if the
   * first preface is at k > 0, one of them is the message just before it.
   */
  lemma ChoiceIsAnchored(ms: seq<Message>)
    ensures var (last, second) := Chosen(ms);
            && -1 <= second < |ms| && -1 <= last < |ms| && (second >= 0 ==> second < last)
            && (last >= 0 ==> !ms[last].isPreface) && (second >= 0 ==> !ms[second].isPreface)
            && (forall j :: last < j < |ms| ==> ms[j].isPreface)
            && (FirstPreface(ms) > 0 ==> last == FirstPreface(ms) - 1 || second == FirstPreface(ms) - 1)
            && (FirstPreface(ms) <= 0 && last >= 0 ==> forall j :: second < j < last ==> ms[j].isPreface)
  {
    var k := FirstPreface(ms);
    if k > 0 {
      assert !ms[k - 1].isPreface;
    }
  }

  /** The same conversation with other words in its prefaces. */
  predicate DifferInPrefaces(a: seq<Message>, b: seq<Message>) {
    |a| == |b| && forall i :: 0 <= i < |a| ==> a[i].isPreface == b[i].isPreface && (!a[i].isPreface ==> a[i] == b[i])
  }

  lemma {:induction false} SameLastReal(a: seq<Message>, b: seq<Message>, from: int)
    requires DifferInPrefaces(a, b) && -1 <= from < |a|
    ensures LastReal(a, from) == LastReal(b, from)
    decreases from + 1
  {
    if from >= 0 {
      SameLastReal(a, b, from - 1);
    }
  }

  /**
   * The words of prefaces decide nothing: the same messages are marked, and what precedes the
   * first preface, with its breakpoint, is sent unchanged.
   */
  lemma PrefaceWordsDoNotMatter(a: seq<Message>, b: seq<Message>, enableCaching: bool)
    requires DifferInPrefaces(a, b)
    ensures Chosen(a) == Chosen(b) && FirstPreface(a) == FirstPreface(b)
    ensures FirstPreface(a) >= 0 ==> Sent(a, enableCaching)[..FirstPreface(a)] == Sent(b, enableCaching)[..FirstPreface(a)]
  {
    SameLastReal(a, b, |a| - 1);
    var last := LastReal(a, |a| - 1);
    if last >= 0 {
      SameLastReal(a, b, last - 1);
    }
    var k := FirstPreface(a);
    if k >= 0 {
      assert b[k].isPreface;
      OnlyFirst(b, k);
    } else {
      assert forall j :: 0 <= j < |b| ==> !b[j].isPreface;
    }
  }

  // ---- how many marks ----

  lemma WithMarkCount(m: Message)
    requires MessageMarks(m) == 0
    ensures MessageMarks(WithMark(m)) <= 1
  {
    if m.content.Blocks? && m.content.blocks != [] {
      var blocks := m.content.blocks;
      var n := |blocks| - 1;
      var marked := blocks[n := blocks[n].(mark := Plain)];
      assert marked[..n] == blocks[..n];
    }
  }

  /** How many of the two chosen messages are among the first n. */
  function ChosenUpto(ms: seq<Message>, n: nat): nat {
    (if 0 <= Chosen(ms).0 < n then 1 else 0) + (if 0 <= Chosen(ms).1 < n then 1 else 0)
  }

  lemma {:induction false} MarksUpto(ms: seq<Message>, enableCaching: bool, n: nat)
    requires n <= |ms| && forall i :: 0 <= i < |ms| ==> MessageMarks(ms[i]) == 0
    ensures MarksInMessages(Sent(ms, enableCaching)[..n]) <= if enableCaching then ChosenUpto(ms, n) else 0
    decreases n
  {
    var r := Sent(ms, enableCaching);
    if n > 0 {
      MarksUpto(ms, enableCaching, n - 1);
      assert r[..n][..n - 1] == r[..n - 1];
      WithMarkCount(ms[n - 1]);
      ChoiceIsAnchored(ms);
    }
  }

  /** At most two marks on messages that had none, none when caching is off, and no marker field left. */
  lemma MessageBudget(ms: seq<Message>, enableCaching: bool)
    requires forall i :: 0 <= i < |ms| ==> MessageMarks(ms[i]) == 0
    ensures MarksInMessages(Sent(ms, enableCaching)) <= if enableCaching then 2 else 0
    ensures forall i :: 0 <= i < |ms| ==> !Sent(ms, enableCaching)[i].isPreface
  {
    MarksUpto(ms, enableCaching, |ms|);
    assert Sent(ms, enableCaching)[..|ms|] == Sent(ms, enableCaching);
  }

  // ---- system blocks and tools ----

  /** Absent texts are empty. */
  datatype SystemOptions = SystemOptions(systemText: string, enableCaching: bool, identity: string,
                                         billingHeader: string, lowFreqText: string, boundary: string)

  function SystemBlock(text: string, enableCaching: bool, mark: Mark): Block {
    Block(Text, text, if enableCaching then mark else NoMark)
  }

  /** indexOf, or -1. */
  function IndexOf(s: string, p: string): (i: int)
    ensures -1 <= i <= |s| && (i >= 0 ==> i + |p| <= |s|)
  {
    if StartsWith(s, p) then 0 else if s == "" then -1
    else if IndexOf(s[1..], p) < 0 then -1 else 1 + IndexOf(s[1..], p)
  }

  /** The blocks of the system text: split at the boundary, or whole. */
  function StaticAndDynamic(o: SystemOptions): seq<Block> {
    var at := IndexOf(o.systemText, o.boundary);
    if o.systemText == "" then []
    else if at < 0 then [SystemBlock(o.systemText, o.enableCaching, Org)]
    else
      var staticPart := Trim(o.systemText[..at]);
      var dynamicPart := Trim(o.systemText[at + |o.boundary|..]);
      (if staticPart == "" then [] else [SystemBlock(staticPart, o.enableCaching, Global)])
      + (if dynamicPart == "" then [] else [SystemBlock(dynamicPart, false, NoMark)])
  }

  function IdentityBlock(o: SystemOptions): Block {
    SystemBlock(o.identity, o.enableCaching && !(Trim(o.lowFreqText) != "" && o.systemText != ""), Org)
  }

  function Pushed(o: SystemOptions): seq<Block> {
    (if o.billingHeader == "" then [] else [SystemBlock(o.billingHeader, false, NoMark)])
    + [IdentityBlock(o)] + StaticAndDynamic(o)
    + (if Trim(o.lowFreqText) == "" then [] else [SystemBlock(o.lowFreqText, o.enableCaching, Plain)])
  }

  function NonBlank(blocks: seq<Block>): seq<Block> {
    if blocks == [] then []
    else
      var n := |blocks| - 1;
      NonBlank(blocks[..n]) + (if blocks[n].body != "" && Trim(blocks[n].body) != "" then [blocks[n]] else [])
  }

  /** The blocks pushed, in order. */
  method PushSystemBlocks(o: SystemOptions) returns (blocks: seq<Block>)
    ensures blocks == Pushed(o)
  {
    blocks := [];
    var hasLowFreq := Trim(o.lowFreqText) != "";
    if o.billingHeader != "" {
      blocks := blocks + [SystemBlock(o.billingHeader, false, NoMark)];
    }
    var dropIdentityBreakpoint := hasLowFreq && o.systemText != "";
    blocks := blocks + [SystemBlock(o.identity, o.enableCaching && !dropIdentityBreakpoint, Org)];
    blocks := blocks + StaticAndDynamic(o);
    if hasLowFreq {
      blocks := blocks + [SystemBlock(o.lowFreqText, o.enableCaching, Plain)];
    }
  }

  /** Without the blank ones. */
  method FilterBlank(pushed: seq<Block>) returns (blocks: seq<Block>)
    ensures blocks == NonBlank(pushed)
  {
    blocks := [];
    for i := 0 to |pushed|
      invariant blocks == NonBlank(pushed[..i])
    {
      assert pushed[..i + 1][..i] == pushed[..i];
      if pushed[i].body != "" && Trim(pushed[i].body) != "" {
        blocks := blocks + [pushed[i]];
      }
    }
    assert pushed[..|pushed|] == pushed;
  }

  /** convertSystemBlocks */
  method ConvertSystemBlocks(o: SystemOptions) returns (blocks: seq<Block>)
    ensures blocks == NonBlank(Pushed(o))
  {
    var pushed := PushSystemBlocks(o);
    blocks := FilterBlank(pushed);
  }

  lemma {:induction false} NonBlankMarks(blocks: seq<Block>)
    ensures MarksIn(NonBlank(blocks)) <= MarksIn(blocks)
    decreases |blocks|
  {
    if blocks != [] {
      var n := |blocks| - 1;
      NonBlankMarks(blocks[..n]);
      if blocks[n].body != "" && Trim(blocks[n].body) != "" {
        MarksOfAppend(NonBlank(blocks[..n]), [blocks[n]]);
        OneMark(blocks[n]);
      } else {
        assert NonBlank(blocks) == NonBlank(blocks[..n]);
      }
    }
  }

  lemma OneMark(b: Block)
    ensures MarksIn([b]) == if b.mark == NoMark then 0 else 1
  {
    assert [b][..0] == [];
  }

  lemma TextMarks(o: SystemOptions)
    ensures MarksIn(StaticAndDynamic(o)) <= if o.enableCaching && o.systemText != "" then 1 else 0
  {
    var at := IndexOf(o.systemText, o.boundary);
    if o.systemText != "" {
      if at < 0 {
        OneMark(SystemBlock(o.systemText, o.enableCaching, Org));
      } else {
        var staticPart := Trim(o.systemText[..at]);
        var dynamicPart := Trim(o.systemText[at + |o.boundary|..]);
        var a := if staticPart == "" then [] else [SystemBlock(staticPart, o.enableCaching, Global)];
        var b := if dynamicPart == "" then [] else [SystemBlock(dynamicPart, false, NoMark)];
        MarksOfAppend(a, b);
        OneMark(SystemBlock(staticPart, o.enableCaching, Global));
        OneMark(SystemBlock(dynamicPart, false, NoMark));
      }
    }
  }

  /** At most two marks on system blocks, none when caching is off. */
  lemma SystemBudget(o: SystemOptions)
    ensures MarksIn(NonBlank(Pushed(o))) <= if o.enableCaching then 2 else 0
  {
    var billing := if o.billingHeader == "" then [] else [SystemBlock(o.billingHeader, false, NoMark)];
    var lowFreq := if Trim(o.lowFreqText) == "" then [] else [SystemBlock(o.lowFreqText, o.enableCaching, Plain)];
    NonBlankMarks(Pushed(o));
    MarksOfAppend(billing + [IdentityBlock(o)] + StaticAndDynamic(o), lowFreq);
    MarksOfAppend(billing + [IdentityBlock(o)], StaticAndDynamic(o));
    MarksOfAppend(billing, [IdentityBlock(o)]);
    OneMark(SystemBlock(o.billingHeader, false, NoMark));
    OneMark(IdentityBlock(o));
    OneMark(SystemBlock(o.lowFreqText, o.enableCaching, Plain));
    TextMarks(o);
  }

  lemma {:induction false} KeptByFilter(blocks: seq<Block>, b: Block)
    requires b in blocks && b.body != "" && Trim(b.body) != ""
    ensures b in NonBlank(blocks)
    decreases |blocks|
  {
    var n := |blocks| - 1;
    if b != blocks[n] {
      assert b in blocks[..n];
      KeptByFilter(blocks[..n], b);
    }
  }

  /** With caching on, an identity is always within some breakpoint: its own, or one of a later block. */
  lemma IdentityIsCached(o: SystemOptions)
    requires o.enableCaching && Trim(o.identity) != "" && o.identity != ""
    ensures var kept := NonBlank(Pushed(o));
            IdentityBlock(o) in kept
            && (IdentityBlock(o).mark != NoMark || (o.lowFreqText != "" && SystemBlock(o.lowFreqText, true, Plain) in kept))
  {
    var pushed := Pushed(o);
    assert IdentityBlock(o) in pushed;
    KeptByFilter(pushed, IdentityBlock(o));
    if IdentityBlock(o).mark == NoMark {
      var low := SystemBlock(o.lowFreqText, true, Plain);
      assert pushed[|pushed| - 1] == low;
      KeptByFilter(pushed, low);
    }
  }

  /** A request: no mark on tools, and those on system blocks and messages. */
  lemma RequestBudget(o: SystemOptions, ms: seq<Message>)
    requires forall i :: 0 <= i < |ms| ==> MessageMarks(ms[i]) == 0
    ensures MarksIn(NonBlank(Pushed(o))) + MarksInMessages(Sent(ms, o.enableCaching)) <= 4
  {
    SystemBudget(o);
    MessageBudget(ms, o.enableCaching);
  }
}
