/** Reading the Codex event stream line by line (packages/provider-codex/src/sse.ts). */
module CodexLines {
  import opened Util
  import opened JsText

  const DONE := "data: [DONE]"
  const DATA := "data: "

  /** What one line comes to; `parse` stands for JSON.parse. */
  datatype Reading<E> = Nothing | Stop | Event(event: E)

  function ReadLine<E>(line: string, parse: string -> Option<E>): Reading<E> {
    var trimmed := Trim(line);
    if trimmed == "" || trimmed[0] == ':' then Nothing
    else if trimmed == DONE then Stop
    else if StartsWith(trimmed, DATA) && parse(trimmed[|DATA|..]).Some? then Event(parse(trimmed[|DATA|..]).value)
    else Nothing
  }

  predicate Stops<E>(lines: seq<string>, parse: string -> Option<E>) {
    exists i :: 0 <= i < |lines| && ReadLine(lines[i], parse).Stop?
  }

  /** The events of the lines before the one that ends the stream. */
  function Events<E>(lines: seq<string>, parse: string -> Option<E>): seq<E> {
    if lines == [] then []
    else
      match ReadLine(lines[0], parse)
      case Nothing => Events(lines[1..], parse)
      case Stop => []
      case Event(e) => [e] + Events(lines[1..], parse)
  }

  lemma {:induction false} EventsOfAppend<E>(a: seq<string>, b: seq<string>, parse: string -> Option<E>)
    ensures Stops(a, parse) ==> Events(a + b, parse) == Events(a, parse)
    ensures !Stops(a, parse) ==> Events(a + b, parse) == Events(a, parse) + Events(b, parse)
    decreases |a|
  {
    if a == [] {
      assert a + b == b;
    } else {
      assert (a + b)[1..] == a[1..] + b;
      EventsOfAppend(a[1..], b, parse);
      StopsFirst(a, parse);
    }
  }

  lemma StopsFirst<E>(a: seq<string>, parse: string -> Option<E>)
    requires a != []
    ensures Stops(a, parse) <==> ReadLine(a[0], parse).Stop? || Stops(a[1..], parse)
  {
    assert forall i :: 0 <= i < |a[1..]| ==> a[1..][i] == a[i + 1];
  }

  // Once a chunk has ended the stream, later chunks change nothing.
  lemma StoppedIsFinal<E>(chunks: seq<string>, i: nat, parse: string -> Option<E>)
    requires i <= |chunks| && Stops(Complete(Joined(chunks[..i])), parse)
    ensures Events(Complete(Joined(chunks)), parse) == Events(Complete(Joined(chunks[..i])), parse)
  {
    var head, tail := Joined(chunks[..i]), Joined(chunks[i..]);
    JoinedCut(chunks, i);
    LinesOfAppend(head, tail);
    EventsOfAppend(Complete(head), Complete(Rest(head) + tail), parse);
  }

  /** The lines of one chunk, until one ends the stream. */
  method ReadLines<E>(lines: seq<string>, parse: string -> Option<E>) returns (events: seq<E>, closed: bool)
    ensures events == Events(lines, parse) && closed == Stops(lines, parse)
  {
    events := [];
    closed := false;
    for i := 0 to |lines|
      invariant !closed && !Stops(lines[..i], parse) && events == Events(lines[..i], parse)
    {
      assert lines[..i + 1] == lines[..i] + [lines[i]];
      EventsOfAppend(lines[..i], [lines[i]], parse);
      assert Events([lines[i]][1..], parse) == [];
      match ReadLine(lines[i], parse) {
        case Nothing =>
        case Stop =>
          assert [lines[i]][0] == lines[i];
          assert lines[..i + 1][i] == lines[i];
          EventsOfAppend(lines[..i + 1], lines[i + 1..], parse);
          assert lines == lines[..i + 1] + lines[i + 1..];
          return events, true;
        case Event(e) => events := events + [e];
      }
    }
    assert lines[..|lines|] == lines;
  }

  /**
   * parseSSEStream: however the text is cut into chunks, the events are those of its complete
   * lines, up to the first [DONE].
   */
  method ParseSSEStream<E>(chunks: seq<string>, parse: string -> Option<E>) returns (events: seq<E>)
    ensures events == Events(Complete(Joined(chunks)), parse)
  {
    events := [];
    var buffer := "";
    for i := 0 to |chunks|
      invariant buffer == Rest(Joined(chunks[..i]))
      invariant events == Events(Complete(Joined(chunks[..i])), parse) && !Stops(Complete(Joined(chunks[..i])), parse)
    {
      ghost var text := Joined(chunks[..i]);
      assert chunks[..i + 1][..i] == chunks[..i];
      LinesOfAppend(text, chunks[i]);
      buffer := buffer + chunks[i];
      var lines := Complete(buffer);
      buffer := Rest(buffer);
      var more, closed := ReadLines(lines, parse);
      EventsOfAppend(Complete(text), lines, parse);
      StopsOfAppend(Complete(text), lines, parse);
      events := events + more;
      if closed {
        StoppedIsFinal(chunks, i + 1, parse);
        return;
      }
    }
    assert chunks[..|chunks|] == chunks;
  }

  lemma StopsOfAppend<E>(a: seq<string>, b: seq<string>, parse: string -> Option<E>)
    ensures Stops(a + b, parse) <==> Stops(a, parse) || Stops(b, parse)
  {
    assert forall i :: 0 <= i < |a| ==> (a + b)[i] == a[i];
    assert forall i :: 0 <= i < |b| ==> (a + b)[|a| + i] == b[i];
  }

  /** Nothing after a [DONE] line, nor an unfinished last line, is ever an event. */
  lemma OnlyBeforeDone<E>(before: string, after: string, parse: string -> Option<E>)
    ensures Events(Complete(before + "\n" + DONE + "\n" + after), parse) == Events(Complete(before + "\n"), parse)
  {
    var head := before + "\n";
    var done := DONE + "\n";
    assert before + "\n" + DONE + "\n" + after == head + (done + after);
    LinesOfAppend(head, done + after);
    assert head[|head| - 1] == '\n' && Rest(head) == "" && Rest(head) + (done + after) == done + after;
    LinesOfAppend(done, after);
    DoneLine();
    var lines := Complete(head);
    var rest := Complete(done + after);
    assert rest == [DONE] + Complete(Rest(done) + after);
    assert ReadLine(rest[0], parse).Stop?;
    EventsOfAppend(lines, rest, parse);
    assert Events(lines, parse) + [] == Events(lines, parse);
  }

  lemma DoneLine()
    ensures Complete(DONE + "\n") == [DONE] && Trim(DONE) == DONE
  {
    var s := DONE + "\n";
    assert s[..|s| - 1] == DONE;
    NoNewlineIsRest(DONE);
  }

  lemma LastLineDropped<E>(text: string, last: string, parse: string -> Option<E>)
    requires '\n' !in last
    ensures Events(Complete(text + "\n" + last), parse) == Events(Complete(text + "\n"), parse)
  {
    var head := text + "\n";
    LinesOfAppend(head, last);
    assert head[|head| - 1] == '\n' && Rest(head) + last == last;
    NoNewlineIsRest(last);
    assert Complete(head) + [] == Complete(head);
  }
}
