/** The route table over whole sequences of commands, reloads and restarts. */
module RouteRuns {
  import opened Util
  import opened Decimal
  import opened CText
  import opened RouteFile
  import opened RouteReload
  import opened RouteTable

  /** One state more than commands, each following from the one before. */
  ghost predicate IsRun(header: seq<string>, states: seq<Contents>, commands: seq<Command>) {
    && |states| == |commands| + 1
    && (forall i :: 0 <= i < |states| ==> states[i].count <= |states[i].slots|)
    && (forall i :: 0 <= i < |commands| ==> Follows(header, states[i], commands[i], states[i + 1]))
  }

  /** The file is the table's, and the table is as commands leave it. */
  ghost predicate IsInSync(header: seq<string>, s: Contents) {
    && s.count <= |s.slots| && IsSorted(s.Routes()) && HasUniquePrefixes(s.Routes())
    && HaveCNumbers(s.Routes()) && HaveNoSocketHosts(s.Routes())
    && s.file == FlushText(header, s.Routes())
  }

  /** The command's writes succeed, and its numbers are C's. */
  predicate IsWritten(c: Command) {
    match c
    case Publish(q, writable) => writable && HasCNumbers(NewRoute(q))
    case Remove(_, writable) => writable
    case _ => true
  }

  predicate AreWritten(commands: seq<Command>) {
    forall i :: 0 <= i < |commands| ==> IsWritten(commands[i])
  }

  predicate Rereads(c: Command) {
    c.Reload? || c.Restart?
  }

  /** The table has the same routes as before. */
  predicate IsKept(a: Contents, b: Contents)
    requires a.count <= |a.slots| && b.count <= |b.slots|
  {
    multiset(b.Routes()) == multiset(a.Routes())
  }

  // ---- sameness up to order ----

  lemma PermutedHold(rs: seq<Route>, ts: seq<Route>)
    requires multiset(rs) == multiset(ts)
    ensures HaveCNumbers(rs) ==> HaveCNumbers(ts)
    ensures HaveNoSocketHosts(rs) ==> HaveNoSocketHosts(ts)
    ensures AreStorable(rs) ==> AreStorable(ts)
  {
    SameRoutes(rs, ts);
    forall i | 0 <= i < |ts|
      ensures ts[i] in rs
    {
      assert ts[i] in ts;
    }
  }

  lemma SameSize(rs: seq<Route>, ts: seq<Route>)
    requires multiset(rs) == multiset(ts)
    ensures |rs| == |ts|
  {
    assert |rs| == |multiset(rs)| && |ts| == |multiset(ts)|;
  }

  predicate HasPrefix(rs: seq<Route>, prefix: string) {
    exists i :: 0 <= i < |rs| && rs[i].prefix == prefix
  }

  lemma SamePrefixes(rs: seq<Route>, ts: seq<Route>, prefix: string)
    requires multiset(rs) == multiset(ts)
    ensures HasPrefix(rs, prefix) <==> HasPrefix(ts, prefix)
  {
    SameRoutes(rs, ts);
    assert forall i :: 0 <= i < |rs| ==> rs[i] in rs;
    assert forall i :: 0 <= i < |ts| ==> ts[i] in ts;
    if i :| 0 <= i < |rs| && rs[i].prefix == prefix {
      assert rs[i] in ts;
    }
    if i :| 0 <= i < |ts| && ts[i].prefix == prefix {
      assert ts[i] in rs;
    }
  }

  lemma RepliesAreSame(rs: seq<Route>, ts: seq<Route>, q: Request, prefix: string, size: nat)
    requires multiset(rs) == multiset(ts)
    ensures PublishReply(rs, q, size) == PublishReply(ts, q, size) && RemoveReply(rs, prefix) == RemoveReply(ts, prefix)
  {
    SameSize(rs, ts);
    SamePrefixes(rs, ts, q.prefix);
    SamePrefixes(rs, ts, prefix);
    assert HasPrefix(rs, q.prefix) <==> exists i :: 0 <= i < |rs| && rs[i].prefix == q.prefix;
    assert HasPrefix(ts, q.prefix) <==> exists i :: 0 <= i < |ts| && ts[i].prefix == q.prefix;
    assert HasPrefix(rs, prefix) <==> exists i :: 0 <= i < |rs| && rs[i].prefix == prefix;
    assert HasPrefix(ts, prefix) <==> exists i :: 0 <= i < |ts| && ts[i].prefix == prefix;
  }

  lemma TakenOutOne(rs: seq<Route>, i: nat)
    requires i < |rs|
    ensures multiset(TakenOutAt(rs, i)) == multiset(rs) - multiset{rs[i]}
  {
    assert rs == rs[..i] + [rs[i]] + rs[i + 1..];
    assert multiset(rs) == multiset(rs[..i]) + multiset{rs[i]} + multiset(rs[i + 1..]);
  }

  lemma OnlyOne(rs: seq<Route>, i: nat)
    requires HasUniquePrefixes(rs) && i < |rs|
    ensures rs[i] in rs && forall x :: x in rs && x.prefix == rs[i].prefix ==> x == rs[i]
  {
  }

  /** Removing takes out one route of a table of unique prefixes. */
  lemma RemovedOne(rs: seq<Route>, prefix: string) returns (r: Route)
    requires HasUniquePrefixes(rs) && HasPrefix(rs, prefix)
    ensures r in rs && r.prefix == prefix && multiset(Without(rs, prefix)) == multiset(rs) - multiset{r}
    ensures forall x :: x in rs && x.prefix == prefix ==> x == r
    ensures HasUniquePrefixes(Without(rs, prefix)) && (IsSorted(rs) ==> IsSorted(Without(rs, prefix)))
  {
    var i :| 0 <= i < |rs| && rs[i].prefix == prefix;
    r := rs[i];
    OnlyOne(rs, i);
    FirstIsTakenOut(rs, prefix, i);
    WithoutKeeps(rs, i);
    TakenOutOne(rs, i);
  }

  lemma WithoutSame(rs: seq<Route>, ts: seq<Route>, prefix: string)
    requires multiset(rs) == multiset(ts) && HasUniquePrefixes(rs) && HasUniquePrefixes(ts) && HasPrefix(rs, prefix)
    ensures multiset(Without(rs, prefix)) == multiset(Without(ts, prefix))
  {
    SamePrefixes(rs, ts, prefix);
    SameRoutes(rs, ts);
    var r := RemovedOne(rs, prefix);
    var t := RemovedOne(ts, prefix);
  }

  lemma {:induction false} WithoutHold(rs: seq<Route>, prefix: string)
    ensures forall r :: r in Without(rs, prefix) ==> r in rs
    decreases |rs|
  {
    if rs != [] && rs[0].prefix != prefix {
      WithoutHold(rs[1..], prefix);
    }
  }

  // ---- one command ----

  lemma AddedHold(rs: seq<Route>, r: Route)
    requires !HasPrefix(rs, r.prefix)
    ensures HasUniquePrefixes(rs) ==> HasUniquePrefixes(rs + [r])
    ensures HaveCNumbers(rs) && HasCNumbers(r) ==> HaveCNumbers(rs + [r])
    ensures HaveNoSocketHosts(rs) && (r.isUds ==> r.host == "") ==> HaveNoSocketHosts(rs + [r])
    ensures AreStorable(rs) && IsStorable(r) ==> AreStorable(rs + [r])
  {
  }

  lemma Accepted(rs: seq<Route>, q: Request, size: nat)
    requires PublishReply(rs, q, size).Ok?
    ensures !HasPrefix(rs, NewRoute(q).prefix) && (NewRoute(q).isUds ==> NewRoute(q).host == "") && |rs| < size
  {
    assert NewRoute(q).prefix == q.prefix;
  }

  lemma PublishKeepsSync(header: seq<string>, a: Contents, c: Command, b: Contents)
    requires IsInSync(header, a) && c.Publish? && IsWritten(c) && Follows(header, a, c, b)
    ensures IsInSync(header, b)
  {
    if PublishReply(a.Routes(), c.q, |a.slots|).Ok? {
      var more := a.Routes() + [NewRoute(c.q)];
      Accepted(a.Routes(), c.q, |a.slots|);
      AddedHold(a.Routes(), NewRoute(c.q));
      PermutedHold(more, b.Routes());
    }
  }

  lemma RemoveKeepsSync(header: seq<string>, a: Contents, c: Command, b: Contents)
    requires IsInSync(header, a) && c.Remove? && IsWritten(c) && Follows(header, a, c, b)
    ensures IsInSync(header, b)
  {
    if RemoveReply(a.Routes(), c.prefix).Ok? {
      assert HasPrefix(a.Routes(), c.prefix);
      var r := RemovedOne(a.Routes(), c.prefix);
      WithoutHold(a.Routes(), c.prefix);
      assert forall i :: 0 <= i < |b.Routes()| ==> b.Routes()[i] in a.Routes();
    }
  }

  /** Reading the file again gives the same routes exactly when they are all storable. */
  lemma RereadExactly(header: seq<string>, a: Contents, c: Command, b: Contents)
    requires AreComments(header) && IsInSync(header, a) && Rereads(c) && Follows(header, a, c, b)
    ensures IsKept(a, b) <==> AreStorable(a.Routes())
    ensures IsKept(a, b) ==> b.Routes() == a.Routes() && IsInSync(header, b)
  {
    if c.Reload? {
      ReloadKeepsExactly(header, a.Routes(), a.slots);
    } else {
      RestartKeepsExactly(header, a.Routes(), Cleared(|a.slots|));
    }
  }

  lemma CommandKeepsSync(header: seq<string>, a: Contents, c: Command, b: Contents)
    requires AreComments(header) && IsInSync(header, a) && IsWritten(c) && Follows(header, a, c, b)
    requires Rereads(c) ==> IsKept(a, b)
    ensures IsInSync(header, b)
  {
    match c
    case Publish(_, _) => PublishKeepsSync(header, a, c, b);
    case Remove(_, _) => RemoveKeepsSync(header, a, c, b);
    case _ => RereadExactly(header, a, c, b);
  }

  // ---- runs ----

  lemma LastCommand(header: seq<string>, a: Contents, c: Command, b: Contents)
    requires AreComments(header) && IsInSync(header, a) && IsWritten(c) && Follows(header, a, c, b)
    ensures Rereads(c) ==> (IsKept(a, b) <==> AreStorable(a.Routes()))
    ensures (Rereads(c) ==> IsKept(a, b)) ==> IsInSync(header, b)
  {
    if Rereads(c) {
      RereadExactly(header, a, c, b);
    }
    if Rereads(c) ==> IsKept(a, b) {
      CommandKeepsSync(header, a, c, b);
    }
  }

  /** Each reload and restart among the first n commands leaves the routes as they were. */
  ghost predicate AllKept(header: seq<string>, states: seq<Contents>, commands: seq<Command>, n: nat)
    requires IsRun(header, states, commands) && n <= |commands|
  {
    forall i :: 0 <= i < n && Rereads(commands[i]) ==> IsKept(states[i], states[i + 1])
  }

  /** Each finds only storable routes in the table. */
  ghost predicate AllStorable(header: seq<string>, states: seq<Contents>, commands: seq<Command>, n: nat)
    requires IsRun(header, states, commands) && n <= |commands|
  {
    forall i :: 0 <= i < n && Rereads(commands[i]) ==> AreStorable(states[i].Routes())
  }

  /**
   * In every run of publishes, removes, reloads and restarts whose writes succeed: each reload
   * leaves the routes as they were exactly when each finds only storable ones. Then the table is
   * sorted with unique prefixes after every command, and the file is the table's.
   */
  lemma {:induction false} RunKeepsExactly(header: seq<string>, states: seq<Contents>, commands: seq<Command>, n: nat)
    requires AreComments(header) && IsRun(header, states, commands) && AreWritten(commands) && IsInSync(header, states[0])
    requires n <= |commands|
    ensures AllKept(header, states, commands, n) <==> AllStorable(header, states, commands, n)
    ensures AllKept(header, states, commands, n) ==> IsInSync(header, states[n])
    decreases n
  {
    if n > 0 {
      RunKeepsExactly(header, states, commands, n - 1);
      if AllKept(header, states, commands, n - 1) {
        LastCommand(header, states[n - 1], commands[n - 1], states[n]);
      }
    }
  }

  /** The routes registered after one more command. */
  function OneMore(rs: seq<Route>, c: Command, size: nat): seq<Route> {
    match c
    case Publish(q, _) => if PublishReply(rs, q, size).Ok? then rs + [NewRoute(q)] else rs
    case Remove(prefix, _) => if RemoveReply(rs, prefix).Ok? then Without(rs, prefix) else rs
    case _ => rs
  }

  /** What is registered after the first n commands: no reload or restart has any part in it. */
  function Registered(commands: seq<Command>, n: nat, size: nat): seq<Route>
    requires n <= |commands|
  {
    if n == 0 then [] else OneMore(Registered(commands, n - 1, size), commands[n - 1], size)
  }

  /** A publish of a route that can be read back. */
  predicate IsSound(c: Command) {
    IsWritten(c) && (c.Publish? ==> IsStorable(NewRoute(c.q)))
  }

  ghost predicate HasRegistered(header: seq<string>, s: Contents, rs: seq<Route>) {
    && IsInSync(header, s) && AreStorable(s.Routes())
    && multiset(s.Routes()) == multiset(rs) && HasUniquePrefixes(rs)
  }

  lemma PublishRegisters(header: seq<string>, a: Contents, c: Command, b: Contents, rs: seq<Route>)
    requires HasRegistered(header, a, rs) && c.Publish? && IsSound(c) && Follows(header, a, c, b)
    ensures HasRegistered(header, b, if PublishReply(rs, c.q, |a.slots|).Ok? then rs + [NewRoute(c.q)] else rs)
  {
    PublishKeepsSync(header, a, c, b);
    RepliesAreSame(a.Routes(), rs, c.q, "", |a.slots|);
    if PublishReply(rs, c.q, |a.slots|).Ok? {
      var more := a.Routes() + [NewRoute(c.q)];
      Accepted(a.Routes(), c.q, |a.slots|);
      AddedHold(a.Routes(), NewRoute(c.q));
      Accepted(rs, c.q, |a.slots|);
      AddedHold(rs, NewRoute(c.q));
      PermutedHold(more, b.Routes());
    }
  }

  lemma RemoveRegisters(header: seq<string>, a: Contents, c: Command, b: Contents, rs: seq<Route>)
    requires HasRegistered(header, a, rs) && c.Remove? && IsSound(c) && Follows(header, a, c, b)
    ensures HasRegistered(header, b, if RemoveReply(rs, c.prefix).Ok? then Without(rs, c.prefix) else rs)
  {
    RemoveKeepsSync(header, a, c, b);
    RepliesAreSame(a.Routes(), rs, Request("", "", "", "", 0, 0, 0), c.prefix, |a.slots|);
    if RemoveReply(rs, c.prefix).Ok? {
      assert HasPrefix(a.Routes(), c.prefix) && HasPrefix(rs, c.prefix);
      WithoutSame(a.Routes(), rs, c.prefix);
      WithoutHold(a.Routes(), c.prefix);
      var r := RemovedOne(rs, c.prefix);
      assert forall i :: 0 <= i < |b.Routes()| ==> b.Routes()[i] in a.Routes();
    }
  }

  lemma CommandRegisters(header: seq<string>, a: Contents, c: Command, b: Contents, rs: seq<Route>)
    requires AreComments(header) && HasRegistered(header, a, rs) && IsSound(c) && Follows(header, a, c, b)
    ensures HasRegistered(header, b, OneMore(rs, c, |a.slots|)) && |b.slots| == |a.slots|
  {
    if c.Publish? {
      PublishRegisters(header, a, c, b, rs);
    } else if c.Remove? {
      RemoveRegisters(header, a, c, b, rs);
    } else {
      RereadExactly(header, a, c, b);
    }
  }

  lemma {:induction false} RunInvariant(follows: (Contents, Command, Contents) -> bool, holds: (Contents, seq<Route>) -> bool,
      states: seq<Contents>, commands: seq<Command>, n: nat)
    requires n <= |commands| && |states| == |commands| + 1 && holds(states[0], [])
    requires forall i :: 0 <= i < |commands| ==> follows(states[i], commands[i], states[i + 1])
    requires forall a, c, b, rs :: follows(a, c, b) && holds(a, rs) ==> holds(b, OneMore(rs, c, |a.slots|)) && |b.slots| == |a.slots|
    ensures |states[n].slots| == |states[0].slots| && holds(states[n], Registered(commands, n, |states[0].slots|))
    decreases n
  {
    if n > 0 {
      RunInvariant(follows, holds, states, commands, n - 1);
      assert follows(states[n - 1], commands[n - 1], states[n]);
    }
  }

  /**
   * When only storable routes are published, the table holds after every command exactly the
   * routes registered, sorted and with unique prefixes, whatever reloads and restarts there were.
   */
  lemma RunHoldsRegistered(header: seq<string>, states: seq<Contents>, commands: seq<Command>, n: nat)
    requires AreComments(header) && IsRun(header, states, commands) && n <= |commands|
    requires forall i :: 0 <= i < |commands| ==> IsSound(commands[i])
    requires states[0].count == 0 && states[0].file == FlushText(header, [])
    ensures HasRegistered(header, states[n], Registered(commands, n, |states[0].slots|))
  {
    var follows := (a: Contents, c: Command, b: Contents) => a.count <= |a.slots| && IsSound(c) && Follows(header, a, c, b);
    var holds := (s: Contents, rs: seq<Route>) => HasRegistered(header, s, rs);
    EmptyIsRegistered(header, states[0]);
    forall a, c, b, rs | follows(a, c, b) && holds(a, rs)
      ensures holds(b, OneMore(rs, c, |a.slots|)) && |b.slots| == |a.slots|
    {
      CommandRegisters(header, a, c, b, rs);
    }
    RunInvariant(follows, holds, states, commands, n);
  }

  lemma EmptyIsRegistered(header: seq<string>, s: Contents)
    requires s.count == 0 && s.file == FlushText(header, [])
    ensures HasRegistered(header, s, [])
  {
    assert s.Routes() == [];
  }

  // ---- when rereading leaves the prefixes unique ----

  /** A line a route is read from; its prefix is the line's first word. */
  predicate IsRead(line: string) {
    LoadLine(line, "").Some?
  }

  function FirstWord(line: string): string {
    var w := ScanWord(line, 255);
    if w.Some? then w.value.0 else ""
  }

  /** The first words of the lines read, as far as there is room. */
  function WordsRead(pieces: seq<string>, room: nat): seq<string>
    decreases |pieces|
  {
    if pieces == [] || room == 0 then []
    else if IsRead(pieces[0]) then [FirstWord(pieces[0])] + WordsRead(pieces[1..], room - 1)
    else WordsRead(pieces[1..], room)
  }

  predicate NoneTwice(words: seq<string>) {
    forall i, j :: 0 <= i < j < |words| ==> words[i] != words[j]
  }

  function Prefixes(rs: seq<Route>): (words: seq<string>)
    ensures |words| == |rs| && forall i :: 0 <= i < |rs| ==> words[i] == rs[i].prefix
  {
    seq(|rs|, i requires 0 <= i < |rs| => rs[i].prefix)
  }

  /** Whatever the slot's host, the same lines are read, with the same prefixes. */
  ghost predicate ReadsWords(load: (string, string) -> Option<Route>) {
    forall line, slotHost :: (load(line, slotHost).Some? <==> IsRead(line))
                             && (load(line, slotHost).Some? ==> load(line, slotHost).value.prefix == FirstWord(line))
  }

  lemma LoadLineReadsWords()
    ensures ReadsWords(LoadLine)
  {
    forall line, slotHost
      ensures LoadLine(line, slotHost).Some? <==> IsRead(line)
      ensures LoadLine(line, slotHost).Some? ==> LoadLine(line, slotHost).value.prefix == FirstWord(line)
    {
      if LoadLine(line, slotHost).Some? {
        LoadedPrefix(line, slotHost);
      }
    }
  }

  lemma {:induction false} LoadedWords(load: (string, string) -> Option<Route>, pieces: seq<string>, loaded: seq<Route>, slots: seq<Route>)
    requires ReadsWords(load) && |loaded| <= |slots|
    ensures Prefixes(LoadPieces(load, pieces, loaded, slots)) == Prefixes(loaded) + WordsRead(pieces, |slots| - |loaded|)
    decreases |pieces|
  {
    if pieces != [] && |loaded| < |slots| {
      var r := load(pieces[0], slots[|loaded|].host);
      if r.Some? {
        LoadedWords(load, pieces[1..], loaded + [r.value], slots);
        assert Prefixes(loaded + [r.value]) == Prefixes(loaded) + [FirstWord(pieces[0])];
        Regroup(Prefixes(loaded), [FirstWord(pieces[0])], WordsRead(pieces[1..], |slots| - |loaded| - 1));
      } else {
        LoadedWords(load, pieces[1..], loaded, slots);
      }
    }
  }

  lemma UniqueIsNoneTwice(rs: seq<Route>)
    ensures HasUniquePrefixes(rs) <==> NoneTwice(Prefixes(rs))
  {
    var words := Prefixes(rs);
    assert forall i :: 0 <= i < |rs| ==> words[i] == rs[i].prefix;
  }

  lemma CountedTwice(rs: seq<Route>, x: Route, i: nat, j: nat)
    requires i < j < |rs| && rs[i] == rs[j] == x
    ensures multiset(rs)[x] >= 2
  {
    assert rs == rs[..j] + [rs[j]] + rs[j + 1..];
    assert rs[..j][i] == x && x in multiset(rs[..j]);
    assert multiset(rs) == multiset(rs[..j]) + multiset{rs[j]} + multiset(rs[j + 1..]);
  }

  lemma {:induction false} UniqueCountsOnce(rs: seq<Route>, x: Route)
    requires HasUniquePrefixes(rs)
    ensures multiset(rs)[x] <= 1
    decreases |rs|
  {
    if rs != [] {
      var n := |rs| - 1;
      UniqueCountsOnce(rs[..n], x);
      assert rs == rs[..n] + [rs[n]];
      if x == rs[n] {
        assert x !in rs[..n];
      }
    }
  }

  /** Sorting neither makes nor removes a repeated prefix. */
  lemma UniqueWhenPermuted(rs: seq<Route>, ts: seq<Route>)
    requires multiset(rs) == multiset(ts) && HasUniquePrefixes(rs)
    ensures HasUniquePrefixes(ts)
  {
    SameRoutes(rs, ts);
    forall i, j | 0 <= i < j < |ts|
      ensures ts[i].prefix != ts[j].prefix
    {
      assert ts[i] in ts && ts[j] in ts;
      if ts[i] == ts[j] {
        CountedTwice(ts, ts[i], i, j);
        UniqueCountsOnce(rs, ts[i]);
      }
    }
  }

  /** The slots a file is read into: those in place, or cleared ones. */
  function SlotsRead(a: Contents, c: Command): (slots: seq<Route>)
    ensures |slots| == |a.slots|
  {
    if c.Restart? then Cleared(|a.slots|) else a.slots
  }

  /**
   * Whatever is in the file, rereading it leaves the prefixes unique exactly when no two of the
   * lines read, as far as the slots reach, begin with the same word.
   */
  lemma RereadUniqueExactly(header: seq<string>, a: Contents, c: Command, b: Contents)
    requires a.count <= |a.slots| && Rereads(c) && Follows(header, a, c, b)
    ensures HasUniquePrefixes(b.Routes()) <==> NoneTwice(WordsRead(Pieces(a.file, LINE), |a.slots|))
  {
    var slots := SlotsRead(a, c);
    var loaded := LoadText(a.file, slots);
    LoadLineReadsWords();
    LoadedWords(LoadLine, Pieces(a.file, LINE), [], slots);
    assert Prefixes([]) + WordsRead(Pieces(a.file, LINE), |slots|) == WordsRead(Pieces(a.file, LINE), |slots|);
    UniqueIsNoneTwice(loaded);
    if HasUniquePrefixes(b.Routes()) {
      UniqueWhenPermuted(b.Routes(), loaded);
    }
  }

  // ---- a run that does not keep the table ----

  const PLAIN := Request("/a", "tcp", "x", "", 80, 0, 0)
  const BLANKS := Request("/a tcp x 80 0", "tcp", "y", "", 81, 0, 0)

  lemma PlainLine()
    ensures LineWith(NewRoute(PLAIN), "") == BLANKS.prefix
  {
    var r := NewRoute(PLAIN);
    assert Print(80) == Print(8) + "0";
    assert Numbers(r, "") == " 80 0";
    assert AfterKind(r, "") == " x 80 0";
    assert AfterPrefix(r, "") == " tcp x 80 0";
  }

  lemma NoNumberNext(tail: string)
    requires |tail| >= 2 && tail[0] == ' ' && (tail[1] == 't' || tail[1] == 'u')
    ensures ScanInts(tail, 1) == []
  {
    assert SkipSpace(tail) == tail[1..];
  }

  /** A prefix with blanks can make the line of another route. */
  lemma LineOfAnother(r: Route, b: Route, slotHost: string)
    requires HasFields(r) && r.auth == 0 && !StartsWith(r.prefix, "#") && b.prefix == LineWith(r, "")
    ensures LoadLine(Fields(b, "\n"), slotHost) == Some(Again(r, slotHost))
  {
    var tail := AfterPrefix(b, NumberThen(b.auth, "\n"));
    assert "" + tail == tail;
    LineEnds(r, "", tail);
    NoNumberNext(tail);
    LineRoundTrip(r, tail, [], slotHost);
  }

  lemma OwnLine(r: Route, slotHost: string)
    requires HasFields(r) && !StartsWith(r.prefix, "#")
    ensures LoadLine(Fields(r, "\n"), slotHost) == Some(Again(r, slotHost))
  {
    ScanLast(r.auth, "\n");
    LineRoundTrip(r, NumberThen(r.auth, "\n"), [r.auth], slotHost);
  }

  lemma LineThen(r: Route, rest: string)
    requires IsShortLine(r)
    ensures Pieces(Fields(r, "") + "\n" + rest, LINE) == [Fields(r, "\n")] + Pieces(rest, LINE)
  {
    PartsAreOneLine(r);
    FirstPiece(Fields(r, ""), rest, LINE);
    FieldsEnd(r, "\n");
  }

  lemma PiecesOfTwo(b: Route, r: Route)
    requires IsShortLine(b) && IsShortLine(r)
    ensures Pieces(Lines([b, r]), LINE) == [Fields(b, "\n")] + [Fields(r, "\n")]
  {
    LinesOfTwo(b, r);
    LineThen(b, Lines([r]));
    LineThen(r, "");
    assert Pieces("", LINE) == [] && [Fields(r, "\n")] + [] == [Fields(r, "\n")];
  }

  lemma LinesOfTwo(b: Route, r: Route)
    ensures Lines([b, r]) == Fields(b, "") + "\n" + Lines([r]) && Lines([r]) == Fields(r, "") + "\n" + ""
  {
    assert [b, r][1..] == [r] && [r][1..] == [] && Lines([]) == "";
  }

  lemma TwoPiecesLoaded(load: (string, string) -> Option<Route>, p: string, q: string, r: Route, slots: seq<Route>)
    requires |slots| >= 2 && load(p, slots[0].host) == Some(r) && load(q, slots[1].host) == Some(r)
    ensures LoadPieces(load, [p] + [q], [], slots) == [r, r]
  {
    FirstPieceLoaded(load, p, [q], [], slots);
    FirstPieceLoaded(load, q, [], [r], slots);
    assert [q] + [] == [q] && [] + [r] == [r] && [r] + [r] == [r, r];
  }

  lemma PlainHolds()
    ensures HasFields(NewRoute(PLAIN)) && !StartsWith(NewRoute(PLAIN).prefix, "#") && IsShortLine(NewRoute(PLAIN))
  {
    LineLength(NewRoute(PLAIN));
    assert "/a"[0] != "#"[0];
  }

  lemma BlanksHold()
    ensures IsShortLine(NewRoute(BLANKS))
  {
    LineLength(NewRoute(BLANKS));
  }

  /** Both are accepted, and after a reload the prefix is there twice. */
  lemma BlankPrefixRegistersTwice(header: seq<string>, states: seq<Contents>)
    requires AreComments(header) && |states| == 4 && IsRun(header, states, [Publish(PLAIN, true), Publish(BLANKS, true), Reload])
    requires states[0].count == 0 && |states[0].slots| >= 2
    ensures HasUniquePrefixes(states[2].Routes()) && !HasUniquePrefixes(states[3].Routes())
  {
    ThreeSteps(header, states, Publish(PLAIN, true), Publish(BLANKS, true), Reload);
    FirstPublished(header, states[0], states[1]);
    SecondPublished(header, states[1], states[2]);
    ReloadedTwice(header, states[2], states[3]);
  }

  lemma ReloadedTwice(header: seq<string>, a: Contents, b: Contents)
    requires AreComments(header) && |a.slots| >= 2 && a.count <= |a.slots| && b.count <= |b.slots|
    requires a.Routes() == [NewRoute(BLANKS), NewRoute(PLAIN)] && a.file == FlushText(header, a.Routes()) && Follows(header, a, Reload, b)
    ensures HasUniquePrefixes(a.Routes()) && !HasUniquePrefixes(b.Routes())
  {
    assert NewRoute(BLANKS).prefix != NewRoute(PLAIN).prefix by { assert |BLANKS.prefix| != |PLAIN.prefix|; }
    BothLoaded(header, a.slots);
    TwiceIsTwice(b.Routes(), NewRoute(PLAIN));
  }

  lemma ThreeSteps(header: seq<string>, states: seq<Contents>, c: Command, d: Command, e: Command)
    requires |states| == 4 && IsRun(header, states, [c, d, e])
    ensures Follows(header, states[0], c, states[1]) && Follows(header, states[1], d, states[2]) && Follows(header, states[2], e, states[3])
  {
    var commands := [c, d, e];
    assert commands[0] == c && commands[1] == d && commands[2] == e;
  }

  lemma TwiceIsTwice(rs: seq<Route>, r: Route)
    requires multiset(rs) == multiset([r, r])
    ensures !HasUniquePrefixes(rs)
  {
    SameSize(rs, [r, r]);
    SameRoutes(rs, [r, r]);
    assert rs[0] in rs && rs[1] in rs;
  }

  lemma BothAccepted(size: nat)
    requires size >= 2
    ensures PublishReply([], PLAIN, size).Ok? && PublishReply([NewRoute(PLAIN)], BLANKS, size).Ok?
  {
    assert PLAIN.prefix != BLANKS.prefix by { assert |PLAIN.prefix| != |BLANKS.prefix|; }
  }

  lemma OneRoute(r: Route, rs: seq<Route>)
    requires IsRearranged([] + [r], rs)
    ensures rs == [r]
  {
    assert IsSorted([] + [r]);
  }

  lemma FirstPublished(header: seq<string>, a: Contents, b: Contents)
    requires a.count == 0 && |a.slots| >= 2 && b.count <= |b.slots| && Follows(header, a, Publish(PLAIN, true), b)
    ensures b.Routes() == [NewRoute(PLAIN)] && |b.slots| == |a.slots|
  {
    BothAccepted(|a.slots|);
    assert a.Routes() == [];
    OneRoute(NewRoute(PLAIN), b.Routes());
  }

  lemma SecondPublished(header: seq<string>, b: Contents, c: Contents)
    requires b.count <= |b.slots| && c.count <= |c.slots| && |b.slots| >= 2
    requires b.Routes() == [NewRoute(PLAIN)] && Follows(header, b, Publish(BLANKS, true), c)
    ensures c.Routes() == [NewRoute(BLANKS), NewRoute(PLAIN)] && c.file == FlushText(header, c.Routes()) && |c.slots| == |b.slots|
  {
    BothAccepted(|b.slots|);
    assert [NewRoute(PLAIN)] + [NewRoute(BLANKS)] == [NewRoute(PLAIN), NewRoute(BLANKS)];
    SortedPair(NewRoute(PLAIN), NewRoute(BLANKS), c.Routes());
  }

  lemma SortedPair(r: Route, s: Route, rs: seq<Route>)
    requires multiset(rs) == multiset([r, s]) && IsSorted(rs) && |r.prefix| < |s.prefix|
    ensures rs == [s, r]
  {
    SameSize(rs, [r, s]);
    SameRoutes(rs, [r, s]);
    assert rs[0] in rs && rs[1] in rs && r in rs && s in rs;
  }

  lemma BothLoaded(header: seq<string>, slots: seq<Route>)
    requires AreComments(header) && |slots| >= 2
    ensures LoadText(FlushText(header, [NewRoute(BLANKS), NewRoute(PLAIN)]), slots) == [NewRoute(PLAIN), NewRoute(PLAIN)]
  {
    PlainHolds();
    BlanksHold();
    PlainLine();
    LoadedAsAnother(header, NewRoute(PLAIN), NewRoute(BLANKS), slots);
  }

  lemma TextLoaded(header: seq<string>, routes: seq<Route>, pieces: seq<string>, loaded: seq<Route>, slots: seq<Route>)
    requires AreComments(header) && Pieces(Lines(routes), LINE) == pieces && LoadPieces(LoadLine, pieces, [], slots) == loaded
    ensures LoadText(FlushText(header, routes), slots) == loaded
  {
    HeaderSkipped(header, Lines(routes), slots);
  }

  predicate IsShortLine(r: Route) {
    IsOneLine(r.prefix) && IsOneLine(Address(r)) && |Fields(r, "")| < LINE
  }

  /** A prefix with blanks can make the line of another route: next to it, that route is loaded twice. */
  lemma LoadedAsAnother(header: seq<string>, r: Route, b: Route, slots: seq<Route>)
    requires AreComments(header) && |slots| >= 2 && IsShortLine(r) && IsShortLine(b)
    requires HasFields(r) && !StartsWith(r.prefix, "#") && !r.isUds && r.auth == 0 && b.prefix == LineWith(r, "")
    ensures LoadText(FlushText(header, [b, r]), slots) == [r, r]
  {
    var p, q := Fields(b, "\n"), Fields(r, "\n");
    PiecesOfTwo(b, r);
    BothRead(r, b, p, q, slots);
    TextLoaded(header, [b, r], [p] + [q], [r, r], slots);
  }

  lemma BothRead(r: Route, b: Route, p: string, q: string, slots: seq<Route>)
    requires |slots| >= 2 && HasFields(r) && !StartsWith(r.prefix, "#") && !r.isUds && r.auth == 0 && b.prefix == LineWith(r, "")
    requires p == Fields(b, "\n") && q == Fields(r, "\n")
    ensures LoadPieces(LoadLine, [p] + [q], [], slots) == [r, r]
  {
    LineOfAnother(r, b, slots[0].host);
    OwnLine(r, slots[1].host);
    TwoPiecesLoaded(LoadLine, p, q, r, slots);
  }
}
