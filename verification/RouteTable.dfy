/**
 * The gateway's web route table (daemon/opencode-gateway.c): a fixed array kept sorted by
 * prefix length, its control commands, and its file.
 */
module RouteTable {
  import opened Util
  import opened CText
  import opened RouteFile
  import opened RouteReload

  // ---- tables as sequences ----

  predicate IsSorted(rs: seq<Route>) {
    forall i, j :: 0 <= i < j < |rs| ==> |rs[i].prefix| >= |rs[j].prefix|
  }

  /** A path under a prefix: the prefix itself, or the prefix and a further segment. */
  predicate IsUnder(path: string, prefix: string) {
    |prefix| <= |path| && path[..|prefix|] == prefix && (|path| == |prefix| || path[|prefix|] == '/')
  }

  /** The route a path is sent to: the one with the longest prefix it is under. */
  ghost predicate IsBestMatch(rs: seq<Route>, path: string, r: Option<Route>) {
    match r
    case None => forall x :: x in rs ==> !IsUnder(path, x.prefix)
    case Some(best) =>
      best in rs && IsUnder(path, best.prefix)
      && forall x :: x in rs && IsUnder(path, x.prefix) && x != best ==> |x.prefix| < |best.prefix|
  }

  /** What is left of that when a prefix occurs more than once. */
  ghost predicate IsLongestMatch(rs: seq<Route>, path: string, r: Option<Route>) {
    match r
    case None => forall x :: x in rs ==> !IsUnder(path, x.prefix)
    case Some(best) =>
      best in rs && IsUnder(path, best.prefix) && forall x :: x in rs && IsUnder(path, x.prefix) ==> |x.prefix| <= |best.prefix|
  }

  lemma FirstMatchIsBest(rs: seq<Route>, path: string, i: nat)
    requires IsSorted(rs) && HasUniquePrefixes(rs) && i < |rs| && IsUnder(path, rs[i].prefix)
    requires forall j :: 0 <= j < i ==> !IsUnder(path, rs[j].prefix)
    ensures IsBestMatch(rs, path, Some(rs[i]))
  {
    forall j | i < j < |rs| && IsUnder(path, rs[j].prefix)
      ensures |rs[j].prefix| < |rs[i].prefix|
    {
      SameLengthSamePrefix(path, rs[j].prefix, rs[i].prefix);
    }
  }

  lemma SameLengthSamePrefix(path: string, p: string, q: string)
    requires IsUnder(path, p) && IsUnder(path, q)
    ensures |p| == |q| ==> p == q
  {
  }

  /** The answer depends on which routes there are, not on the order they came in. */
  lemma OrderDoesNotMatter(rs: seq<Route>, ts: seq<Route>, path: string, r: Option<Route>, t: Option<Route>)
    requires multiset(rs) == multiset(ts)
    requires IsBestMatch(rs, path, r) && IsBestMatch(ts, path, t)
    ensures r == t
  {
    InBothWhenPermuted(rs, ts);
    assert IsBestMatch(rs, path, t);
  }

  lemma InBothWhenPermuted(rs: seq<Route>, ts: seq<Route>)
    requires multiset(rs) == multiset(ts)
    ensures forall x :: x in rs <==> x in ts
  {
    forall x
      ensures x in rs <==> x in ts
    {
      assert x in rs <==> x in multiset(rs);
      assert x in ts <==> x in multiset(ts);
    }
  }

  function Exchanged(rs: seq<Route>, i: nat, j: nat): seq<Route>
    requires i < |rs| && j < |rs|
  {
    rs[i := rs[j]][j := rs[i]]
  }

  /** The first i routes are in their final places. */
  predicate IsSortedUpto(rs: seq<Route>, i: nat) {
    forall j, k :: 0 <= j < i && j < k < |rs| ==> |rs[j].prefix| >= |rs[k].prefix|
  }

  /** The i-th prefix is no shorter than those after it, up to the j-th. */
  predicate IsLongestUpto(rs: seq<Route>, i: nat, j: nat)
    requires i < |rs|
  {
    forall k :: i < k < j && k < |rs| ==> |rs[i].prefix| >= |rs[k].prefix|
  }

  /** What sorting keeps. */
  ghost predicate IsRearranged(rs: seq<Route>, ts: seq<Route>) {
    && |ts| == |rs| && multiset(ts) == multiset(rs)
    && (HasUniquePrefixes(rs) ==> HasUniquePrefixes(ts))
    && (IsSorted(rs) ==> ts == rs)
  }

  lemma ExchangeRearranges(was: seq<Route>, rs: seq<Route>, i: nat, j: nat)
    requires IsRearranged(was, rs) && i < j < |rs| && |rs[j].prefix| > |rs[i].prefix|
    ensures IsRearranged(was, Exchanged(rs, i, j))
  {
    ExchangeKeepsUnique(rs, i, j);
    assert !IsSorted(rs);
  }

  lemma ExchangeKeepsUnique(rs: seq<Route>, i: nat, j: nat)
    requires i < j < |rs|
    ensures HasUniquePrefixes(rs) ==> HasUniquePrefixes(Exchanged(rs, i, j))
  {
  }

  lemma ExchangeSorts(rs: seq<Route>, i: nat, j: nat)
    requires i < j < |rs| && |rs[j].prefix| > |rs[i].prefix| && IsSortedUpto(rs, i) && IsLongestUpto(rs, i, j)
    ensures IsSortedUpto(Exchanged(rs, i, j), i) && IsLongestUpto(Exchanged(rs, i, j), i, j + 1)
  {
  }

  // ---- control commands ----

  datatype Request = Request(prefix: string, upstreamType: string, host: string, socketPath: string, port: int, uid: nat, auth: int)

  datatype Reply = Ok | MissingPrefix | InvalidType | MissingHostOrPort | MissingSocketPath | AlreadyRegistered | TableFull | NotFound

  function UpstreamType(q: Request): string {
    if q.upstreamType == "" then "tcp" else q.upstreamType
  }

  function NewRoute(q: Request): Route {
    if UpstreamType(q) == "uds" then Route(q.prefix, "", q.socketPath, 0, true, q.uid, q.auth)
    else Route(q.prefix, q.host, q.host, q.port, false, q.uid, q.auth)
  }

  /** The reply to a publish, first complaint first. */
  function PublishReply(rs: seq<Route>, q: Request, size: nat): Reply {
    if q.prefix == "" then MissingPrefix
    else if UpstreamType(q) != "tcp" && UpstreamType(q) != "uds" then InvalidType
    else if UpstreamType(q) == "tcp" && (q.host == "" || q.port <= 0) then MissingHostOrPort
    else if UpstreamType(q) == "uds" && q.socketPath == "" then MissingSocketPath
    else if exists i :: 0 <= i < |rs| && rs[i].prefix == q.prefix then AlreadyRegistered
    else if |rs| >= size then TableFull
    else Ok
  }

  function RemoveReply(rs: seq<Route>, prefix: string): Reply {
    if prefix == "" then MissingPrefix
    else if exists i :: 0 <= i < |rs| && rs[i].prefix == prefix then Ok else NotFound
  }

  /** The routes without the first one of this prefix. */
  function Without(rs: seq<Route>, prefix: string): seq<Route> {
    if rs == [] then [] else if rs[0].prefix == prefix then rs[1..] else [rs[0]] + Without(rs[1..], prefix)
  }

  function TakenOutAt(rs: seq<Route>, i: nat): seq<Route>
    requires i < |rs|
  {
    rs[..i] + rs[i + 1..]
  }

  lemma {:induction false} FirstIsTakenOut(rs: seq<Route>, prefix: string, i: nat)
    requires i < |rs| && rs[i].prefix == prefix && forall j :: 0 <= j < i ==> rs[j].prefix != prefix
    ensures Without(rs, prefix) == TakenOutAt(rs, i)
    decreases i
  {
    if i > 0 {
      FirstIsTakenOut(rs[1..], prefix, i - 1);
      assert [rs[0]] + TakenOutAt(rs[1..], i - 1) == TakenOutAt(rs, i);
    }
  }

  lemma WithoutKeeps(rs: seq<Route>, i: nat)
    requires i < |rs|
    ensures IsSorted(rs) ==> IsSorted(TakenOutAt(rs, i))
    ensures HasUniquePrefixes(rs) ==> HasUniquePrefixes(TakenOutAt(rs, i))
  {
  }

  /** Removing takes out exactly the routes of that prefix. */
  lemma {:induction false} RemovedExactly(rs: seq<Route>, prefix: string, r: Route)
    requires HasUniquePrefixes(rs)
    ensures r in Without(rs, prefix) <==> r in rs && r.prefix != prefix
  {
    if i :| 0 <= i < |rs| && rs[i].prefix == prefix {
      FirstIsTakenOut(rs, prefix, i);
      assert r in rs <==> r in rs[..i] || r == rs[i] || r in rs[i + 1..];
      assert forall j :: i + 1 <= j < |rs| ==> rs[j].prefix != prefix;
    } else {
      NothingTakenOut(rs, prefix);
    }
  }

  lemma {:induction false} NothingTakenOut(rs: seq<Route>, prefix: string)
    requires forall i :: 0 <= i < |rs| ==> rs[i].prefix != prefix
    ensures Without(rs, prefix) == rs
    decreases |rs|
  {
    if rs != [] {
      NothingTakenOut(rs[1..], prefix);
    }
  }

  /** What a command works on: the slots, how many are in use, and the file. */
  datatype Contents = Contents(slots: seq<Route>, count: nat, file: string) {
    function Routes(): seq<Route>
      requires count <= |slots|
    {
      slots[..count]
    }
  }

  /** What the gateway does to the table; `writable` says whether the file can be written. */
  datatype Command = Publish(q: Request, writable: bool) | Remove(prefix: string, writable: bool) | Reload | Restart

  const CLEAR := Route("", "", "", 0, false, 0, 0)

  function Cleared(size: nat): seq<Route> {
    seq(size, _ => CLEAR)
  }

  /** The contents after a command: the order of prefixes of one length is left open. */
  ghost predicate Follows(header: seq<string>, a: Contents, c: Command, b: Contents)
    requires a.count <= |a.slots|
  {
    && b.count <= |b.slots| && |b.slots| == |a.slots|
    && match c
       case Publish(q, writable) =>
         if PublishReply(a.Routes(), q, |a.slots|).Ok? then
           && IsSorted(b.Routes()) && IsRearranged(a.Routes() + [NewRoute(q)], b.Routes())
           && b.file == if writable then FlushText(header, b.Routes()) else a.file
         else b == a
       case Remove(prefix, writable) =>
         if RemoveReply(a.Routes(), prefix).Ok? then
           && b.Routes() == Without(a.Routes(), prefix)
           && b.file == if writable then FlushText(header, b.Routes()) else a.file
         else b == a
       case Reload =>
         && IsSorted(b.Routes()) && IsRearranged(LoadText(a.file, a.slots), b.Routes()) && b.file == a.file
       case Restart =>
         && IsSorted(b.Routes()) && IsRearranged(LoadText(a.file, Cleared(|a.slots|)), b.Routes()) && b.file == a.file
  }

  // ---- the table ----

  /** g_web_routes, g_nweb_routes and the configuration file. */
  class Table {
    const slots: array<Route>
    const header: seq<string>
    var count: nat
    var file: string

    /** Sorted by prefix length. */
    ghost predicate Ok()
      reads this, slots
    {
      count <= slots.Length && AreComments(header) && IsSorted(slots[..count])
    }

    /** And no prefix twice. */
    ghost predicate Valid()
      reads this, slots
    {
      Ok() && HasUniquePrefixes(slots[..count])
    }

    ghost function Routes(): seq<Route>
      requires count <= slots.Length
      reads this, slots
    {
      slots[..count]
    }

    ghost function Abs(): Contents
      reads this, slots
    {
      Contents(slots[..], count, file)
    }

    /** A table after start-up: every slot cleared. */
    constructor (size: nat, header: seq<string>)
      requires AreComments(header)
      ensures Valid() && Routes() == [] && fresh(slots) && slots.Length == size && this.header == header
      ensures file == FlushText(header, [])
    {
      slots := new Route[size](_ => CLEAR);
      this.header := header;
      count := 0;
      file := FlushText(header, []);
    }

    /** A table after a restart, with the file there is. */
    constructor FromFile(size: nat, header: seq<string>, file: string)
      requires AreComments(header)
      ensures Ok() && fresh(slots) && slots.Length == size && this.header == header && this.file == file
      ensures IsRearranged(LoadText(file, Cleared(size)), Routes())
    {
      slots := new Route[size](_ => CLEAR);
      this.header := header;
      count := 0;
      this.file := file;
      new;
      assert slots[..] == Cleared(size);
      Load();
    }

    /** match_web_route */
    method Match(path: string) returns (r: Option<Route>)
      requires Ok()
      ensures IsLongestMatch(Routes(), path, r)
      ensures HasUniquePrefixes(Routes()) ==> IsBestMatch(Routes(), path, r)
    {
      for i := 0 to count
        invariant forall j :: 0 <= j < i ==> !IsUnder(path, slots[j].prefix)
      {
        if IsUnder(path, slots[i].prefix) {
          if HasUniquePrefixes(Routes()) {
            FirstMatchIsBest(Routes(), path, i);
          }
          return Some(slots[i]);
        }
      }
      return None;
    }

    /** find_web_route */
    method Find(prefix: string) returns (index: int)
      requires count <= slots.Length
      ensures -1 <= index < count
      ensures index >= 0 ==> slots[index].prefix == prefix && forall i :: 0 <= i < index ==> slots[i].prefix != prefix
      ensures index == -1 ==> forall i :: 0 <= i < count ==> slots[i].prefix != prefix
    {
      for i := 0 to count
        invariant forall j :: 0 <= j < i ==> slots[j].prefix != prefix
      {
        if slots[i].prefix == prefix {
          return i;
        }
      }
      return -1;
    }

    method Exchange(i: nat, j: nat)
      requires i < j < count <= slots.Length
      modifies slots
      ensures Routes() == Exchanged(old(Routes()), i, j)
    {
      var tmp := slots[i];
      slots[i] := slots[j];
      slots[j] := tmp;
    }

    /** The longest of the routes from i on is brought to i. */
    method BringLongest(i: nat, ghost was: seq<Route>)
      requires i < count <= slots.Length && IsSortedUpto(Routes(), i) && IsRearranged(was, Routes())
      modifies slots
      ensures IsSortedUpto(Routes(), i + 1) && IsRearranged(was, Routes())
    {
      for j := i + 1 to count
        invariant IsSortedUpto(Routes(), i) && IsLongestUpto(Routes(), i, j) && IsRearranged(was, Routes())
      {
        if |slots[j].prefix| > |slots[i].prefix| {
          ExchangeRearranges(was, Routes(), i, j);
          ExchangeSorts(Routes(), i, j);
          Exchange(i, j);
        }
      }
    }

    /** sort_web_routes */
    method Sort()
      requires count <= slots.Length
      modifies slots
      ensures IsSorted(Routes()) && IsRearranged(old(Routes()), Routes())
    {
      for i := 0 to count
        invariant IsSortedUpto(Routes(), i) && IsRearranged(old(Routes()), Routes())
      {
        BringLongest(i, old(Routes()));
      }
    }

    /** flush_web_routes; a file that cannot be opened for writing stays as it is. */
    method Flush(writable: bool)
      requires count <= slots.Length
      modifies this`file
      ensures file == if writable then FlushText(header, Routes()) else old(file)
    {
      if writable {
        file := Comments(header, Lines(slots[..count]));
      }
    }

    /** The remove command. */
    method Remove(prefix: string, writable: bool) returns (reply: Reply)
      requires Ok()
      modifies this`count, this`file, slots
      ensures Ok() && reply == RemoveReply(old(Routes()), prefix)
      ensures Follows(header, old(Abs()), Command.Remove(prefix, writable), Abs())
    {
      if prefix == "" {
        return MissingPrefix;
      }
      var index := Find(prefix);
      if index < 0 {
        return NotFound;
      }
      assert Routes()[index].prefix == prefix;
      FirstIsTakenOut(Routes(), prefix, index);
      WithoutKeeps(Routes(), index);
      TakeOut(index);
      Flush(writable);
      return Reply.Ok;
    }

    method TakeOut(index: nat)
      requires index < count <= slots.Length
      modifies this`count, slots
      ensures count <= slots.Length && Routes() == TakenOutAt(old(Routes()), index)
    {
      CloseGap(index);
      count := count - 1;
    }

    method CloseGap(index: nat)
      requires index < count <= slots.Length
      modifies slots
      ensures slots[..count - 1] == TakenOutAt(old(Routes()), index)
    {
      ghost var before := slots[..count];
      for i := index to count - 1
        invariant slots[..i] == before[..index] + before[index + 1..i + 1]
        invariant slots[i..count] == before[i..]
      {
        assert slots[i + 1] == slots[i..count][1] == before[i + 1];
        slots[i] := slots[i + 1];
      }
    }

    /** Why a publish is refused, if it is. */
    method Check(q: Request) returns (reply: Reply)
      requires count <= slots.Length
      ensures reply == PublishReply(Routes(), q, slots.Length)
    {
      var upstreamType := if q.upstreamType == "" then "tcp" else q.upstreamType;
      if q.prefix == "" {
        return MissingPrefix;
      }
      if upstreamType != "tcp" && upstreamType != "uds" {
        return InvalidType;
      }
      if upstreamType == "tcp" && (q.host == "" || q.port <= 0) {
        return MissingHostOrPort;
      }
      if upstreamType == "uds" && q.socketPath == "" {
        return MissingSocketPath;
      }
      var index := Find(q.prefix);
      if index >= 0 {
        assert Routes()[index].prefix == q.prefix;
        return AlreadyRegistered;
      }
      return if count >= slots.Length then TableFull else Reply.Ok;
    }

    /** The publish command. */
    method Publish(q: Request, writable: bool) returns (reply: Reply)
      requires Ok()
      modifies this`count, this`file, slots
      ensures Ok() && reply == PublishReply(old(Routes()), q, slots.Length)
      ensures Follows(header, old(Abs()), Command.Publish(q, writable), Abs())
    {
      reply := Check(q);
      if reply.Ok? {
        Register(NewRoute(q), writable);
      }
    }

    method Register(r: Route, writable: bool)
      requires count < slots.Length && forall i :: 0 <= i < |Routes()| ==> Routes()[i].prefix != r.prefix
      modifies this`count, this`file, slots
      ensures count <= slots.Length && IsSorted(Routes()) && IsRearranged(old(Routes()) + [r], Routes())
      ensures file == if writable then FlushText(header, Routes()) else old(file)
    {
      Append(r);
      Sort();
      Flush(writable);
    }

    method Append(r: Route)
      requires count < slots.Length && forall i :: 0 <= i < |Routes()| ==> Routes()[i].prefix != r.prefix
      modifies this`count, slots
      ensures count == old(count) + 1 <= slots.Length && Routes() == old(Routes()) + [r]
      ensures HasUniquePrefixes(old(Routes())) ==> HasUniquePrefixes(Routes())
    {
      slots[count] := r;
      count := count + 1;
      assert Routes() == old(Routes()) + [r];
    }

    /** One piece of the file, into the next slot. */
    method LoadPiece(load: (string, string) -> Option<Route>, piece: string)
      requires count < slots.Length
      modifies this`count, slots
      ensures count <= slots.Length && slots[count..] == old(slots[..])[count..]
      ensures var r := load(piece, old(slots[count].host));
              Routes() == if r.Some? then old(Routes()) + [r.value] else old(Routes())
    {
      var r := load(piece, slots[count].host);
      if r.Some? {
        slots[count] := r.value;
        count := count + 1;
      }
    }

    /** The loop over the file's pieces. */
    method ReadPieces(load: (string, string) -> Option<Route>, pieces: seq<string>)
      modifies this`count, slots
      ensures count <= slots.Length && Routes() == LoadPieces(load, pieces, [], old(slots[..]))
    {
      count := 0;
      ghost var before := slots[..];
      var i := 0;
      while i < |pieces| && count < slots.Length
        invariant i <= |pieces| && count <= slots.Length
        invariant slots[count..] == before[count..]
        invariant LoadPieces(load, pieces[i..], Routes(), before) == LoadPieces(load, pieces, [], before)
        decreases |pieces| - i
      {
        LoadOneMore(load, pieces, i, Routes(), before);
        assert slots[count..][0] == before[count..][0];
        LoadPiece(load, pieces[i]);
        i := i + 1;
      }
    }

    /** The file's routes, before they are sorted. */
    method ReadFile()
      modifies this`count, slots
      ensures count <= slots.Length && Routes() == LoadText(file, old(slots[..]))
    {
      var pieces := Pieces(file, LINE);
      ReadPieces(LoadLine, pieces);
    }

    /** load_web_routes, on SIGHUP. */
    method Load()
      requires count <= slots.Length && AreComments(header)
      modifies this`count, slots
      ensures Ok() && Follows(header, old(Abs()), Command.Reload, Abs())
    {
      ReadFile();
      Sort();
    }

    /** A reload of the file written last leaves the table as it is exactly when its routes are storable. */
    method Reload()
      requires Valid() && file == FlushText(header, Routes()) && HaveCNumbers(Routes())
      modifies this`count, slots
      ensures Ok() && file == old(file)
      ensures Routes() == old(Routes()) <==> AreStorable(old(Routes()))
    {
      ReloadKeepsExactly(header, Routes(), slots[..]);
      Load();
    }
  }

  lemma LoadOneMore(load: (string, string) -> Option<Route>, pieces: seq<string>, i: nat, loaded: seq<Route>, slots: seq<Route>)
    requires i < |pieces| && |loaded| < |slots|
    ensures var r := load(pieces[i], slots[|loaded|].host);
            LoadPieces(load, pieces[i..], loaded, slots)
            == LoadPieces(load, pieces[i + 1..], if r.Some? then loaded + [r.value] else loaded, slots)
  {
    assert pieces[i..] == [pieces[i]] + pieces[i + 1..];
    FirstPieceLoaded(load, pieces[i], pieces[i + 1..], loaded, slots);
  }
}
