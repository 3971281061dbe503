/**
 * The gateway's persistent ban list (daemon/opencode-gateway.c): an open-addressing table
 * with linear probing, and the file it appends to. The table's size is a parameter.
 */
module BanTable {
  import opened Util
  import opened Decimal
  import opened CText

  type Ip = x: int | 0 <= x < 0x1_0000_0000 witness 0

  predicate IsWhitelisted(ip: Ip) {
    ip / 0x100_0000 == 127 || ip / 0x1_0000 == 0xC0A8
  }

  datatype Slot = Slot(ip: Ip, occupied: bool)

  const EMPTY := Slot(0, false)

  // ---- probing ----

  /** The i-th slot tried for an address whose home slot is `home`. */
  function Probe(home: nat, i: nat, n: nat): nat {
    if home + i < n then home + i else home + i - n
  }

  /** How many slots are tried before slot s is. */
  function Distance(home: nat, s: nat, n: nat): int {
    if s >= home then s - home else s + n - home
  }

  lemma ProbeIsModular(ip: Ip, i: nat, n: nat)
    requires i < n
    ensures ip % n < n && (ip % n + i) % n == Probe(ip % n, i, n) < n
    ensures Distance(ip % n, Probe(ip % n, i, n), n) == i
  {
    var h := ip % n;
    if h + i < n {
      SmallMod(h + i, n);
    } else {
      SmallMod(h + i - n, n);
      assert h + i == (h + i - n) + n;
      ModPlus(h + i - n, n);
    }
  }

  /** Every address is found on its probe path before the first free slot, and only once. */
  ghost predicate Probed(t: seq<Slot>) {
    forall s: nat, j: nat ::
      s < |t| && t[s].occupied && j < Distance(t[s].ip % |t|, s, |t|) && Probe(t[s].ip % |t|, j, |t|) < |t| ==>
        var p := t[Probe(t[s].ip % |t|, j, |t|)];
        p.occupied && p.ip != t[s].ip
  }

  predicate Holds(t: seq<Slot>, ip: Ip) {
    exists s :: 0 <= s < |t| && t[s].occupied && t[s].ip == ip
  }

  ghost function Contents(t: seq<Slot>): set<Ip> {
    set s | 0 <= s < |t| && t[s].occupied :: t[s].ip
  }

  predicate Full(t: seq<Slot>) {
    forall s :: 0 <= s < |t| ==> t[s].occupied
  }

  lemma HoldsIsContents(t: seq<Slot>, ip: Ip)
    ensures Holds(t, ip) <==> ip in Contents(t)
  {
  }

  // A free slot on the path, after occupied slots of other addresses, shows the address absent.
  lemma FreeSlotMeansAbsent(t: seq<Slot>, ip: Ip, i: nat)
    requires |t| > 0 && Probed(t) && i < |t|
    requires ip % |t| < |t| && Probe(ip % |t|, i, |t|) < |t| && !t[Probe(ip % |t|, i, |t|)].occupied
    requires forall j: nat :: j < i && Probe(ip % |t|, j, |t|) < |t| ==> t[Probe(ip % |t|, j, |t|)].ip != ip
    ensures !Holds(t, ip)
  {
    var h, n := ip % |t|, |t|;
    forall s: nat | s < n && t[s].occupied
      ensures t[s].ip != ip
    {
      var d := Distance(h, s, n);
      assert Probe(h, d, n) == s && Probe(t[s].ip % n, i, n) < n;
    }
  }

  // A path tried to its end covers the table.
  lemma WholePathCoversTable(t: seq<Slot>, ip: Ip, P: Slot -> bool)
    requires |t| > 0 && ip % |t| < |t|
    requires forall j: nat :: j < |t| && Probe(ip % |t|, j, |t|) < |t| ==> P(t[Probe(ip % |t|, j, |t|)])
    ensures forall s :: 0 <= s < |t| ==> P(t[s])
  {
    var h, n := ip % |t|, |t|;
    forall s: nat | s < n
      ensures P(t[s])
    {
      assert Probe(h, Distance(h, s, n), n) == s;
    }
  }

  // Filling the first free slot of an absent address's path.
  lemma FillKeepsProbed(t: seq<Slot>, ip: Ip, i: nat)
    requires |t| > 0 && Probed(t) && !Holds(t, ip) && i < |t|
    requires ip % |t| < |t| && Probe(ip % |t|, i, |t|) < |t| && !t[Probe(ip % |t|, i, |t|)].occupied
    requires forall j: nat :: j < i && Probe(ip % |t|, j, |t|) < |t| ==> t[Probe(ip % |t|, j, |t|)].occupied
    ensures var u := t[Probe(ip % |t|, i, |t|) := Slot(ip, true)];
            Probed(u) && Contents(u) == Contents(t) + {ip}
  {
    var h, n := ip % |t|, |t|;
    var at := Probe(h, i, n);
    var u := t[at := Slot(ip, true)];
    assert Distance(h, at, n) == i;
    forall s: nat, j: nat | s < n && u[s].occupied && j < Distance(u[s].ip % n, s, n) && Probe(u[s].ip % n, j, n) < n
      ensures u[Probe(u[s].ip % n, j, n)].occupied && u[Probe(u[s].ip % n, j, n)].ip != u[s].ip
    {
      var p := Probe(u[s].ip % n, j, n);
      if s == at {
        assert t[p].occupied;
      } else {
        assert t[p].occupied && t[p].ip != t[s].ip;
      }
    }
    forall x
      ensures x in Contents(u) <==> x in Contents(t) + {ip}
    {
      HoldsIsContents(t, x);
      HoldsIsContents(u, x);
      if x in Contents(t) {
        var s :| 0 <= s < n && t[s].occupied && t[s].ip == x;
        assert u[s] == t[s];
      }
      if x == ip {
        assert u[at].occupied && u[at].ip == ip;
      }
    }
  }

  // ---- the set the table stands for ----

  /** Adding to a set of at most n addresses. */
  function Insert(s: set<Ip>, ip: Ip, n: nat): set<Ip> {
    if |s| < n then s + {ip} else s
  }

  lemma {:induction false} IndicesOfTable(t: seq<Slot>, k: nat) returns (ips: set<Ip>)
    requires k <= |t| && Probed(t) && Distinct(t)
    ensures ips == (set s | 0 <= s < k && t[s].occupied :: t[s].ip)
    ensures |ips| <= k
    ensures |ips| == k <==> forall s :: 0 <= s < k ==> t[s].occupied
    decreases k
  {
    ips := set s | 0 <= s < k && t[s].occupied :: t[s].ip;
    if k > 0 {
      var less := IndicesOfTable(t, k - 1);
      if t[k - 1].occupied {
        assert t[k - 1].ip !in less;
        assert ips == less + {t[k - 1].ip};
      } else {
        assert ips == less;
      }
    }
  }

  ghost predicate Distinct(t: seq<Slot>) {
    forall r, s :: 0 <= r < s < |t| && t[r].occupied && t[s].occupied ==> t[r].ip != t[s].ip
  }

  lemma ProbedIsDistinct(t: seq<Slot>)
    requires Probed(t)
    ensures Distinct(t)
  {
    forall r, s | 0 <= r < s < |t| && t[r].occupied && t[s].occupied
      ensures t[r].ip != t[s].ip
    {
      if t[r].ip == t[s].ip {
        SameAddress(t, r, s);
      }
    }
  }

  lemma SameAddress(t: seq<Slot>, r: nat, s: nat)
    requires Probed(t) && r < |t| && s < |t| && t[r].occupied && t[s].occupied && t[r].ip == t[s].ip
    ensures r == s
  {
    var h, n := t[r].ip % |t|, |t|;
    assert h < n;
    assert Probe(h, Distance(h, r, n), n) == r && Probe(h, Distance(h, s, n), n) == s;
    assert Distance(h, r, n) == Distance(h, s, n);
  }

  /** A table is full exactly when its set has as many addresses as it has slots. */
  lemma FullIsCardinality(t: seq<Slot>)
    requires Probed(t)
    ensures |Contents(t)| <= |t|
    ensures Full(t) <==> |Contents(t)| == |t|
  {
    ProbedIsDistinct(t);
    var ips := IndicesOfTable(t, |t|);
    assert ips == Contents(t);
  }

  // ---- the file ----

  function Octet(ip: Ip, i: nat): (o: nat)
    requires i < 4
    ensures o < 256
  {
    if i == 0 then ip / 0x100_0000
    else if i == 1 then ip / 0x1_0000 % 256
    else if i == 2 then ip / 0x100 % 256
    else ip % 256
  }

  /** The line ban_add appends: %u.%u.%u.%u. */
  function Format(ip: Ip): string {
    Print(Octet(ip, 0)) + "." + Print(Octet(ip, 1)) + "." + Print(Octet(ip, 2)) + "." + Print(Octet(ip, 3))
  }

  function ScanDot(s: string): Option<string> {
    if s != "" && s[0] == '.' then Some(s[1..]) else None
  }

  function ScanNumberDot(s: string): Option<(nat, string)> {
    var v := ScanDigits(s);
    if v.None? then None
    else
      var rest := ScanDot(v.value.1);
      if rest.None? then None else Some((v.value.0, rest.value))
  }

  function Quad(a: nat, b: nat, c: nat, d: nat): Ip
    requires a < 256 && b < 256 && c < 256 && d < 256
  {
    a * 0x100_0000 + b * 0x1_0000 + c * 0x100 + d
  }

  /** The address of a dotted quad; text after the fourth number is ignored. */
  function Parse(line: string): Option<Ip> {
    if line == "" || line[0] == '#' then None
    else
      var a := ScanNumberDot(line);
      if a.None? then None else
      var b := ScanNumberDot(a.value.1);
      if b.None? then None else
      var c := ScanNumberDot(b.value.1);
      if c.None? then None else
      var d := ScanDigits(c.value.1);
      if d.None? || a.value.0 > 255 || b.value.0 > 255 || c.value.0 > 255 || d.value.0 > 255 then None
      else Some(Quad(a.value.0, b.value.0, c.value.0, d.value.0))
  }

  lemma ScanPrintedDot(n: nat, rest: string, line: string)
    requires line == Print(n) + "." + rest
    ensures ScanNumberDot(line) == Some((n, rest)) && line != "" && IsDigit(line[0])
  {
    var tail := "." + rest;
    assert line == Print(n) + tail;
    ScanPrintedDigits(n, tail);
    assert tail[1..] == rest;
  }

  // The four octets make up the address again.
  lemma OctetsMakeAddress(ip: Ip)
    ensures Quad(Octet(ip, 0), Octet(ip, 1), Octet(ip, 2), Octet(ip, 3)) == ip
  {
    var high, mid := ip / 0x1_0000, ip / 0x100;
    assert mid == 256 * high + mid % 256;
    assert high == 256 * (ip / 0x100_0000) + high % 256;
    assert ip == 256 * mid + ip % 256;
  }

  lemma ParseQuad(a: nat, b: nat, c: nat, d: nat, line: string)
    requires a < 256 && b < 256 && c < 256 && d < 256
    requires line == Print(a) + "." + (Print(b) + "." + (Print(c) + "." + Print(d)))
    ensures Parse(line) == Some(Quad(a, b, c, d))
  {
    var r3 := Print(d);
    var r2 := Print(c) + "." + r3;
    var r1 := Print(b) + "." + r2;
    ScanPrintedDot(a, r1, line);
    ScanPrintedDot(b, r2, r1);
    ScanPrintedDot(c, r3, r2);
    assert r3 + "" == r3;
    ScanPrintedDigits(d, "");
  }

  /** Reading back a line that was written gives the address. */
  lemma FormatThenParse(ip: Ip)
    ensures Parse(Format(ip)) == Some(ip)
  {
    var a, b, c, d := Octet(ip, 0), Octet(ip, 1), Octet(ip, 2), Octet(ip, 3);
    Regrouped(Print(a), Print(b), Print(c), Print(d));
    ParseQuad(a, b, c, d, Format(ip));
    OctetsMakeAddress(ip);
  }

  lemma Regrouped(a: string, b: string, c: string, d: string)
    ensures a + "." + b + "." + c + "." + d == a + "." + (b + "." + (c + "." + d))
  {
  }

  /** The set banlist_load builds from the file's lines. */
  function LoadSet(lines: seq<string>, n: nat): set<Ip> {
    if lines == [] then {} else AfterLine(LoadSet(lines[..|lines| - 1], n), lines[|lines| - 1], n)
  }

  function AfterLine(s: set<Ip>, line: string, n: nat): set<Ip> {
    var ip := Parse(line);
    if ip.Some? && !IsWhitelisted(ip.value) then Insert(s, ip.value, n) else s
  }

  /** g_ban_table and the ban file. */
  class Bans {
    const table: array<Slot>
    var file: seq<string>

    ghost predicate Valid()
      reads this, table
    {
      table.Length > 0 && Probed(table[..])
    }

    ghost function Banned(): set<Ip>
      reads this, table
    {
      Contents(table[..])
    }

    constructor (size: nat, lines: seq<string>)
      requires size > 0
      ensures Valid() && fresh(table) && table.Length == size
      ensures file == lines && Banned() == LoadSet(lines, size)
    {
      table := new Slot[size](_ => EMPTY);
      file := lines;
      new;
      Load();
    }

    /** ban_check: membership among the addresses that can be banned. */
    method Check(ip: Ip) returns (banned: bool)
      requires Valid()
      ensures banned <==> !IsWhitelisted(ip) && ip in Banned()
    {
      if IsWhitelisted(ip) {
        return false;
      }
      ghost var t := table[..];
      var idx := ip % table.Length;
      var i := 0;
      while i < table.Length
        invariant 0 <= i <= table.Length && t == table[..]
        invariant forall j: nat :: j < i && Probe(idx, j, |t|) < |t| ==> t[Probe(idx, j, |t|)].occupied && t[Probe(idx, j, |t|)].ip != ip
      {
        var slot := (idx + i) % table.Length;
        ProbeIsModular(ip, i, table.Length);
        if !table[slot].occupied {
          FreeSlotMeansAbsent(t, ip, i);
          HoldsIsContents(t, ip);
          return false;
        }
        if table[slot].ip == ip {
          assert t[slot].ip == ip;
          HoldsIsContents(t, ip);
          return true;
        }
        i := i + 1;
      }
      ProbeIsModular(ip, 0, |t|);
      WholePathCoversTable(t, ip, (s: Slot) => s.ip != ip);
      return false;
    }

    /** ban_insert_memory: nothing happens to a full table. */
    method InsertMemory(ip: Ip)
      requires Valid()
      modifies table
      ensures Valid()
      ensures Banned() == if ip in old(Banned()) then old(Banned()) else Insert(old(Banned()), ip, table.Length)
    {
      ghost var t := table[..];
      FullIsCardinality(t);
      var idx := ip % table.Length;
      var i := 0;
      while i < table.Length
        invariant 0 <= i <= table.Length && t == table[..]
        invariant forall j: nat :: j < i && Probe(idx, j, |t|) < |t| ==> t[Probe(idx, j, |t|)].occupied && t[Probe(idx, j, |t|)].ip != ip
      {
        var slot := (idx + i) % table.Length;
        ProbeIsModular(ip, i, table.Length);
        if !table[slot].occupied {
          FreeSlotMeansAbsent(t, ip, i);
          FillKeepsProbed(t, ip, i);
          HoldsIsContents(t, ip);
          table[slot] := Slot(ip, true);
          assert table[..] == t[slot := Slot(ip, true)];
          return;
        }
        if table[slot].ip == ip {
          assert t[slot].ip == ip;
          HoldsIsContents(t, ip);
          return;
        }
        i := i + 1;
      }
      ProbeIsModular(ip, 0, |t|);
      WholePathCoversTable(t, ip, (s: Slot) => s.occupied);
      WholePathCoversTable(t, ip, (s: Slot) => s.ip != ip);
    }

    /** ban_add; `ok` says whether the file could be written. */
    method Add(ip: Ip, ok: bool)
      requires Valid()
      modifies this, table
      ensures Valid()
      ensures Banned() == AfterBan(old(Banned()), ip, table.Length)
      ensures file == if ok then LinesAfterBan(old(Banned()), old(file), ip) else old(file)
    {
      if IsWhitelisted(ip) {
        return;
      }
      var present := Check(ip);
      if present {
        return;
      }
      InsertMemory(ip);
      if ok {
        file := file + [Format(ip)];
      }
    }

    method Clear()
      requires table.Length > 0
      modifies table
      ensures Valid() && Banned() == {}
    {
      for i := 0 to table.Length
        invariant forall s :: 0 <= s < i ==> table[s] == EMPTY
      {
        table[i] := EMPTY;
      }
      assert forall s :: 0 <= s < table.Length ==> !table[..][s].occupied;
    }

    /** One line of the file. */
    method LoadLine(line: string)
      requires Valid()
      modifies table
      ensures Valid() && Banned() == AfterLine(old(Banned()), line, table.Length)
    {
      var ip := Parse(line);
      if ip.Some? && !IsWhitelisted(ip.value) {
        InsertMemory(ip.value);
        if ip.value in old(Banned()) {
          InsertPresent(old(Banned()), ip.value, table.Length);
        }
      }
    }

    /** banlist_load */
    method Load()
      requires table.Length > 0
      modifies table
      ensures Valid() && Banned() == LoadSet(file, table.Length)
    {
      Clear();
      for i := 0 to |file|
        invariant Valid() && Banned() == LoadSet(file[..i], table.Length)
      {
        assert file[..i + 1][..i] == file[..i];
        LoadLine(file[i]);
      }
      assert file[..|file|] == file;
    }
  }

  function AfterBan(s: set<Ip>, ip: Ip, n: nat): set<Ip> {
    if IsWhitelisted(ip) || ip in s then s else Insert(s, ip, n)
  }

  lemma InsertPresent(s: set<Ip>, ip: Ip, n: nat)
    requires ip in s
    ensures Insert(s, ip, n) == s
  {
  }

  // ---- the file is the table ----

  /** One ban and its file line, if the write succeeds. */
  function LinesAfterBan(s: set<Ip>, lines: seq<string>, ip: Ip): seq<string> {
    lines + (if !IsWhitelisted(ip) && ip !in s then [Format(ip)] else [])
  }

  function BanAll(s: set<Ip>, ips: seq<Ip>, n: nat): set<Ip>
    decreases |ips|
  {
    if ips == [] then s else BanAll(AfterBan(s, ips[0], n), ips[1..], n)
  }

  function WriteAll(s: set<Ip>, lines: seq<string>, ips: seq<Ip>, n: nat): seq<string>
    decreases |ips|
  {
    if ips == [] then lines
    else WriteAll(AfterBan(s, ips[0], n), LinesAfterBan(s, lines, ips[0]), ips[1..], n)
  }

  /**
   * After any sequence of bans whose writes succeed, a restart that reloads the file has
   * exactly the addresses the running table has, even once the table is full.
   */
  lemma {:induction false} ReloadIsIdentity(lines: seq<string>, ips: seq<Ip>, n: nat)
    ensures LoadSet(WriteAll(LoadSet(lines, n), lines, ips, n), n) == BanAll(LoadSet(lines, n), ips, n)
    decreases |ips|
  {
    if ips != [] {
      var ip := ips[0];
      var s := LoadSet(lines, n);
      var more := LinesAfterBan(s, lines, ip);
      if !IsWhitelisted(ip) && ip !in s {
        FormatThenParse(ip);
        assert more[..|more| - 1] == lines;
      } else {
        assert more == lines;
      }
      assert LoadSet(more, n) == AfterBan(s, ip, n);
      ReloadIsIdentity(more, ips[1..], n);
    }
  }

  /** No whitelisted address and at most n addresses are ever loaded. */
  lemma {:induction false} LoadedAreBannable(lines: seq<string>, n: nat)
    ensures |LoadSet(lines, n)| <= n
    ensures forall ip :: ip in LoadSet(lines, n) ==> !IsWhitelisted(ip)
  {
    if lines != [] {
      LoadedAreBannable(lines[..|lines| - 1], n);
    }
  }
}
