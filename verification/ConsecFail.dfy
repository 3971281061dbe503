/**
 * The gateway's counter of consecutive authentication failures
 * (daemon/opencode-gateway.c): a direct-mapped table in which addresses that share a slot
 * displace each other, and the bans it asks for. Table size and limit are parameters.
 */
module ConsecFail {
  import opened Bans = BanTable

  datatype Entry = Entry(ip: Ip, failures: nat)

  /** What the gateway reports: a finished login attempt of an address. */
  datatype Outcome = Failure(ip: Ip) | Success(ip: Ip)

  function Counted(e: Entry, ip: Ip): nat {
    (if e.ip == ip then e.failures else 0) + 1
  }

  /** What an outcome does to the entry of its slot. */
  function EntryAfter(e: Entry, o: Outcome, max: nat): Entry {
    match o
    case Failure(ip) =>
      if IsWhitelisted(ip) then e else Entry(ip, if Counted(e, ip) >= max then 0 else Counted(e, ip))
    case Success(ip) => if e.ip == ip then Entry(ip, 0) else e
  }

  function AfterOutcome(t: seq<Entry>, o: Outcome, max: nat): (u: seq<Entry>)
    requires |t| > 0
    ensures |u| == |t|
  {
    assert o.ip % |t| < |t|;
    t[o.ip % |t| := EntryAfter(t[o.ip % |t|], o, max)]
  }

  /** Whether an outcome makes the gateway ban its address. */
  predicate AsksForBan(t: seq<Entry>, o: Outcome, max: nat)
    requires |t| > 0
  {
    assert o.ip % |t| < |t|;
    o.Failure? && !IsWhitelisted(o.ip) && Counted(t[o.ip % |t|], o.ip) >= max
  }

  function Initial(m: nat): (t: seq<Entry>)
    ensures |t| == m
  {
    seq(m, _ => Entry(0, 0))
  }

  /** The table after a history of outcomes. */
  function TableAfter(h: seq<Outcome>, m: nat, max: nat): (t: seq<Entry>)
    requires m > 0
    ensures |t| == m
  {
    if h == [] then Initial(m) else AfterOutcome(TableAfter(h[..|h| - 1], m, max), h[|h| - 1], max)
  }

  /** The banned set after a history, from the set s0; it holds at most n addresses. */
  function BannedAfter(s0: set<Ip>, h: seq<Outcome>, m: nat, max: nat, n: nat): set<Ip>
    requires m > 0
  {
    if h == [] then s0
    else
      var before := h[..|h| - 1];
      var s := BannedAfter(s0, before, m, max, n);
      var o := h[|h| - 1];
      if AsksForBan(TableAfter(before, m, max), o, max) then AfterBan(s, o.ip, n) else s
  }

  // ---- what the table is for, told from the history alone ----

  /** An outcome that ends an address's run of failures. */
  predicate Interrupts(o: Outcome, ip: Ip, m: nat)
    requires m > 0
  {
    match o
    case Success(q) => q == ip
    case Failure(q) => q != ip && !IsWhitelisted(q) && q % m == ip % m
  }

  predicate CountsFor(o: Outcome, ip: Ip) {
    o == Failure(ip) && !IsWhitelisted(ip)
  }

  function Failures(h: seq<Outcome>, ip: Ip): nat {
    if h == [] then 0 else Failures(h[..|h| - 1], ip) + (if CountsFor(h[|h| - 1], ip) then 1 else 0)
  }

  predicate Uninterrupted(h: seq<Outcome>, ip: Ip, m: nat)
    requires m > 0
  {
    forall i :: 0 <= i < |h| ==> !Interrupts(h[i], ip, m)
  }

  /** Failures of an address since its run was last interrupted. */
  function Streak(h: seq<Outcome>, ip: Ip, m: nat): nat
    requires m > 0
  {
    if h == [] then 0 else NextStreak(Streak(h[..|h| - 1], ip, m), h[|h| - 1], ip, m)
  }

  function NextStreak(streak: nat, o: Outcome, ip: Ip, m: nat): nat
    requires m > 0
  {
    if Interrupts(o, ip, m) then 0 else if CountsFor(o, ip) then streak + 1 else streak
  }

  /** A stretch of the history that earns an address a ban. */
  ghost predicate Offends(h: seq<Outcome>, i: nat, k: nat, ip: Ip, m: nat, max: nat)
    requires m > 0
  {
    i < k <= |h| && CountsFor(h[k - 1], ip) && Failures(h[i..k], ip) >= max && Uninterrupted(h[i..k], ip, m)
  }

  // ---- the table counts streaks ----

  predicate EntryCounts(e: Entry, ip: Ip, streak: nat, max: nat)
    requires max > 0
  {
    if e.ip == ip then e.failures == streak % max else streak == 0
  }

  ghost predicate CountsStreaks(t: seq<Entry>, h: seq<Outcome>, max: nat)
    requires |t| > 0 && max > 0
  {
    forall ip: Ip :: ip % |t| < |t| ==> EntryCounts(t[ip % |t|], ip, Streak(h, ip, |t|), max)
  }

  lemma NextMod(x: nat, max: nat)
    requires max > 0
    ensures (x + 1) % max == if x % max + 1 >= max then 0 else x % max + 1
  {
    var q, r := x / max, x % max;
    assert x == q * max + r;
    if r + 1 == max {
      assert x + 1 == (q + 1) * max + 0 by {
        assert (q + 1) * max == q * max + max;
      }
      ModOf(x + 1, q + 1, 0, max);
    } else {
      ModOf(x + 1, q, r + 1, max);
    }
  }

  lemma ModOf(x: nat, q: nat, r: nat, n: nat)
    requires r < n && x == q * n + r
    ensures x % n == r
  {
    var q', r' := x / n, x % n;
    assert x == q' * n + r';
    MulMonotone(q' + 1, q, n);
    MulMonotone(q + 1, q', n);
  }

  lemma MulMonotone(a: int, b: int, n: nat)
    ensures a <= b ==> a * n <= b * n
  {
  }

  lemma StreakNext(h: seq<Outcome>, o: Outcome, ip: Ip, m: nat)
    requires m > 0
    ensures Streak(h + [o], ip, m) == NextStreak(Streak(h, ip, m), o, ip, m)
  {
    assert (h + [o])[..|h + [o]| - 1] == h;
  }

  lemma EntryKeepsCount(e: Entry, o: Outcome, ip: Ip, streak: nat, m: nat, max: nat)
    requires m > 0 && max > 0 && ip % m == o.ip % m
    requires EntryCounts(e, ip, streak, max)
    ensures EntryCounts(EntryAfter(e, o, max), ip, NextStreak(streak, o, ip, m), max)
  {
    if o == Failure(ip) {
      NextMod(streak, max);
      if e.ip != ip {
        NextMod(0, max);
      }
    }
  }

  // The slot an outcome belongs to.
  lemma OwnSlotKeepsCount(t: seq<Entry>, h: seq<Outcome>, o: Outcome, ip: Ip, max: nat)
    requires |t| > 0 && max > 0 && CountsStreaks(t, h, max)
    requires ip % |t| == o.ip % |t| < |t|
    ensures EntryCounts(AfterOutcome(t, o, max)[ip % |t|], ip, Streak(h + [o], ip, |t|), max)
  {
    var e := t[ip % |t|];
    var streak := Streak(h, ip, |t|);
    StreakNext(h, o, ip, |t|);
    assert EntryCounts(e, ip, streak, max);
    EntryKeepsCount(e, o, ip, streak, |t|, max);
    assert AfterOutcome(t, o, max)[ip % |t|] == EntryAfter(e, o, max);
  }

  lemma OtherSlotKeepsCount(t: seq<Entry>, h: seq<Outcome>, o: Outcome, ip: Ip, max: nat)
    requires |t| > 0 && max > 0 && CountsStreaks(t, h, max)
    requires o.ip % |t| < |t| && ip % |t| < |t| && ip % |t| != o.ip % |t|
    ensures EntryCounts(AfterOutcome(t, o, max)[ip % |t|], ip, Streak(h + [o], ip, |t|), max)
  {
    StreakNext(h, o, ip, |t|);
    assert EntryCounts(t[ip % |t|], ip, Streak(h, ip, |t|), max);
  }

  lemma OutcomeKeepsCount(t: seq<Entry>, h: seq<Outcome>, o: Outcome, max: nat)
    requires |t| > 0 && max > 0 && CountsStreaks(t, h, max)
    ensures CountsStreaks(AfterOutcome(t, o, max), h + [o], max)
  {
    var u := AfterOutcome(t, o, max);
    forall ip: Ip | ip % |t| < |t|
      ensures EntryCounts(u[ip % |t|], ip, Streak(h + [o], ip, |t|), max)
    {
      assert o.ip % |t| < |t|;
      if ip % |t| == o.ip % |t| {
        OwnSlotKeepsCount(t, h, o, ip, max);
      } else {
        OtherSlotKeepsCount(t, h, o, ip, max);
      }
    }
  }

  /**
   * Whatever addresses share slots, each entry holds its address's streak (counted round the
   * limit), and an address that holds no entry has none.
   */
  lemma {:induction false} EntriesAreStreaks(h: seq<Outcome>, m: nat, max: nat)
    requires m > 0 && max > 0
    ensures CountsStreaks(TableAfter(h, m, max), h, max)
    decreases |h|
  {
    if h != [] {
      var before := h[..|h| - 1];
      EntriesAreStreaks(before, m, max);
      assert h == before + [h[|h| - 1]];
      OutcomeKeepsCount(TableAfter(before, m, max), before, h[|h| - 1], max);
    }
  }

  /** A ban is asked for exactly when the failure brings the streak to a multiple of the limit. */
  lemma BanAskedExactly(h: seq<Outcome>, o: Outcome, m: nat, max: nat)
    requires m > 0 && max > 0
    ensures AsksForBan(TableAfter(h, m, max), o, max) <==>
            CountsFor(o, o.ip) && Streak(h + [o], o.ip, m) % max == 0
  {
    EntriesAreStreaks(h, m, max);
    var t := TableAfter(h, m, max);
    assert o.ip % m < m;
    assert EntryCounts(t[o.ip % m], o.ip, Streak(h, o.ip, m), max);
    StreakNext(h, o, o.ip, m);
    NextMod(Streak(h, o.ip, m), max);
  }

  // ---- streaks and stretches of the history ----

  lemma {:induction false} StreakIsStretch(h: seq<Outcome>, ip: Ip, m: nat) returns (i: nat)
    requires m > 0
    ensures i <= |h| && Uninterrupted(h[i..], ip, m) && Failures(h[i..], ip) == Streak(h, ip, m)
    decreases |h|
  {
    if h == [] || Interrupts(h[|h| - 1], ip, m) {
      i := |h|;
    } else {
      var before := h[..|h| - 1];
      i := StreakIsStretch(before, ip, m);
      assert h[i..][..|h[i..]| - 1] == before[i..];
    }
  }

  lemma {:induction false} StretchWithinStreak(h: seq<Outcome>, i: nat, ip: Ip, m: nat)
    requires m > 0 && i <= |h| && Uninterrupted(h[i..], ip, m)
    ensures Failures(h[i..], ip) <= Streak(h, ip, m)
    decreases |h|
  {
    if i < |h| {
      var before := h[..|h| - 1];
      assert h[i..][..|h[i..]| - 1] == before[i..];
      assert h[i..][|h| - 1 - i] == h[|h| - 1];
      assert forall j :: 0 <= j < |before[i..]| ==> before[i..][j] == h[i..][j];
      StretchWithinStreak(before, i, ip, m);
    }
  }

  // ---- bans ----

  lemma {:induction false} BansAccumulate(s0: set<Ip>, h: seq<Outcome>, k: nat, m: nat, max: nat, n: nat)
    requires m > 0 && k <= |h|
    ensures BannedAfter(s0, h[..k], m, max, n) <= BannedAfter(s0, h, m, max, n)
    decreases |h|
  {
    if k == |h| {
      assert h[..k] == h;
    } else {
      BansAccumulate(s0, h[..|h| - 1], k, m, max, n);
      assert h[..|h| - 1][..k] == h[..k];
    }
  }

  // Sound: a new ban has a stretch behind it.
  lemma {:induction false} BannedHasOffended(s0: set<Ip>, h: seq<Outcome>, ip: Ip, m: nat, max: nat, n: nat) returns (i: nat, k: nat)
    requires m > 0 && max > 0 && ip in BannedAfter(s0, h, m, max, n) && ip !in s0
    ensures Offends(h, i, k, ip, m, max)
    decreases |h|
  {
    var before, o := h[..|h| - 1], h[|h| - 1];
    assert h == before + [o];
    if ip in BannedAfter(s0, before, m, max, n) {
      i, k := BannedHasOffended(s0, before, ip, m, max, n);
      assert h[i..k] == before[i..k];
    } else {
      BanAskedExactly(before, o, m, max);
      k := |h|;
      i := StreakIsStretch(h, ip, m);
      assert h[i..k] == h[i..];
      PositiveMultiple(Streak(h, ip, m), max);
      assert Failures(h[i..], ip) > 0;
    }
  }

  lemma PositiveMultiple(x: nat, n: nat)
    requires n > 0 && x % n == 0 && x > 0
    ensures x >= n
  {
  }

  // Complete: a streak of `max` failures has led to a ban, unless there is no room.
  lemma {:induction false} StreakIsBanned(s0: set<Ip>, h: seq<Outcome>, ip: Ip, m: nat, max: nat, n: nat)
    requires m > 0 && max > 0 && Streak(h, ip, m) >= max
    requires |BannedAfter(s0, h, m, max, n)| < n
    ensures ip in BannedAfter(s0, h, m, max, n)
    decreases |h|
  {
    var before, o := h[..|h| - 1], h[|h| - 1];
    assert h == before + [o];
    BansAccumulate(s0, h, |h| - 1, m, max, n);
    SubsetIsSmaller(BannedAfter(s0, before, m, max, n), BannedAfter(s0, h, m, max, n));
    if Streak(before, ip, m) >= max {
      StreakIsBanned(s0, before, ip, m, max, n);
    } else {
      assert Streak(h, ip, m) == max && o == Failure(ip) && CountsFor(o, ip);
      ModOf(max, 1, 0, max);
      BanAskedExactly(before, o, m, max);
    }
  }

  lemma SubsetIsSmaller(a: set<Ip>, b: set<Ip>)
    requires a <= b
    ensures |a| <= |b|
  {
    assert b == a + (b - a);
  }

  lemma OffenceIsBanned(s0: set<Ip>, h: seq<Outcome>, i: nat, k: nat, ip: Ip, m: nat, max: nat, n: nat)
    requires m > 0 && max > 0 && Offends(h, i, k, ip, m, max)
    requires |BannedAfter(s0, h, m, max, n)| < n
    ensures ip in BannedAfter(s0, h, m, max, n)
  {
    assert h[..k][i..] == h[i..k];
    StretchWithinStreak(h[..k], i, ip, m);
    BansAccumulate(s0, h, k, m, max, n);
    SubsetIsSmaller(BannedAfter(s0, h[..k], m, max, n), BannedAfter(s0, h, m, max, n));
    StreakIsBanned(s0, h[..k], ip, m, max, n);
  }

  /**
   * While the ban table has room, an address is banned exactly when it was banned at the start
   * or some stretch of the history holds `max` of its failures, with no success of its own and
   * no failure of another address of its slot among them.
   */
  lemma BannedExactly(s0: set<Ip>, h: seq<Outcome>, ip: Ip, m: nat, max: nat, n: nat)
    requires m > 0 && max > 0
    requires |BannedAfter(s0, h, m, max, n)| < n
    ensures ip in BannedAfter(s0, h, m, max, n) <==>
            ip in s0 || exists i: nat, k: nat :: Offends(h, i, k, ip, m, max)
  {
    BansAccumulate(s0, h, 0, m, max, n);
    if ip in BannedAfter(s0, h, m, max, n) && ip !in s0 {
      var i, k := BannedHasOffended(s0, h, ip, m, max, n);
    }
    if i: nat, k: nat :| Offends(h, i, k, ip, m, max) {
      OffenceIsBanned(s0, h, i, k, ip, m, max, n);
    }
  }

  /** Full or not: no ban without the failures, and never of a whitelisted address. */
  lemma BanIsEarned(s0: set<Ip>, h: seq<Outcome>, ip: Ip, m: nat, max: nat, n: nat) returns (i: nat, k: nat)
    requires m > 0 && max > 0 && ip in BannedAfter(s0, h, m, max, n) && ip !in s0
    ensures Offends(h, i, k, ip, m, max) && !IsWhitelisted(ip)
  {
    i, k := BannedHasOffended(s0, h, ip, m, max, n);
  }

  /** g_consec_fail, and the ban table it fills. */
  class FailTable {
    const table: array<Entry>
    const bans: Bans.Bans
    const max: nat

    ghost predicate Valid()
      reads this, table, bans, bans.table
    {
      table.Length > 0 && max > 0 && bans.Valid()
    }

    constructor (size: nat, max: nat, bans: Bans.Bans)
      requires size > 0 && max > 0 && bans.Valid()
      ensures Valid() && fresh(table) && this.bans == bans && this.max == max
      ensures table[..] == TableAfter([], size, max)
    {
      table := new Entry[size](_ => Entry(0, 0));
      this.bans := bans;
      this.max := max;
    }

    /** consec_fail_record */
    method Record(ip: Ip, canWrite: bool)
      requires Valid()
      modifies table, bans, bans.table
      ensures Valid()
      ensures table[..] == AfterOutcome(old(table[..]), Failure(ip), max)
      ensures bans.Banned() == if AsksForBan(old(table[..]), Failure(ip), max)
                               then AfterBan(old(bans.Banned()), ip, bans.table.Length)
                               else old(bans.Banned())
    {
      if IsWhitelisted(ip) {
        return;
      }
      var idx := ip % table.Length;
      if table[idx].ip != ip {
        table[idx] := Entry(ip, 0);
      }
      table[idx] := Entry(ip, table[idx].failures + 1);
      if table[idx].failures >= max {
        bans.Add(ip, canWrite);
        table[idx] := Entry(ip, 0);
      }
    }

    /** consec_fail_clear */
    method Clear(ip: Ip)
      requires Valid()
      modifies table
      ensures Valid()
      ensures table[..] == AfterOutcome(old(table[..]), Success(ip), max)
    {
      var idx := ip % table.Length;
      if table[idx].ip == ip {
        table[idx] := Entry(ip, 0);
      }
    }
  }
}
