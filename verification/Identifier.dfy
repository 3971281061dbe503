/** Identifiers that sort by time (packages/util/src/identifier.ts). */
module Identifier {
  // ---- strings in order ----

  /** The order of strings, character by character. */
  predicate Less(a: string, b: string) {
    b != "" && (a == "" || a[0] < b[0] || (a[0] == b[0] && Less(a[1..], b[1..])))
  }

  lemma {:induction false} LessOfAppend(a: string, b: string, c: string, d: string)
    requires |a| == |b|
    ensures Less(a + c, b + d) <==> Less(a, b) || (a == b && Less(c, d))
    decreases |a|
  {
    if a == "" {
      assert a + c == c && b + d == d;
    } else {
      assert (a + c)[1..] == a[1..] + c && (b + d)[1..] == b[1..] + d;
      LessOfAppend(a[1..], b[1..], c, d);
      assert a == [a[0]] + a[1..] && b == [b[0]] + b[1..];
    }
  }

  function HexDigit(n: nat): (c: char)
    requires n < 16
  {
    if n < 10 then '0' + n as char else 'a' + (n - 10) as char
  }

  lemma DigitsInOrder(m: nat, n: nat)
    requires m < 16 && n < 16
    ensures HexDigit(m) < HexDigit(n) <==> m < n
    ensures HexDigit(m) == HexDigit(n) <==> m == n
  {
  }

  function ByteHex(b: nat): (s: string)
    requires b < 256
    ensures |s| == 2
  {
    [HexDigit(b / 16), HexDigit(b % 16)]
  }

  lemma LessOne(a: char, b: char)
    ensures Less([a], [b]) <==> a < b
  {
    assert [a][1..] == "" && [b][1..] == "";
  }

  lemma LessTwo(a: char, b: char, c: char, d: char)
    ensures Less([a, b], [c, d]) <==> a < c || (a == c && b < d)
  {
    assert [a, b][1..] == [b] && [c, d][1..] == [d];
    LessOne(b, d);
  }

  lemma BytesInOrder(a: nat, b: nat)
    requires a < 256 && b < 256
    ensures Less(ByteHex(a), ByteHex(b)) <==> a < b
    ensures ByteHex(a) == ByteHex(b) <==> a == b
  {
    DigitsInOrder(a / 16, b / 16);
    DigitsInOrder(a % 16, b % 16);
    LessTwo(HexDigit(a / 16), HexDigit(a % 16), HexDigit(b / 16), HexDigit(b % 16));
    assert ByteHex(a)[0] == HexDigit(a / 16) && ByteHex(a)[1] == HexDigit(a % 16);
    assert ByteHex(b)[0] == HexDigit(b / 16) && ByteHex(b)[1] == HexDigit(b % 16);
  }

  // ---- bytes ----

  type Byte = x: int | 0 <= x < 256 witness 0

  /** toString("hex") */
  function Hex(bytes: seq<Byte>): (s: string)
    ensures |s| == 2 * |bytes|
  {
    if bytes == [] then "" else Hex(bytes[..|bytes| - 1]) + ByteHex(bytes[|bytes| - 1])
  }

  /** The number bytes make, high byte first. */
  function Value(bytes: seq<Byte>): nat {
    if bytes == [] then 0 else 256 * Value(bytes[..|bytes| - 1]) + bytes[|bytes| - 1] as int
  }

  lemma {:induction false} HexInOrder(a: seq<Byte>, b: seq<Byte>)
    requires |a| == |b|
    ensures Less(Hex(a), Hex(b)) <==> Value(a) < Value(b)
    ensures Hex(a) == Hex(b) <==> Value(a) == Value(b)
    decreases |a|
  {
    if a != [] {
      var n := |a| - 1;
      HexInOrder(a[..n], b[..n]);
      BytesInOrder(a[n], b[n]);
      LessOfAppend(Hex(a[..n]), Hex(b[..n]), ByteHex(a[n]), ByteHex(b[n]));
      AppendEqual(Hex(a[..n]), Hex(b[..n]), ByteHex(a[n]), ByteHex(b[n]));
    }
  }

  lemma AppendEqual(a: string, b: string, c: string, d: string)
    requires |a| == |b|
    ensures a + c == b + d <==> a == b && c == d
  {
    assert (a + c)[..|a|] == a && (b + d)[..|b|] == b;
    assert (a + c)[|a|..] == c && (b + d)[|b|..] == d;
  }

  // ---- identifiers ----

  const WRAP: nat := 0x1_0000_0000_0000

  /** 2 to the power 40 - 8 * i. */
  function Weight(i: nat): (w: nat)
    requires i < 6
    ensures w > 0
  {
    if i == 0 then 0x100_0000_0000 else if i == 1 then 0x1_0000_0000 else if i == 2 then 0x100_0000
    else if i == 3 then 0x1_0000 else if i == 4 then 0x100 else 1
  }

  /** timeBytes: six bytes of a number that may be negative, by shifting and masking. */
  function TimeBytes(now: int): (bytes: seq<Byte>)
    ensures |bytes| == 6
  {
    seq(6, i requires 0 <= i < 6 => now / Weight(i) % 256)
  }

  function Number(now: nat, descending: bool): int {
    if descending then -(now as int) - 1 else now
  }

  /** The time part: the low 48 bits of the number, or of its complement. */
  function TimeHex(now: nat, descending: bool): string {
    Hex(TimeBytes(Number(now, descending)))
  }

  function Bits(now: nat, descending: bool): (v: nat)
    ensures v < WRAP
  {
    Number(now, descending) % WRAP
  }

  lemma Quotients(now: int)
    ensures now == 0x100 * (now / 0x100) + now % 256
    ensures now / 0x100 == 0x100 * (now / 0x1_0000) + now / 0x100 % 256
    ensures now / 0x1_0000 == 0x100 * (now / 0x100_0000) + now / 0x1_0000 % 256
  {
  }

  lemma HigherQuotients(now: int)
    ensures now / 0x100_0000 == 0x100 * (now / 0x1_0000_0000) + now / 0x100_0000 % 256
    ensures now / 0x1_0000_0000 == 0x100 * (now / 0x100_0000_0000) + now / 0x1_0000_0000 % 256
    ensures now / 0x100_0000_0000 == 0x100 * (now / 0x1_0000_0000_0000) + now / 0x100_0000_0000 % 256
  {
    var q := now / 0x100_0000;
    Quotients(q);
    assert q / 0x100 == now / 0x1_0000_0000;
    assert q / 0x1_0000 == now / 0x100_0000_0000;
    assert q / 0x100_0000 == now / 0x1_0000_0000_0000;
  }

  lemma ValueOfSix(a: Byte, b: Byte, c: Byte, d: Byte, e: Byte, f: Byte)
    ensures Value([a, b, c, d, e, f]) ==
            0x100 * (0x100 * (0x100 * (0x100 * (0x100 * (a as int) + b as int) + c as int) + d as int) + e as int) + f as int
  {
    assert [a, b, c, d, e, f][..5] == [a, b, c, d, e];
    assert [a, b, c, d, e][..4] == [a, b, c, d];
    assert [a, b, c, d][..3] == [a, b, c];
    assert [a, b, c][..2] == [a, b];
    assert [a, b][..1] == [a];
    assert [a][..0] == [];
    assert Value([a]) == a;
    assert Value([a, b]) == 256 * Value([a]) + b as int;
    assert Value([a, b, c]) == 256 * Value([a, b]) + c as int;
    assert Value([a, b, c, d]) == 256 * Value([a, b, c]) + d as int;
    assert Value([a, b, c, d, e]) == 256 * Value([a, b, c, d]) + e as int;
  }

  /** The six bytes are the number's low 48 bits. */
  lemma TimeBytesAreLowBits(now: int)
    ensures Value(TimeBytes(now)) == now % WRAP
  {
    SixBytes(now);
    ValueOfSix(now / 0x100_0000_0000 % 256, now / 0x1_0000_0000 % 256, now / 0x100_0000 % 256,
               now / 0x1_0000 % 256, now / 0x100 % 256, now % 256);
    Quotients(now);
    HigherQuotients(now);
  }

  lemma SixBytes(now: int)
    ensures TimeBytes(now) == [now / 0x100_0000_0000 % 256, now / 0x1_0000_0000 % 256, now / 0x100_0000 % 256,
                               now / 0x1_0000 % 256, now / 0x100 % 256, now % 256]
  {
    var t := TimeBytes(now);
    assert t == [t[0], t[1], t[2], t[3], t[4], t[5]];
    assert now / 1 == now;
  }

  datatype Clock = Clock(last: nat, counter: nat) {
    function Now(): nat {
      last * 0x1000 + counter
    }
  }

  /** The module's variables after an identifier is made at this time. */
  function Tick(c: Clock, timestamp: nat): Clock {
    if timestamp != c.last then Clock(timestamp, 1) else Clock(timestamp, c.counter + 1)
  }

  class Generator {
    var lastTimestamp: nat
    var counter: nat

    ghost function State(): Clock
      reads this
    {
      Clock(lastTimestamp, counter)
    }

    constructor ()
      ensures State() == Clock(0, 0)
    {
      lastTimestamp, counter := 0, 0;
    }

    /** create, with the random end given. */
    method Create(descending: bool, timestamp: nat, random: string) returns (id: string)
      modifies this
      ensures State() == Tick(old(State()), timestamp)
      ensures id == TimeHex(State().Now(), descending) + random
    {
      if timestamp != lastTimestamp {
        lastTimestamp := timestamp;
        counter := 0;
      }
      counter := counter + 1;
      var now: int := timestamp * 0x1000 + counter;
      if descending {
        now := -now - 1;
      }
      var timeBytes := FillTimeBytes(now);
      id := Hex(timeBytes) + random;
    }
  }

  method FillTimeBytes(now: int) returns (bytes: seq<Byte>)
    ensures bytes == TimeBytes(now)
  {
    var timeBytes := new Byte[6](_ => 0);
    for i := 0 to 6
      invariant forall j :: 0 <= j < i ==> timeBytes[j] == now / Weight(j) % 256
    {
      timeBytes[i] := now / Weight(i) % 256;
    }
    return timeBytes[..];
  }

  // ---- order ----

  /** Two identifiers are in string order just as their 48 bits are; for the same bits the random ends decide. */
  lemma OrderIsOfBits(m: nat, n: nat, descending: bool, r: string, s: string)
    ensures Less(TimeHex(m, descending) + r, TimeHex(n, descending) + s)
            <==> Bits(m, descending) < Bits(n, descending) || (Bits(m, descending) == Bits(n, descending) && Less(r, s))
  {
    TimeBytesAreLowBits(Number(m, descending));
    TimeBytesAreLowBits(Number(n, descending));
    HexInOrder(TimeBytes(Number(m, descending)), TimeBytes(Number(n, descending)));
    LessOfAppend(TimeHex(m, descending), TimeHex(n, descending), r, s);
  }

  /**
   * A later number makes an ascending identifier that sorts later (and a descending one that
   * sorts earlier) exactly when its low 48 bits are greater, or are the same and the random
   * ends are so ordered; for numbers less than 2^48 apart, exactly when both lie in the same
   * block of 2^48.
   */
  lemma InOrderExactly(m: nat, n: nat, r: string, s: string)
    requires m < n
    ensures Less(TimeHex(m, false) + r, TimeHex(n, false) + s) <==> m % WRAP < n % WRAP || (m % WRAP == n % WRAP && Less(r, s))
    ensures Less(TimeHex(n, true) + s, TimeHex(m, true) + r) <==> m % WRAP < n % WRAP || (m % WRAP == n % WRAP && Less(s, r))
    ensures n < m + WRAP ==> m % WRAP != n % WRAP && (m % WRAP < n % WRAP <==> m / WRAP == n / WRAP)
  {
    Complement(m);
    Complement(n);
    OrderIsOfBits(m, n, false, r, s);
    OrderIsOfBits(n, m, true, s, r);
    if n < m + WRAP {
      BlocksOf(m, n);
    }
  }

  lemma BlocksOf(m: nat, n: nat)
    requires m < n < m + WRAP
    ensures m % WRAP != n % WRAP && (m % WRAP < n % WRAP <==> m / WRAP == n / WRAP)
  {
  }

  lemma Complement(n: nat)
    ensures Bits(n, true) == WRAP - 1 - n % WRAP
  {
    var h: int, v: int := n / WRAP, n % WRAP;
    assert Number(n, true) == (-h - 1) * WRAP + (WRAP - 1 - v);
  }

  // ---- runs ----

  function After(times: seq<nat>): Clock {
    if times == [] then Clock(0, 0) else Tick(After(times[..|times| - 1]), times[|times| - 1])
  }

  function Count(times: seq<nat>, t: nat): nat {
    if times == [] then 0 else Count(times[..|times| - 1], t) + (if times[|times| - 1] == t then 1 else 0)
  }

  predicate NeverBack(times: seq<nat>) {
    forall i, j :: 0 <= i < j < |times| ==> times[i] <= times[j]
  }

  lemma {:induction false} NoneLater(times: seq<nat>, t: nat)
    requires forall i :: 0 <= i < |times| ==> times[i] < t
    ensures Count(times, t) == 0
    decreases |times|
  {
    if times != [] {
      NoneLater(times[..|times| - 1], t);
    }
  }

  /** The counter numbers the identifiers of its millisecond. */
  lemma {:induction false} CounterCounts(times: seq<nat>)
    requires times != [] && NeverBack(times)
    ensures After(times) == Clock(times[|times| - 1], Count(times, times[|times| - 1]))
    decreases |times|
  {
    var before, t := times[..|times| - 1], times[|times| - 1];
    if before != [] {
      CounterCounts(before);
      if before[|before| - 1] != t {
        assert forall i :: 0 <= i < |before| ==> before[i] == times[i] && times[i] <= times[|before| - 1] < t;
        NoneLater(before, t);
      }
    } else {
      assert Count(before, t) == 0;
    }
  }

  lemma {:induction false} CountGrows(times: seq<nat>, i: nat, t: nat)
    requires i <= |times|
    ensures Count(times[..i], t) <= Count(times, t)
    decreases |times|
  {
    if i < |times| {
      CountGrows(times[..|times| - 1], i, t);
      assert times[..|times| - 1][..i] == times[..i];
    } else {
      assert times[..i] == times;
    }
  }

  /** The number the k-th identifier is made from. */
  function NowAt(times: seq<nat>, k: nat): nat
    requires k < |times|
  {
    After(times[..k + 1]).Now()
  }

  /** Fewer than 4096 identifiers in any millisecond. */
  ghost predicate NeverCrowded(times: seq<nat>) {
    forall t: nat :: Count(times, t) < 0x1000
  }

  lemma NowIs(times: seq<nat>, k: nat)
    requires k < |times| && NeverBack(times) && NeverCrowded(times)
    ensures NowAt(times, k) == times[k] * 0x1000 + Count(times[..k + 1], times[k])
    ensures 0 < Count(times[..k + 1], times[k]) < 0x1000
  {
    CounterCounts(times[..k + 1]);
    CountGrows(times, k + 1, times[k]);
  }

  lemma LaterIsGreater(times: seq<nat>, i: nat, j: nat)
    requires i < j < |times| && NeverBack(times) && NeverCrowded(times)
    ensures NowAt(times, i) < NowAt(times, j)
  {
    NowIs(times, i);
    NowIs(times, j);
    if times[i] == times[j] {
      CountGrows(times[..j], i + 1, times[j]);
      assert times[..j][..i + 1] == times[..i + 1];
      assert times[..j + 1][..j] == times[..j];
    }
  }

  /**
   * While the clock does not go back, no millisecond is crowded and all times lie in one block
   * of 2^36 milliseconds: of two ascending identifiers the later sorts later, and of two
   * descending ones it sorts earlier, whatever kinds are made between them.
   */
  lemma IdentifiersInOrder(times: seq<nat>, i: nat, j: nat, r: string, s: string)
    requires i < j < |times| && NeverBack(times) && NeverCrowded(times)
    requires times[i] / 0x10_0000_0000 == times[j] / 0x10_0000_0000
    ensures Less(TimeHex(NowAt(times, i), false) + r, TimeHex(NowAt(times, j), false) + s)
    ensures Less(TimeHex(NowAt(times, j), true) + s, TimeHex(NowAt(times, i), true) + r)
  {
    NowIs(times, i);
    NowIs(times, j);
    LaterIsGreater(times, i, j);
    SameBlock(times[i], Count(times[..i + 1], times[i]));
    SameBlock(times[j], Count(times[..j + 1], times[j]));
    InOrderExactly(NowAt(times, i), NowAt(times, j), r, s);
  }

  lemma SameBlock(t: nat, c: nat)
    requires c < 0x1000
    ensures (t * 0x1000 + c) / WRAP == t / 0x10_0000_0000
  {
  }

  /** From one block to the next the order is lost. */
  lemma NextBlockSortsEarlier(block: nat, r: string, s: string)
    requires block > 0
    ensures var t := block * 0x10_0000_0000;
            !Less(TimeHex(NowAt([t - 1, t], 0), false) + r, TimeHex(NowAt([t - 1, t], 1), false) + s)
  {
    var t := block * 0x10_0000_0000;
    TwoTimes(t - 1, t);
    AtBoundary(block);
    LaterBlock((t - 1) * 0x1000 + 1, t * 0x1000 + 1, r, s);
  }

  lemma LaterBlock(m: nat, n: nat, r: string, s: string)
    requires m < n < m + WRAP && m / WRAP != n / WRAP
    ensures !Less(TimeHex(m, false) + r, TimeHex(n, false) + s)
  {
    InOrderExactly(m, n, r, s);
  }

  lemma AtBoundary(block: nat)
    requires block > 0
    ensures var t := block * 0x10_0000_0000;
            ((t - 1) * 0x1000 + 1) / WRAP == block - 1 && (t * 0x1000 + 1) / WRAP == block
  {
    var t := block * 0x10_0000_0000;
    assert t * 0x1000 == block * WRAP;
    assert (t - 1) * 0x1000 + 1 == (block - 1) * WRAP + (WRAP - 0xFFF);
  }

  lemma TwoTimes(a: nat, b: nat)
    requires 0 < a < b
    ensures NowAt([a, b], 0) == a * 0x1000 + 1 && NowAt([a, b], 1) == b * 0x1000 + 1
  {
    assert [a, b][..1] == [a] && [a, b][..2] == [a, b] && [a][..0] == [];
    assert After([a]) == Clock(a, 1);
    assert After([a, b]) == Clock(b, 1);
  }
}
