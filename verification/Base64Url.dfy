/** base64url without padding (section 5 of RFC 4648), as the gateway encodes and decodes it. */
module Base64Url {
  import opened Util

  type Byte = x: int | 0 <= x < 256 witness 0
  type Sextet = x: int | 0 <= x < 64 witness 0

  // ---- the alphabet ----

  function Digit(x: Sextet): char {
    if x < 26 then 'A' + x as char
    else if x < 52 then 'a' + (x - 26) as char
    else if x < 62 then '0' + (x - 52) as char
    else if x == 62 then '+' else '/'
  }

  /** The value EVP_DecodeBlock gives a character; '=' counts as 0. */
  function ValueOf(c: char): Option<Sextet> {
    if 'A' <= c <= 'Z' then Some(c as int - 'A' as int)
    else if 'a' <= c <= 'z' then Some(c as int - 'a' as int + 26)
    else if '0' <= c <= '9' then Some(c as int - '0' as int + 52)
    else if c == '+' then Some(62) else if c == '/' then Some(63)
    else if c == '=' then Some(0) else None
  }

  /** The url alphabet and the plain one. */
  function ToUrl(c: char): char {
    if c == '+' then '-' else if c == '/' then '_' else c
  }

  function FromUrl(c: char): char {
    if c == '-' then '+' else if c == '_' then '/' else c
  }

  lemma DigitIsRead(x: Sextet)
    ensures ValueOf(Digit(x)) == Some(x) && FromUrl(ToUrl(Digit(x))) == Digit(x) && Digit(x) != '='
  {
  }

  // ---- groups of three bytes ----

  /** A byte, or 0 past the end. */
  function ByteAt(b: seq<Byte>, i: nat): (x: nat)
    ensures x < 256
  {
    if i < |b| then b[i] else 0
  }

  function Word(b: seq<Byte>, i: nat): (v: nat)
    ensures v < 0x100_0000
  {
    ByteAt(b, i) * 0x1_0000 + ByteAt(b, i + 1) * 0x100 + ByteAt(b, i + 2)
  }

  function Sext(v: nat, k: nat): Sextet
    requires v < 0x100_0000 && k < 4
  {
    if k == 0 then v / 0x4_0000 else if k == 1 then v / 0x1000 % 64 else if k == 2 then v / 64 % 64 else v % 64
  }

  lemma SextetsMakeWord(v: nat)
    requires v < 0x100_0000
    ensures Sext(v, 0) * 0x4_0000 + Sext(v, 1) * 0x1000 + Sext(v, 2) * 64 + Sext(v, 3) == v
  {
    var a, b := v / 64, v / 0x1000;
    assert v == 64 * a + v % 64;
    assert a == 64 * b + a % 64;
    assert b == 64 * (v / 0x4_0000) + b % 64;
  }

  lemma BytesOfWord(a: nat, b: nat, c: nat)
    requires a < 256 && b < 256 && c < 256
    ensures var v := a * 0x1_0000 + b * 0x100 + c;
            v / 0x1_0000 == a && v / 0x100 % 256 == b && v % 256 == c
  {
  }

  // ---- encoding ----

  /** The four characters of a group, padded. */
  function Group(b: seq<Byte>, i: nat): (s: string)
    requires i < |b|
    ensures |s| == 4
  {
    var v := Word(b, i);
    [Digit(Sext(v, 0)), Digit(Sext(v, 1)),
     if i + 1 < |b| then Digit(Sext(v, 2)) else '=', if i + 2 < |b| then Digit(Sext(v, 3)) else '=']
  }

  /** With padding, in the plain alphabet. */
  function Padded(b: seq<Byte>, i: nat): string
    requires i <= |b| + 2
    decreases |b| + 2 - i
  {
    if i >= |b| then "" else Group(b, i) + Padded(b, i + 3)
  }

  /** Up to the first '=', in the url alphabet. */
  function Unpadded(s: string): string {
    if s == "" || s[0] == '=' then "" else [ToUrl(s[0])] + Unpadded(s[1..])
  }

  function Encode(b: seq<Byte>): string {
    Unpadded(Padded(b, 0))
  }

  /** b64url_encode */
  method B64UrlEncode(b: seq<Byte>) returns (text: string)
    ensures text == Encode(b)
  {
    var out := "";
    var i := 0;
    while i < |b|
      invariant i <= |b| + 2 && out + Padded(b, i) == Padded(b, 0)
      decreases |b| + 2 - i
    {
      var v := Word(b, i);
      var group := [Digit(Sext(v, 0)), Digit(Sext(v, 1)),
                    if i + 1 < |b| then Digit(Sext(v, 2)) else '=', if i + 2 < |b| then Digit(Sext(v, 3)) else '='];
      Regroup(out, group, Padded(b, i + 3));
      out := out + group;
      i := i + 3;
    }
    assert out + "" == out;
    text := "";
    var k := 0;
    while k < |out| && out[k] != '='
      invariant k <= |out| && text + Unpadded(out[k..]) == Unpadded(out)
    {
      assert out[k..][1..] == out[k + 1..];
      Regroup(text, [ToUrl(out[k])], Unpadded(out[k + 1..]));
      text := text + [ToUrl(out[k])];
      k := k + 1;
    }
    assert Unpadded(out[k..]) == "" && text + "" == text;
  }

  // ---- decoding ----

  /** The three bytes of four characters, if they are all of the alphabet. */
  function DecodeGroup(g: string): Option<seq<Byte>>
    requires |g| == 4
  {
    var d, e, f, h := ValueOf(g[0]), ValueOf(g[1]), ValueOf(g[2]), ValueOf(g[3]);
    if d.None? || e.None? || f.None? || h.None? then None
    else
      var v: nat := d.value as int * 0x4_0000 + e.value as int * 0x1000 + f.value as int * 64 + h.value;
      Some([v / 0x1_0000, v / 0x100 % 256, v % 256])
  }

  /** EVP_DecodeBlock: three bytes for every four characters, or nothing. */
  function DecodeBlock(s: string): Option<seq<Byte>>
    decreases |s|
  {
    if s == "" then Some([])
    else if |s| < 4 then None
    else
      var group := DecodeGroup(s[..4]);
      var rest := DecodeBlock(s[4..]);
      if group.None? || rest.None? then None else Some(group.value + rest.value)
  }

  function Plain(s: string): (p: string)
    ensures |p| == |s| && forall i :: 0 <= i < |s| ==> p[i] == FromUrl(s[i])
  {
    seq(|s|, i requires 0 <= i < |s| => FromUrl(s[i]))
  }

  function PadLength(n: nat): (k: nat)
    ensures k < 4 && (n + k) % 4 == 0
  {
    (4 - n % 4) % 4
  }

  function Equals(n: nat): (s: string)
    ensures |s| == n && forall i :: 0 <= i < n ==> s[i] == '='
  {
    seq(n, _ => '=')
  }

  const BUFFER: nat := 1024

  /** b64url_decode into a buffer of this size. */
  function Decode(s: string, capacity: nat): Option<seq<Byte>> {
    if |s| >= BUFFER - 4 then None
    else
      var pad := PadLength(|s|);
      var raw := DecodeBlock(Plain(s) + Equals(pad));
      if raw.None? then None
      else
        var actual := if |raw.value| >= pad then |raw.value| - pad else 0;
        if actual >= capacity then None else Some(raw.value[..actual])
  }

  /** b64url_decode, with its loops over the copied text. */
  method B64UrlDecode(s: string, capacity: nat) returns (bytes: Option<seq<Byte>>)
    ensures bytes == Decode(s, capacity)
  {
    if |s| >= BUFFER - 4 {
      return None;
    }
    var tmp := new char[|s|];
    for i := 0 to |s|
      invariant forall k :: 0 <= k < i ==> tmp[k] == FromUrl(s[k])
    {
      tmp[i] := if s[i] == '-' then '+' else if s[i] == '_' then '/' else s[i];
    }
    assert tmp[..] == Plain(s);
    var pad := (4 - |s| % 4) % 4;
    var text := tmp[..];
    for i := 0 to pad
      invariant text == Plain(s) + Equals(i)
    {
      text := text + "=";
      assert Equals(i) + "=" == Equals(i + 1);
    }
    var raw := DecodeBlock(text);
    if raw.None? {
      return None;
    }
    var actual := |raw.value|;
    var left: nat := pad;
    while left > 0 && actual > 0
      invariant left <= pad && actual <= |raw.value| && |raw.value| - actual == pad - left
      decreases left
    {
      actual := actual - 1;
      left := left - 1;
    }
    if actual >= capacity {
      return None;
    }
    return Some(raw.value[..actual]);
  }

  // ---- round trip ----

  lemma GroupThenRest(g: string, rest: string, bytes: seq<Byte>)
    requires |g| == 4 && DecodeGroup(g) == Some(bytes)
    ensures var more := DecodeBlock(rest);
            DecodeBlock(g + rest) == if more.None? then None else Some(bytes + more.value)
  {
    assert (g + rest)[4..] == rest && (g + rest)[..4] == g;
  }

  lemma GroupValues(b: seq<Byte>, i: nat)
    requires i < |b|
    ensures var g, v := Group(b, i), Word(b, i);
            ValueOf(g[0]) == Some(Sext(v, 0)) && ValueOf(g[1]) == Some(Sext(v, 1))
            && ValueOf(g[2]) == Some(Sext(v, 2)) && ValueOf(g[3]) == Some(Sext(v, 3))
  {
    var v := Word(b, i);
    DigitIsRead(Sext(v, 0));
    DigitIsRead(Sext(v, 1));
    DigitIsRead(Sext(v, 2));
    DigitIsRead(Sext(v, 3));
    TailSextets(ByteAt(b, i), ByteAt(b, i + 1), ByteAt(b, i + 2));
  }

  /** A group as it is decoded: its bytes, with zeros past the end. */
  lemma GroupIsDecoded(b: seq<Byte>, i: nat, rest: string)
    requires i < |b|
    ensures var more := DecodeBlock(rest);
            DecodeBlock(Group(b, i) + rest) ==
            if more.None? then None else Some([ByteAt(b, i), ByteAt(b, i + 1), ByteAt(b, i + 2)] + more.value)
  {
    var v := Word(b, i);
    GroupValues(b, i);
    SextetsMakeWord(v);
    BytesOfWord(ByteAt(b, i), ByteAt(b, i + 1), ByteAt(b, i + 2));
    GroupThenRest(Group(b, i), rest, [ByteAt(b, i), ByteAt(b, i + 1), ByteAt(b, i + 2)]);
  }

  // What '=' stands for is zero.
  lemma TailSextets(x: nat, y: nat, z: nat)
    requires x < 256 && y < 256 && z < 256
    ensures y == z == 0 ==> Sext(x * 0x1_0000 + y * 0x100 + z, 2) == 0
    ensures z == 0 ==> Sext(x * 0x1_0000 + y * 0x100 + z, 3) == 0
  {
    var v := x * 0x1_0000 + y * 0x100 + z;
    if z == 0 {
      assert v == 64 * (x * 1024 + y * 4);
      assert v / 64 == x * 1024 + y * 4;
    }
  }

  function Zeros(n: nat): (z: seq<Byte>)
    ensures |z| == n
  {
    seq(n, _ => 0)
  }

  /** How many characters of padding the encoding of n bytes has. */
  function Missing(n: nat): nat {
    (3 - n % 3) % 3
  }

  lemma {:induction false} PaddedIsDecoded(b: seq<Byte>, i: nat)
    requires i <= |b| && i % 3 == 0
    ensures DecodeBlock(Padded(b, i)) == Some(b[i..] + Zeros(Missing(|b|)))
    decreases |b| - i
  {
    if i == |b| {
      assert b[i..] + Zeros(Missing(|b|)) == [];
    } else if i + 3 <= |b| {
      PaddedIsDecoded(b, i + 3);
      GroupIsDecoded(b, i, Padded(b, i + 3));
      assert b[i..] == [b[i], b[i + 1], b[i + 2]] + b[i + 3..];
      Regroup([b[i], b[i + 1], b[i + 2]], b[i + 3..], Zeros(Missing(|b|)));
    } else {
      GroupIsDecoded(b, i, "");
      assert Group(b, i) + "" == Group(b, i) && Padded(b, i + 3) == "";
      LastGroup(b, i);
    }
  }

  lemma LastGroup(b: seq<Byte>, i: nat)
    requires i < |b| < i + 3 && i % 3 == 0
    ensures Missing(|b|) == i + 3 - |b|
    ensures [ByteAt(b, i), ByteAt(b, i + 1), ByteAt(b, i + 2)] + [] == b[i..] + Zeros(Missing(|b|))
  {
  }

  /** Whole groups, padded at the end with `missing` characters and nowhere else. */
  predicate IsPadded(s: string, missing: nat) {
    && |s| % 4 == 0 && missing <= |s|
    && (forall k :: 0 <= k < |s| - missing ==> s[k] != '=' && s[k] != '.' && FromUrl(ToUrl(s[k])) == s[k])
    && (forall k :: |s| - missing <= k < |s| ==> s[k] == '=')
  }

  lemma PaddedJoin(g: string, rest: string, missing: nat)
    requires IsPadded(g, 0) && IsPadded(rest, missing)
    ensures IsPadded(g + rest, missing)
  {
  }

  lemma GroupIsPadded(b: seq<Byte>, i: nat)
    requires i < |b|
    ensures IsPadded(Group(b, i), if i + 3 <= |b| then 0 else i + 3 - |b|)
  {
    var v := Word(b, i);
    DigitIsRead(Sext(v, 0));
    DigitIsRead(Sext(v, 1));
    DigitIsRead(Sext(v, 2));
    DigitIsRead(Sext(v, 3));
  }

  lemma {:induction false} PaddedIsPadded(b: seq<Byte>, i: nat)
    requires i <= |b| && i % 3 == 0
    ensures IsPadded(Padded(b, i), Missing(|b|))
    decreases |b| - i
  {
    if i < |b| {
      GroupIsPadded(b, i);
      if i + 3 <= |b| {
        PaddedIsPadded(b, i + 3);
        PaddedJoin(Group(b, i), Padded(b, i + 3), Missing(|b|));
      } else {
        assert Padded(b, i + 3) == "" && Group(b, i) + "" == Group(b, i);
        LastGroup(b, i);
      }
    } else {
      assert Missing(|b|) == 0;
    }
  }

  lemma {:induction false} PaddedLength(b: seq<Byte>, i: nat)
    requires i <= |b| && i % 3 == 0
    ensures 3 * |Padded(b, i)| == 4 * (|b| - i + Missing(|b|))
    decreases |b| - i
  {
    if i == |b| {
      assert Missing(|b|) == 0;
    } else if i + 3 <= |b| {
      PaddedLength(b, i + 3);
    } else {
      assert Padded(b, i + 3) == "";
      LastGroup(b, i);
    }
  }

  lemma {:induction false} UnpaddedIs(s: string, n: nat)
    requires n <= |s| && (forall k :: 0 <= k < n ==> s[k] != '=') && (n < |s| ==> s[n] == '=')
    ensures |Unpadded(s)| == n && forall k :: 0 <= k < n ==> Unpadded(s)[k] == ToUrl(s[k])
    decreases |s|
  {
    if n > 0 {
      UnpaddedIs(s[1..], n - 1);
    }
  }

  lemma UnpaddedComesBack(s: string, missing: nat)
    requires IsPadded(s, missing)
    ensures |Unpadded(s)| == |s| - missing && '.' !in Unpadded(s)
    ensures Plain(Unpadded(s)) + Equals(missing) == s
  {
    UnpaddedIs(s, |s| - missing);
    assert forall k :: 0 <= k < |s| - missing ==> Plain(Unpadded(s))[k] == s[k];
  }

  /** Decoding what was encoded gives it back, when it fits the buffers. */
  lemma RoundTrip(b: seq<Byte>, capacity: nat)
    requires |Encode(b)| < BUFFER - 4 && |b| < capacity
    ensures Decode(Encode(b), capacity) == Some(b)
  {
    var missing := Missing(|b|);
    PaddedIsPadded(b, 0);
    UnpaddedComesBack(Padded(b, 0), missing);
    PaddedIsDecoded(b, 0);
    assert b[0..] == b;
    PadIsMissing(|Padded(b, 0)|, missing);
    DecodedFrom(Encode(b), b, missing, capacity);
  }

  lemma PadIsMissing(total: nat, missing: nat)
    requires total % 4 == 0 && missing < 3 && missing <= total
    ensures PadLength(total - missing) == missing
  {
  }

  lemma DecodedFrom(text: string, b: seq<Byte>, missing: nat, capacity: nat)
    requires |text| < BUFFER - 4 && PadLength(|text|) == missing && |b| < capacity
    requires DecodeBlock(Plain(text) + Equals(missing)) == Some(b + Zeros(missing))
    ensures Decode(text, capacity) == Some(b)
  {
    assert (b + Zeros(missing))[..|b|] == b;
  }

  /** The encoding has no dot, and a third more characters than bytes. */
  lemma EncodingShape(b: seq<Byte>)
    ensures '.' !in Encode(b) && 3 * |Encode(b)| == 4 * |b| + Missing(|b|)
  {
    PaddedIsPadded(b, 0);
    PaddedLength(b, 0);
    UnpaddedComesBack(Padded(b, 0), Missing(|b|));
  }
}
