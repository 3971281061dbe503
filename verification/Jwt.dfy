/** The gateway's login tokens (daemon/opencode-gateway.c): signing and verifying. */
module Jwt {
  import opened Util
  import opened Decimal
  import opened Base64Url
  import CText

  // ---- C strings and bytes ----

  predicate IsText(s: string) {
    forall i :: 0 <= i < |s| ==> 0 < s[i] as int < 256
  }

  function ToBytes(s: string): (b: seq<Byte>)
    requires IsText(s)
    ensures |b| == |s| && forall i :: 0 <= i < |s| ==> b[i] == s[i] as int
  {
    seq(|s|, i requires 0 <= i < |s| => s[i] as int)
  }

  /** The bytes as a C string: up to the first zero. */
  function ToText(b: seq<Byte>): string {
    if b == [] || b[0] == 0 then "" else [b[0] as char] + ToText(b[1..])
  }

  lemma {:induction false} BytesAndBack(s: string)
    requires IsText(s)
    ensures ToText(ToBytes(s)) == s
    decreases |s|
  {
    if s != "" {
      BytesAndBack(s[1..]);
      assert ToBytes(s)[1..] == ToBytes(s[1..]);
    }
  }

  // ---- searching ----

  /** strstr: what follows the first occurrence. */
  function AfterFirst(s: string, p: string): Option<string> {
    if StartsWith(s, p) then Some(s[|p|..]) else if s == "" then None else AfterFirst(s[1..], p)
  }

  /** strchr: the parts before and after the first occurrence. */
  function CutAt(s: string, c: char): Option<(string, string)> {
    if s == "" then None
    else if s[0] == c then Some(("", s[1..]))
    else
      var r := CutAt(s[1..], c);
      if r.None? then None else Some(([s[0]] + r.value.0, r.value.1))
  }

  function SkipBlanks(s: string): string {
    if s != "" && (s[0] == ' ' || s[0] == '\t' || s[0] == '\n' || s[0] == '\r') then SkipBlanks(s[1..]) else s
  }

  function Pattern(key: string): string {
    "\"" + key + "\":"
  }

  /** json_extract_string into a buffer of this size. */
  function JsonString(json: string, key: string, size: nat): Option<string> {
    var found := AfterFirst(json, Pattern(key));
    if found.None? then None
    else
      var start := SkipBlanks(found.value);
      if start == "" || start[0] != '"' then None
      else
        var r := CutAt(start[1..], '"');
        if r.None? || r.value.0 == "" || |r.value.0| >= size then None else Some(r.value.0)
  }

  const LONG: int := 0x8000_0000_0000_0000

  /** json_extract_long: strtol, which takes white space, a sign and digits. */
  function JsonLong(json: string, key: string): Option<int> {
    var found := AfterFirst(json, Pattern(key));
    if found.None? then None
    else
      var n := CText.ScanInt(SkipBlanks(found.value));
      if n.None? || !(-LONG <= n.value.0 < LONG) then None else Some(n.value.0)
  }

  // ---- tokens ----

  /** The payload send_login_success_ex writes. */
  function Payload(name: string, exp: int): string {
    "{" + (Pattern("sub") + ("\"" + (name + ("\"," + (Pattern("exp") + (CText.PrintInt(exp) + "}"))))))
  }

  /** jwt_sign, the key's HMAC being `hmac`; the header is a constant without a dot. */
  function Sign(header: string, payload: string, hmac: string -> seq<Byte>): string
    requires IsText(payload)
  {
    var msg := header + ("." + Encode(ToBytes(payload)));
    msg + ("." + Encode(hmac(msg)))
  }

  datatype Session = Session(name: string, uid: nat, exp: int)

  /** The three parts of a token. */
  datatype Parts = Parts(header: string, payload: string, signature: string)

  function Split(token: string): Option<Parts> {
    var a := CutAt(CutOff(token), '.');
    if a.None? then None
    else
      var b := CutAt(a.value.1, '.');
      if b.None? then None else Some(Parts(a.value.0, b.value.0, b.value.1))
  }

  /** What strncpy copies. */
  function CutOff(token: string): string {
    if |token| < 1024 then token else token[..1023]
  }

  /** The claims of a decoded payload, if the token is still valid and the user exists. */
  function Claims(json: string, now: int, users: string -> Option<nat>): Option<Session> {
    var name := JsonString(json, "sub", 64);
    if name.None? then None
    else
      var exp := JsonLong(json, "exp");
      if exp.None? || exp.value <= now || users(name.value).None? then None
      else Some(Session(name.value, users(name.value).value, exp.value))
  }

  /** jwt_verify_ex at time `now`; `users` stands for getpwnam. */
  function Verify(token: string, hmac: string -> seq<Byte>, now: int, users: string -> Option<nat>): Option<Session> {
    var p := Split(token);
    if p.None? || |p.value.header| + 1 + |p.value.payload| >= 1024 then None
    else
      var msg := p.value.header + ("." + p.value.payload);
      if Encode(hmac(msg)) != p.value.signature then None
      else
        var raw := Decode(p.value.payload, 512);
        if raw.None? then None else Claims(ToText(raw.value), now, users)
  }

  method JwtSign(header: string, payload: string, hmac: string -> seq<Byte>) returns (token: string)
    requires IsText(payload)
    ensures token == Sign(header, payload, hmac)
  {
    var pay64 := B64UrlEncode(ToBytes(payload));
    var msg := header + ("." + pay64);
    var sig64 := B64UrlEncode(hmac(msg));
    token := msg + ("." + sig64);
  }

  method JwtVerify(token: string, hmac: string -> seq<Byte>, now: int, users: string -> Option<nat>) returns (session: Option<Session>)
    ensures session == Verify(token, hmac, now, users)
  {
    var p := Split(token);
    if p.None? || |p.value.header| + 1 + |p.value.payload| >= 1024 {
      return None;
    }
    var sig64 := B64UrlEncode(hmac(p.value.header + ("." + p.value.payload)));
    if sig64 != p.value.signature {
      return None;
    }
    var raw := B64UrlDecode(p.value.payload, 512);
    if raw.None? {
      return None;
    }
    return Claims(ToText(raw.value), now, users);
  }

  // ---- finding the claims ----

  lemma {:induction false} CutAtFound(a: string, c: char, b: string)
    requires c !in a
    ensures CutAt(a + ([c] + b), c) == Some((a, b))
    decreases |a|
  {
    var s := a + ([c] + b);
    if a == "" {
      assert s == [c] + b;
    } else {
      CutAtFound(a[1..], c, b);
      assert s[1..] == a[1..] + ([c] + b);
      assert [a[0]] + a[1..] == a;
    }
  }

  lemma FoundHere(p: string, rest: string)
    ensures AfterFirst(p + rest, p) == Some(rest)
  {
    assert (p + rest)[..|p|] == p && (p + rest)[|p|..] == rest;
  }

  lemma {:induction false} FoundLater(u: string, v: string, p: string)
    requires forall i :: 0 <= i < |u| ==> !StartsWith(u[i..] + v, p)
    ensures AfterFirst(u + v, p) == AfterFirst(v, p)
    decreases |u|
  {
    if u == "" {
      assert u + v == v;
    } else {
      assert u[0..] == u;
      assert !StartsWith(u[0..] + v, p);
      assert (u + v)[1..] == u[1..] + v;
      forall i | 0 <= i < |u[1..]|
        ensures !StartsWith(u[1..][i..] + v, p)
      {
        assert u[1..][i..] == u[i + 1..];
        assert !StartsWith(u[i + 1..] + v, p);
      }
      FoundLater(u[1..], v, p);
    }
  }

  lemma NameIsFound(name: string, exp: int)
    requires name != "" && '"' !in name && |name| < 64
    ensures JsonString(Payload(name, exp), "sub", 64) == Some(name)
  {
    var tail := "," + (Pattern("exp") + (CText.PrintInt(exp) + "}"));
    var quoted := "\"" + (name + ("\"" + tail));
    var p := Pattern("sub");
    assert "\"," + (Pattern("exp") + (CText.PrintInt(exp) + "}")) == "\"" + tail;
    assert Payload(name, exp) == "{" + (p + quoted);
    assert !StartsWith("{" + (p + quoted), p) by {
      assert p[0] == '"';
    }
    assert ("{" + (p + quoted))[1..] == p + quoted;
    FoundHere(p, quoted);
    assert SkipBlanks(quoted) == quoted && quoted[1..] == name + ("\"" + tail);
    CutAtFound(name, '"', tail);
    assert ['"'] + tail == "\"" + tail;
  }

  /** The part of a payload before its exp claim. */
  function BeforeExp(name: string): string {
    "{" + Pattern("sub") + "\"" + name + "\","
  }

  // No position before the exp claim begins its pattern.
  lemma ExpNotBefore(name: string, v: string, i: nat)
    requires '"' !in name && i < |BeforeExp(name)|
    ensures !StartsWith(BeforeExp(name)[i..] + v, Pattern("exp"))
  {
    var u, p, n := BeforeExp(name), Pattern("exp"), |name|;
    var t := u[i..] + v;
    assert |u| == n + 10;
    assert u[0] == '{' && u[1] == '"' && u[2] == 's' && u[5] == '"' && u[6] == ':' && u[7] == '"';
    assert u[8 + n] == '"' && u[9 + n] == ',';
    assert forall k :: 0 <= k < n ==> u[8 + k] == name[k];
    assert forall k :: i <= k < |u| ==> t[k - i] == u[k];
    PatternChars(t, p);
    if i == 7 {
      assert t[1] == u[8] && (n >= 1 ==> t[2] == u[9]) && (n >= 2 ==> t[3] == u[10]) && (n >= 3 ==> t[4] == u[11] && t[5] == u[12]);
    }
  }

  lemma PatternChars(t: string, p: string)
    requires p == Pattern("exp")
    ensures StartsWith(t, p) ==> |t| >= 6 && t[0] == '"' && t[1] == 'e' && t[2] == 'x' && t[3] == 'p' && t[4] == '"' && t[5] == ':'
  {
    assert |p| == 6;
    assert |t| >= 6 ==> forall k :: 0 <= k < 6 ==> t[k] == t[..6][k];
  }

  lemma ExpPosition(name: string, v: string)
    requires '"' !in name
    ensures AfterFirst(BeforeExp(name) + v, Pattern("exp")) == AfterFirst(v, Pattern("exp"))
  {
    forall i | 0 <= i < |BeforeExp(name)|
      ensures !StartsWith(BeforeExp(name)[i..] + v, Pattern("exp"))
    {
      ExpNotBefore(name, v, i);
    }
    FoundLater(BeforeExp(name), v, Pattern("exp"));
  }

  lemma LongIsRead(json: string, key: string, exp: int)
    requires AfterFirst(json, Pattern(key)) == Some(CText.PrintInt(exp) + "}") && -LONG <= exp < LONG
    ensures JsonLong(json, key) == Some(exp)
  {
    var number := CText.PrintInt(exp) + "}";
    CText.PrintIntStarts(exp);
    assert number[0] == CText.PrintInt(exp)[0];
    assert SkipBlanks(number) == number;
    CText.SkipOne(number);
    CText.ScanPrintedSigned(exp, "}");
  }

  lemma PayloadIs(name: string, exp: int)
    ensures Payload(name, exp) == BeforeExp(name) + (Pattern("exp") + (CText.PrintInt(exp) + "}"))
  {
  }

  lemma ExpIsFound(name: string, exp: int)
    requires '"' !in name && -LONG <= exp < LONG
    ensures JsonLong(Payload(name, exp), "exp") == Some(exp)
  {
    var number := CText.PrintInt(exp) + "}";
    PayloadIs(name, exp);
    ExpPosition(name, Pattern("exp") + number);
    FoundHere(Pattern("exp"), number);
    LongIsRead(Payload(name, exp), "exp", exp);
  }

  // ---- main results ----

  function Tens(k: nat): nat {
    if k == 0 then 1 else 10 * Tens(k - 1)
  }

  lemma {:induction false} DigitsNeeded(n: nat, k: nat)
    requires n < Tens(k) && k > 0
    ensures |Print(n)| <= k
    decreases k
  {
    if n >= 10 {
      assert Tens(k) == 10 * Tens(k - 1);
      DigitsNeeded(n / 10, k - 1);
    }
  }

  // Every payload fits the buffers.
  lemma PayloadFits(name: string, exp: int)
    requires |name| < 64 && -LONG <= exp < LONG
    ensures |Payload(name, exp)| <= 100
  {
    assert Tens(5) == 100000;
    assert Tens(10) == 100000 * Tens(5);
    assert Tens(15) == 100000 * Tens(10);
    assert Tens(19) == 10000 * Tens(15);
    DigitsNeeded(if exp < 0 then -exp else exp, 19);
  }

  lemma TokenSplits(header: string, pay: string, sig: string)
    requires '.' !in header && '.' !in pay && |header| + |pay| + |sig| + 2 < 1024
    ensures Split(header + ("." + pay) + ("." + sig)) == Some(Parts(header, pay, sig))
  {
    var rest := pay + ("." + sig);
    assert header + ("." + pay) + ("." + sig) == header + (['.'] + rest);
    CutAtFound(header, '.', rest);
    assert rest == pay + (['.'] + sig);
    CutAtFound(pay, '.', sig);
  }

  /**
   * A token signed for a user is accepted exactly until it expires and while the user exists,
   * and gives back the same user and expiry.
   */
  lemma SignedIsAccepted(header: string, name: string, exp: int, hmac: string -> seq<Byte>, now: int, users: string -> Option<nat>)
    requires IsText(Payload(name, exp)) && name != "" && '"' !in name && |name| < 64 && -LONG <= exp < LONG
    requires '.' !in header && |header| == 36 && forall m :: |hmac(m)| == 32
    ensures Verify(Sign(header, Payload(name, exp), hmac), hmac, now, users)
            == if exp > now && users(name).Some? then Some(Session(name, users(name).value, exp)) else None
  {
    var b := ToBytes(Payload(name, exp));
    var pay := Encode(b);
    var msg := header + ("." + pay);
    PayloadFits(name, exp);
    EncodingShape(b);
    EncodingShape(hmac(msg));
    TokenSplits(header, pay, Encode(hmac(msg)));
    RoundTrip(b, 512);
    BytesAndBack(Payload(name, exp));
    NameIsFound(name, exp);
    ExpIsFound(name, exp);
  }

  lemma {:induction false} CutAtMeans(s: string, c: char)
    ensures CutAt(s, c).Some? ==> s == CutAt(s, c).value.0 + ([c] + CutAt(s, c).value.1) && c !in CutAt(s, c).value.0
    decreases |s|
  {
    if s != "" && s[0] != c {
      CutAtMeans(s[1..], c);
    }
  }

  /** No token is accepted but one carrying the key's own signature of all that is before it. */
  lemma AcceptedIsSigned(token: string, hmac: string -> seq<Byte>, now: int, users: string -> Option<nat>) returns (msg: string)
    requires Verify(token, hmac, now, users).Some?
    ensures CutOff(token) == msg + ("." + Encode(hmac(msg)))
    ensures Verify(token, hmac, now, users).value.exp > now
  {
    var buf := CutOff(token);
    var p := Split(token).value;
    CutAtMeans(buf, '.');
    CutAtMeans(CutAt(buf, '.').value.1, '.');
    msg := p.header + ("." + p.payload);
    assert buf == p.header + (['.'] + (p.payload + (['.'] + p.signature)));
    assert buf == msg + ("." + p.signature);
  }
}
