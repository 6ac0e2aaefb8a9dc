/**
 * The signed QR text `emg1.<body>.<signature>`: base64url without padding, as section 5 of
 * RFC 4648 has it, around a JSON payload and a keyed hash.
 */
module QrPayload {
  import opened Prelude

  type Byte = b: int | 0 <= b < 256

  /** Organisation, group, join token, and expiry. */
  datatype Payload = Payload(o: string, g: string, t: string, e: Option<string>)

  /** What parsing the body can give: an error, something without a token string, or a payload. */
  datatype Json = Malformed | NoToken | Parsed(p: Payload)

  /**
   * The foreign calls: JSON text to bytes and back, the keyed hash, and what the platform makes of
   * base64 text that is not well formed.
   */
  datatype Env = Env(
    toBytes: Payload -> seq<Byte>, fromBytes: seq<Byte> -> Json,
    hmac: (string, string) -> seq<Byte>, lenient: string -> seq<Byte>)

  // ----- base64 -----

  function Char64(n: int): char
    requires 0 <= n < 64
  {
    if n < 26 then 'A' + n as char
    else if n < 52 then 'a' + (n - 26) as char
    else if n < 62 then '0' + (n - 52) as char
    else if n == 62 then '+' else '/'
  }

  function Value64(c: char): (n: int)
    ensures -1 <= n < 64
  {
    if 'A' <= c <= 'Z' then c as int - 'A' as int
    else if 'a' <= c <= 'z' then c as int - 'a' as int + 26
    else if '0' <= c <= '9' then c as int - '0' as int + 52
    else if c == '+' then 62 else if c == '/' then 63 else -1
  }

  lemma Value64OfChar64(n: int)
    requires 0 <= n < 64
    ensures Value64(Char64(n)) == n && Char64(n) != '=' && Char64(n) != '.' && Char64(n) != '-' && Char64(n) != '_'
  {
  }

  /** The unpadded text of a group of one, two or three bytes. */
  function Group(b: seq<Byte>): string
    requires 1 <= |b| <= 3
  {
    if |b| == 1 then [Char64(b[0] / 4), Char64(b[0] % 4 * 16)]
    else if |b| == 2 then [Char64(b[0] / 4), Char64(b[0] % 4 * 16 + b[1] / 16), Char64(b[1] % 16 * 4)]
    else [Char64(b[0] / 4), Char64(b[0] % 4 * 16 + b[1] / 16), Char64(b[1] % 16 * 4 + b[2] / 64), Char64(b[2] % 64)]
  }

  /** `toString('base64')`: groups of three bytes, the last padded to four characters. */
  function Base64(b: seq<Byte>): string {
    if b == [] then ""
    else if |b| == 1 then Group(b) + "=="
    else if |b| == 2 then Group(b) + "="
    else Group(b[..3]) + Base64(b[3..])
  }

  predicate WellFormed(s: string) {
    s == "" || (|s| >= 4 && GroupOk(s[..4], |s| == 4) && WellFormed(s[4..]))
  }

  /** Four characters of the alphabet; the last group may end in one or two pads. */
  predicate GroupOk(g: string, last: bool)
    requires |g| == 4
  {
    && Value64(g[0]) >= 0 && Value64(g[1]) >= 0
    && (Value64(g[2]) >= 0 || (last && g[2] == '=' && g[3] == '='))
    && (Value64(g[3]) >= 0 || (last && g[3] == '='))
  }

  function DecodeGroup(g: string): seq<Byte>
    requires |g| == 4 && GroupOk(g, true)
  {
    var a, b := Value64(g[0]), Value64(g[1]);
    if g[2] == '=' then [a * 4 + b / 16]
    else
      var c := Value64(g[2]);
      if g[3] == '=' then [a * 4 + b / 16, b % 16 * 16 + c / 4]
      else [a * 4 + b / 16, b % 16 * 16 + c / 4, c % 4 * 64 + Value64(g[3])]
  }

  function DecodeStrict(s: string): seq<Byte>
    requires WellFormed(s)
  {
    if s == "" then [] else DecodeGroup(s[..4]) + DecodeStrict(s[4..])
  }

  /** `Buffer.from(s, 'base64')`. */
  function DecodeBase64(s: string, env: Env): seq<Byte> {
    if WellFormed(s) then DecodeStrict(s) else env.lenient(s)
  }

  // ----- base64url without padding -----

  function Replace(s: string, f: char -> char): (r: string)
    ensures |r| == |s| && forall i :: 0 <= i < |s| ==> r[i] == f(s[i])
  {
    seq(|s|, i requires 0 <= i < |s| => f(s[i]))
  }

  function ToUrl(c: char): char { if c == '+' then '-' else if c == '/' then '_' else c }

  function FromUrl(c: char): char { if c == '-' then '+' else if c == '_' then '/' else c }

  function StripPad(s: string): string {
    if s != "" && s[|s| - 1] == '=' then StripPad(s[..|s| - 1]) else s
  }

  function B64Url(b: seq<Byte>): string {
    StripPad(Replace(Base64(b), ToUrl))
  }

  function Pad(n: nat): string {
    if n % 4 == 0 then "" else if n % 4 == 1 then "===" else if n % 4 == 2 then "==" else "="
  }

  function B64UrlDecode(s: string, env: Env): seq<Byte> {
    DecodeBase64(Replace(s, FromUrl) + Pad(|s|), env)
  }

  predicate Alphabet(s: string) {
    forall i :: 0 <= i < |s| ==> Value64(s[i]) >= 0
  }

  lemma GroupAlphabet(b: seq<Byte>)
    requires 1 <= |b| <= 3
    ensures Alphabet(Group(b)) && |Group(b)| == |b| + 1
  {
    Value64OfChar64(b[0] / 4);
    Value64OfChar64(b[0] % 4 * 16);
    if |b| >= 2 {
      Value64OfChar64(b[0] % 4 * 16 + b[1] / 16);
      Value64OfChar64(b[1] % 16 * 4);
    }
    if |b| == 3 {
      Value64OfChar64(b[1] % 16 * 4 + b[2] / 64);
      Value64OfChar64(b[2] % 64);
    }
  }

  lemma GroupDecodes(b: seq<Byte>)
    requires 1 <= |b| <= 3
    ensures var g := Group(b) + Pad(|Group(b)|);
            |g| == 4 && GroupOk(g, true) && (|b| == 3 ==> GroupOk(g, false)) && DecodeGroup(g) == b
  {
    GroupAlphabet(b);
    Value64OfChar64(b[0] / 4);
    if |b| == 1 {
      Value64OfChar64(b[0] % 4 * 16);
    } else {
      Value64OfChar64(b[0] % 4 * 16 + b[1] / 16);
      if |b| == 2 {
        Value64OfChar64(b[1] % 16 * 4);
      } else {
        Value64OfChar64(b[1] % 16 * 4 + b[2] / 64);
        Value64OfChar64(b[2] % 64);
      }
    }
  }

  /** Strict decoding undoes the encoder, for every byte length. */
  lemma {:induction false} Base64RoundTrip(b: seq<Byte>)
    ensures WellFormed(Base64(b)) && DecodeStrict(Base64(b)) == b
  {
    if b == [] {
    } else if |b| <= 3 {
      GroupDecodes(b);
      ShortIsUnpaddedAndPad(b);
      var s := Group(b) + Pad(|Group(b)|);
      assert Base64(b) == s && s[..4] == s && s[4..] == "";
    } else {
      GroupDecodes(b[..3]);
      Base64RoundTrip(b[3..]);
      var g := Group(b[..3]);
      assert Group(b[..3]) + Pad(|g|) == g;
      assert Base64(b)[..4] == g && Base64(b)[4..] == Base64(b[3..]);
      assert b == b[..3] + b[3..];
    }
  }

  /** The text without its padding. */
  function Unpadded(b: seq<Byte>): string {
    if b == [] then "" else if |b| <= 3 then Group(b) else Group(b[..3]) + Unpadded(b[3..])
  }

  lemma {:induction false} UnpaddedAlphabet(b: seq<Byte>)
    ensures Alphabet(Unpadded(b))
  {
    if b != [] {
      GroupAlphabet(if |b| <= 3 then b else b[..3]);
      if |b| > 3 {
        UnpaddedAlphabet(b[3..]);
        var g, u := Group(b[..3]), Unpadded(b[3..]);
        assert forall i :: 0 <= i < |g + u| ==> (g + u)[i] == if i < |g| then g[i] else u[i - |g|];
      }
    }
  }

  lemma PadAfter(g: string, u: string)
    requires |g| == 4
    ensures g + (u + Pad(|u|)) == (g + u) + Pad(|g + u|)
  {
    assert |g + u| % 4 == |u| % 4;
    assert g + (u + Pad(|u|)) == (g + u) + Pad(|u|);
  }

  lemma ShortIsUnpaddedAndPad(b: seq<Byte>)
    requires 1 <= |b| <= 3
    ensures Base64(b) == Group(b) + Pad(|Group(b)|)
  {
    GroupAlphabet(b);
    if |b| == 3 {
      assert b[..3] == b && b[3..] == [];
      assert Base64(b) == Group(b) + "";
    }
  }

  lemma {:induction false} Base64IsUnpaddedAndPad(b: seq<Byte>)
    ensures Base64(b) == Unpadded(b) + Pad(|Unpadded(b)|)
  {
    if b == [] {
    } else if |b| <= 3 {
      ShortIsUnpaddedAndPad(b);
    } else {
      GroupAlphabet(b[..3]);
      Base64IsUnpaddedAndPad(b[3..]);
      PadAfter(Group(b[..3]), Unpadded(b[3..]));
    }
  }

  lemma StripOne(u: string)
    ensures StripPad(u + "=") == StripPad(u)
  {
    assert (u + "=")[..|u|] == u;
  }

  lemma StripPadOfPadded(u: string, n: nat)
    requires u == "" || u[|u| - 1] != '='
    ensures StripPad(u + Pad(n)) == u
  {
    if n % 4 == 0 {
      assert u + "" == u;
    } else if n % 4 == 3 {
      StripOne(u);
    } else {
      StripOne(u);
      StripOne(u + "=");
      assert (u + "=") + "=" == u + "==";
      if n % 4 == 1 {
        StripOne(u + "==");
        assert (u + "==") + "=" == u + "===";
      }
    }
  }

  lemma ReplacePadded(u: string, n: nat)
    ensures Replace(u + Pad(n), ToUrl) == Replace(u, ToUrl) + Pad(n)
  {
  }

  /** Encoding is the unpadded text in the URL alphabet; it never contains a dot. */
  lemma B64UrlText(b: seq<Byte>)
    ensures B64Url(b) == Replace(Unpadded(b), ToUrl)
    ensures '.' !in B64Url(b)
  {
    Base64IsUnpaddedAndPad(b);
    UnpaddedAlphabet(b);
    var u := Unpadded(b);
    ReplacePadded(u, |u|);
    StripPadOfPadded(Replace(u, ToUrl), |u|);
  }

  /** Re-padding undoes the stripping: every byte string survives, whatever its length. */
  lemma B64UrlRoundTrip(b: seq<Byte>, env: Env)
    ensures B64UrlDecode(B64Url(b), env) == b
  {
    B64UrlText(b);
    Base64IsUnpaddedAndPad(b);
    UnpaddedAlphabet(b);
    Base64RoundTrip(b);
    var u := Unpadded(b);
    assert Replace(Replace(u, ToUrl), FromUrl) == u;
  }

  // ----- the text, by the standard's own description -----

  /** The six bits a character of the URL alphabet stands for: letters, digits, dash, underscore, and no other. */
  function UrlDigit(c: char): Option<int> {
    if 'A' <= c <= 'Z' then Some(c as int - 'A' as int)
    else if 'a' <= c <= 'z' then Some(26 + c as int - 'a' as int)
    else if '0' <= c <= '9' then Some(52 + c as int - '0' as int)
    else if c == '-' then Some(62) else if c == '_' then Some(63) else None
  }

  /** Byte `k`; zero bits follow the last byte. */
  function ByteAt(b: seq<Byte>, k: nat): int {
    if k < |b| then b[k] else 0
  }

  /** The `i`-th six bits of the bytes: three bytes make a number of 24 bits, cut into four digits. */
  function SixBits(b: seq<Byte>, i: nat): (n: int)
    ensures 0 <= n < 64
  {
    var k := i / 4 * 3;
    var n := 65536 * ByteAt(b, k) + 256 * ByteAt(b, k + 1) + ByteAt(b, k + 2);
    if i % 4 == 0 then n / 262144 else if i % 4 == 1 then n / 4096 % 64 else if i % 4 == 2 then n / 64 % 64 else n % 64
  }

  lemma UrlCharIs(n: int)
    requires 0 <= n < 64
    ensures UrlDigit(ToUrl(Char64(n))) == Some(n)
  {
  }

  lemma Cut24(x: Byte, y: Byte, z: Byte)
    ensures var n := 65536 * x + 256 * y + z;
            && n / 262144 == x / 4 && n / 4096 % 64 == x % 4 * 16 + y / 16
            && n / 64 % 64 == y % 16 * 4 + z / 64 && n % 64 == z % 64
  {
    var n := 65536 * x + 256 * y + z;
    assert n / 4096 == 16 * x + y / 16;
    assert n / 64 == 1024 * x + 4 * y + z / 64;
  }

  lemma GroupBits(b: seq<Byte>, i: nat)
    requires 1 <= |b| <= 3 && i <= |b|
    ensures |Group(b)| == |b| + 1 && Group(b)[i] == Char64(SixBits(b, i))
  {
    Cut24(b[0], if |b| > 1 then b[1] else 0, if |b| > 2 then b[2] else 0);
    assert i / 4 == 0 && i % 4 == i;
  }

  lemma LaterBits(b: seq<Byte>, i: nat)
    requires |b| >= 3 && i >= 4
    ensures SixBits(b, i) == SixBits(b[3..], i - 4)
  {
    assert (i - 4) / 4 * 3 == i / 4 * 3 - 3;
  }

  lemma FirstBits(b: seq<Byte>, i: nat)
    requires |b| >= 3 && i < 4
    ensures SixBits(b, i) == SixBits(b[..3], i)
  {
  }

  lemma {:induction false} UnpaddedBits(b: seq<Byte>, i: nat)
    ensures |Unpadded(b)| == (4 * |b| + 2) / 3
    ensures i < |Unpadded(b)| ==> Unpadded(b)[i] == Char64(SixBits(b, i))
  {
    if b == [] {
    } else if |b| <= 3 {
      GroupAlphabet(b);
      if i <= |b| { GroupBits(b, i); }
    } else {
      GroupAlphabet(b[..3]);
      UnpaddedBits(b[3..], if i >= 4 then i - 4 else 0);
      if i < 4 {
        GroupBits(b[..3], i);
        FirstBits(b, i);
      } else {
        LaterBits(b, i);
      }
    }
  }

  /**
   * The encoder is base64url without padding: four characters for three bytes, each the letter, digit, dash
   * or underscore for its six bits.
   */
  lemma B64UrlIsStandard(b: seq<Byte>, i: nat)
    ensures |B64Url(b)| == (4 * |b| + 2) / 3
    ensures i < |B64Url(b)| ==> UrlDigit(B64Url(b)[i]) == Some(SixBits(b, i))
  {
    B64UrlText(b);
    UnpaddedBits(b, i);
    UrlCharIs(SixBits(b, i));
  }

  // ----- the signed text -----

  const QR_PREFIX := "emg1"

  function Sign(body: string, secret: string, env: Env): string {
    B64Url(env.hmac(body, secret))
  }

  function Body(p: Payload, env: Env): string {
    B64Url(env.toBytes(p))
  }

  function EncodeQrPayload(p: Payload, secret: string, env: Env): string {
    QR_PREFIX + "." + (Body(p, env) + "." + Sign(Body(p, env), secret, env))
  }

  function Split(s: string): (parts: seq<string>)
    ensures |parts| >= 1
  {
    if s == "" then [""] else
      var rest := Split(s[1..]);
      if s[0] == '.' then [""] + rest else [[s[0]] + rest[0]] + rest[1..]
  }

  function DecodeQrPayload(value: string, secret: string, env: Env): Option<Payload> {
    if !(QR_PREFIX + "." <= value) then None else
      var parts := Split(value);
      if |parts| != 3 then None
      else if Sign(parts[1], secret, env) != parts[2] then None
      else match env.fromBytes(B64UrlDecode(parts[1], env))
           case Parsed(p) => if p.t == "" then None else Some(p)
           case _ => None
  }

  lemma {:induction false} SplitNoDot(s: string)
    requires '.' !in s
    ensures Split(s) == [s]
  {
    if s != "" {
      SplitNoDot(s[1..]);
      assert s == [s[0]] + s[1..];
    }
  }

  lemma {:induction false} SplitAtDot(a: string, rest: string)
    requires '.' !in a
    ensures Split(a + "." + rest) == [a] + Split(rest)
  {
    var s := a + "." + rest;
    if a == "" {
      assert s[1..] == rest;
    } else {
      SplitAtDot(a[1..], rest);
      assert s[1..] == a[1..] + "." + rest;
      assert a == [a[0]] + a[1..];
    }
  }

  function JoinDots(parts: seq<string>): string
    requires |parts| >= 1
  {
    if |parts| == 1 then parts[0] else parts[0] + "." + JoinDots(parts[1..])
  }

  lemma {:induction false} SplitJoins(s: string)
    ensures JoinDots(Split(s)) == s
    ensures forall i :: 0 <= i < |Split(s)| ==> '.' !in Split(s)[i]
  {
    if s != "" {
      SplitJoins(s[1..]);
      var rest := Split(s[1..]);
      var parts := Split(s);
      if s[0] == '.' {
        assert parts[1..] == rest;
        assert JoinDots(parts) == "" + "." + s[1..];
      } else {
        assert parts[1..] == rest[1..];
        assert JoinDots(parts) == [s[0]] + JoinDots(rest);
      }
    }
  }

  /** The encoded text has exactly three parts. */
  lemma EncodedSplits(p: Payload, secret: string, env: Env)
    ensures Split(EncodeQrPayload(p, secret, env)) == [QR_PREFIX, Body(p, env), Sign(Body(p, env), secret, env)]
    ensures QR_PREFIX + "." <= EncodeQrPayload(p, secret, env)
  {
    var body := Body(p, env);
    var sig := Sign(body, secret, env);
    B64UrlText(env.toBytes(p));
    B64UrlText(env.hmac(body, secret));
    SplitNoDot(sig);
    SplitAtDot(body, sig);
    SplitAtDot(QR_PREFIX, body + "." + sig);
  }

  /**
   * Decoding with `secret2` what was encoded with `secret` gives the payload back exactly when the
   * token is not empty and both secrets sign the body alike; otherwise nothing. With one secret
   * this is the round trip.
   */
  lemma DecodeEncode(p: Payload, secret: string, secret2: string, env: Env)
    requires forall q :: env.fromBytes(env.toBytes(q)) == Parsed(q)
    ensures DecodeQrPayload(EncodeQrPayload(p, secret, env), secret2, env)
         == if p.t != "" && Sign(Body(p, env), secret, env) == Sign(Body(p, env), secret2, env) then Some(p) else None
  {
    EncodedSplits(p, secret, env);
    B64UrlRoundTrip(env.toBytes(p), env);
  }

  lemma ThreeParts(value: string)
    requires |Split(value)| == 3
    ensures value == Split(value)[0] + "." + (Split(value)[1] + "." + Split(value)[2])
  {
    var parts := Split(value);
    SplitJoins(value);
    assert parts[1..][1..] == parts[2..] && JoinDots(parts[2..]) == parts[2];
    assert JoinDots(parts[1..]) == parts[1] + "." + parts[2];
  }

  lemma PrefixIsFirstPart(value: string)
    requires QR_PREFIX + "." <= value
    ensures Split(value)[0] == QR_PREFIX
  {
    var rest := value[|QR_PREFIX + "."|..];
    assert value == QR_PREFIX + "." + rest;
    SplitAtDot(QR_PREFIX, rest);
  }

  /** Anything accepted is the prefix, a body, and that body's own signature, and yields the body's payload. */
  lemma AcceptedIsSigned(value: string, secret: string, env: Env)
    requires DecodeQrPayload(value, secret, env).Some?
    ensures |Split(value)| == 3
    ensures var body := Split(value)[1];
            && value == QR_PREFIX + "." + (body + "." + Sign(body, secret, env))
            && env.fromBytes(B64UrlDecode(body, env)) == Parsed(DecodeQrPayload(value, secret, env).value)
            && DecodeQrPayload(value, secret, env).value.t != ""
  {
    ThreeParts(value);
    PrefixIsFirstPart(value);
  }
}
