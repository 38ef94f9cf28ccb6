/** The signed string, its verification and our signed GETs (src/lib/cmsSignature.ts). HMAC-SHA256 is a parameter. */
module Signature {
  import opened Prelude
  import opened Utf8
  import PercentCoding
  import opened CanonicalQuery

  /** HMAC-SHA256 (section 2 of RFC 2104) of a message under a secret: 32 bytes. */
  type Mac = (Text, seq<Byte>) -> seq<Byte>

  ghost predicate IsMac(mac: Mac) {
    forall secret, message :: |mac(secret, message)| == 32
  }

  const MAX_SKEW_SECONDS: int := 300
  const DOT: Unit := 0x2E
  const SLASH: Unit := 0x2F
  const QUESTION: Unit := 0x3F
  const HASH: Unit := 0x23
  /** `sha256=` */
  const SIGNATURE_PREFIX: Text := [0x73, 0x68, 0x61, 0x32, 0x35, 0x36, 0x3D]
  /** `nonce` */
  const NONCE: Text := [0x6E, 0x6F, 0x6E, 0x63, 0x65]

  datatype Method = GET | POST

  function MethodText(m: Method): Text {
    if m.GET? then [0x47, 0x45, 0x54] else [0x50, 0x4F, 0x53, 0x54]
  }

  // ----- numbers and hex -----

  predicate IsDigit(u: Unit) { 0x30 <= u <= 0x39 }

  predicate AllDigits(s: Text) {
    forall i :: 0 <= i < |s| ==> IsDigit(s[i])
  }

  /** `String(n)`. */
  function Decimal(n: nat): (s: Text)
    ensures s != [] && AllDigits(s)
  {
    if n < 10 then [0x30 + n] else Decimal(n / 10) + [0x30 + n % 10]
  }

  /** `Number(s)` of a string of digits. */
  function NumberOf(s: Text): nat
    requires AllDigits(s)
  {
    if s == [] then 0 else NumberOf(s[..|s| - 1]) * 10 + (s[|s| - 1] as int - 0x30)
  }

  function Pow10(k: nat): nat {
    if k == 0 then 1 else 10 * Pow10(k - 1)
  }

  lemma FifteenDigits()
    ensures Pow10(15) == 1_000_000_000_000_000
  {
    assert Pow10(5) == 10_0000;
    assert Pow10(10) == 100_0000_0000;
  }

  lemma {:induction false} DecimalReadsBack(n: nat, k: nat)
    requires n < Pow10(k) && k > 0
    ensures NumberOf(Decimal(n)) == n
    ensures |Decimal(n)| <= k
  {
    if n >= 10 {
      DecimalReadsBack(n / 10, k - 1);
      assert Decimal(n)[..|Decimal(n)| - 1] == Decimal(n / 10);
    } else {
      assert Decimal(n)[..0] == [];
    }
  }

  predicate IsLowerHex(u: Unit) { IsDigit(u) || 0x61 <= u <= 0x66 }

  predicate AllLowerHex(s: Text) {
    forall i :: 0 <= i < |s| ==> IsLowerHex(s[i])
  }

  function LowerHex(n: int): (u: Unit)
    requires 0 <= n < 16
    ensures IsLowerHex(u)
  {
    if n < 10 then 0x30 + n else 0x61 + n - 10
  }

  /** `digest('hex')`. */
  function Hex(bytes: seq<Byte>): (s: Text)
    ensures |s| == 2 * |bytes| && AllLowerHex(s)
  {
    if bytes == [] then [] else [LowerHex(bytes[0] / 16), LowerHex(bytes[0] % 16)] + Hex(bytes[1..])
  }

  /** `Buffer.from(s, 'hex')` of an even number of hex digits. */
  function FromHex(s: Text): (bytes: seq<Byte>)
    requires |s| % 2 == 0 && AllLowerHex(s)
  {
    if s == [] then []
    else [PercentCoding.HexValue(s[0]) * 16 + PercentCoding.HexValue(s[1])] + FromHex(s[2..])
  }

  lemma {:induction false} HexReadsBack(bytes: seq<Byte>)
    ensures FromHex(Hex(bytes)) == bytes
  {
    if bytes != [] {
      HexReadsBack(bytes[1..]);
      var s := Hex(bytes);
      assert s[0] == LowerHex(bytes[0] / 16) && s[1] == LowerHex(bytes[0] % 16) && s[2..] == Hex(bytes[1..]);
      assert bytes == [bytes[0]] + bytes[1..];
    }
  }

  /** And every even number of lower-case hex digits is the hex of what it stands for. */
  lemma {:induction false} HexIsOnto(s: Text)
    requires |s| % 2 == 0 && AllLowerHex(s)
    ensures Hex(FromHex(s)) == s
  {
    if s != [] {
      var bytes := FromHex(s);
      HexIsOnto(s[2..]);
      assert bytes[1..] == FromHex(s[2..]);
      assert s == [s[0], s[1]] + s[2..];
    }
  }

  lemma {:induction false} FromHexSize(s: Text)
    requires |s| % 2 == 0 && AllLowerHex(s)
    ensures 2 * |FromHex(s)| == |s|
  {
    if s != [] {
      FromHexSize(s[2..]);
    }
  }

  // ----- the signed string -----

  function SignedBytes(ts: Text, m: Method, path: Text, payload: seq<Byte>): seq<Byte> {
    Utf8OfText(ts + [DOT] + MethodText(m) + [DOT] + path + [DOT]) + payload
  }

  lemma AsciiFirst(c: Unit, rest: Text)
    requires c < 0x80
    ensures Utf8OfText([c] + rest) == [c] + Utf8OfText(rest)
  {
    var s := [c] + rest;
    assert s[1..] == rest;
    assert Utf8OfFirst(s) == [c];
  }

  lemma {:induction false} AsciiFront(a: Text, rest: Text)
    requires forall i :: 0 <= i < |a| ==> a[i] < 0x80
    ensures Utf8OfText(a + rest) == a + Utf8OfText(rest)
  {
    if a == [] {
      assert a + rest == rest;
    } else {
      var first, others := a[0], a[1..];
      assert a == [first] + others;
      AsciiFront(others, rest);
      AsciiFirst(first, others + rest);
      Associate([first], others, rest);
      Associate([first], others, Utf8OfText(rest));
    }
  }

  lemma AsciiHead(ts: Text, m: Method, path: Text, payload: seq<Byte>, head: seq<Byte>)
    requires ts + [DOT] + MethodText(m) + [DOT] + path + [DOT] == head
    requires forall i :: 0 <= i < |head| ==> head[i] < 0x80
    ensures SignedBytes(ts, m, path, payload) == head + payload
  {
    AsciiFront(head, []);
    assert head + [] == head;
  }

  /** The layout on one message each way, byte by byte: `1.GET./a.b=c`. */
  lemma LayoutOfGet()
    ensures SignedBytes([0x31], GET, [0x2F, 0x61], [0x62, 0x3D, 0x63])
         == [0x31, 0x2E, 0x47, 0x45, 0x54, 0x2E, 0x2F, 0x61, 0x2E] + [0x62, 0x3D, 0x63]
  {
    AsciiHead([0x31], GET, [0x2F, 0x61], [0x62, 0x3D, 0x63], [0x31, 0x2E, 0x47, 0x45, 0x54, 0x2E, 0x2F, 0x61, 0x2E]);
  }

  /** And `1.POST./a.{}`. */
  lemma LayoutOfPost()
    ensures SignedBytes([0x31], POST, [0x2F, 0x61], [0x7B, 0x7D])
         == [0x31, 0x2E, 0x50, 0x4F, 0x53, 0x54, 0x2E, 0x2F, 0x61, 0x2E] + [0x7B, 0x7D]
  {
    AsciiHead([0x31], POST, [0x2F, 0x61], [0x7B, 0x7D], [0x31, 0x2E, 0x50, 0x4F, 0x53, 0x54, 0x2E, 0x2F, 0x61, 0x2E]);
  }

  lemma TakeDrop<T>(a: seq<T>, b: seq<T>)
    ensures (a + b)[..|a|] == a && (a + b)[|a|..] == b
  {
  }

  lemma SignedBytesAre(ts: Text, m: Method, path: Text, payload: seq<Byte>)
    requires AllDigits(ts)
    ensures SignedBytes(ts, m, path, payload)
         == ts + ([DOT] + Utf8OfText(MethodText(m) + [DOT] + path + [DOT]) + payload)
  {
    var rest := MethodText(m) + [DOT] + path + [DOT];
    AsciiFront(ts, [DOT] + rest);
    AsciiFront([DOT], rest);
    Regroup(ts, [DOT], MethodText(m), [DOT], path, [DOT]);
  }

  lemma Regroup<T>(a: seq<T>, b: seq<T>, c: seq<T>, d: seq<T>, e: seq<T>, f: seq<T>)
    ensures a + b + c + d + e + f == a + (b + (c + d + e + f))
  {
  }

  /** The front of a byte string up to its first dot is no longer in one reading than in another. */
  lemma NoLonger(a: seq<Byte>, restA: seq<Byte>, b: seq<Byte>, restB: seq<Byte>)
    requires DOT !in b && restA != [] && restA[0] == DOT && a + restA == b + restB
    ensures |b| <= |a|
  {
    forall i | 0 <= i < |b|
      ensures (b + restB)[i] != DOT
    {
      assert (b + restB)[i] == b[i];
    }
    assert (a + restA)[|a|] == DOT;
  }

  /** For a fixed method and path the signed bytes determine the timestamp and the payload. */
  lemma SignedBytesDetermine(ts1: Text, ts2: Text, m: Method, path: Text, payload1: seq<Byte>, payload2: seq<Byte>)
    requires AllDigits(ts1) && AllDigits(ts2)
    requires SignedBytes(ts1, m, path, payload1) == SignedBytes(ts2, m, path, payload2)
    ensures ts1 == ts2 && payload1 == payload2
  {
    SignedBytesAre(ts1, m, path, payload1);
    SignedBytesAre(ts2, m, path, payload2);
    SameParts(ts1, ts2, [DOT] + Utf8OfText(MethodText(m) + [DOT] + path + [DOT]), payload1, payload2);
  }

  lemma SameParts(a: seq<Byte>, b: seq<Byte>, middle: seq<Byte>, p: seq<Byte>, q: seq<Byte>)
    requires DOT !in a && DOT !in b && middle != [] && middle[0] == DOT
    requires a + (middle + p) == b + (middle + q)
    ensures a == b && p == q
  {
    NoLonger(a, middle + p, b, middle + q);
    NoLonger(b, middle + q, a, middle + p);
    assert a == (a + (middle + p))[..|a|] && b == (b + (middle + q))[..|b|];
    assert middle + p == (a + (middle + p))[|a|..] && middle + q == (b + (middle + q))[|b|..];
    assert p == (middle + p)[|middle|..] && q == (middle + q)[|middle|..];
  }

  function SignatureHeader(mac: Mac, secret: Text, ts: Text, m: Method, path: Text, payload: seq<Byte>): Text {
    SIGNATURE_PREFIX + Hex(mac(secret, SignedBytes(ts, m, path, payload)))
  }

  /** Unix seconds of an instant in milliseconds, as the header string. */
  function UnixSeconds(nowMs: nat): Text {
    Decimal(nowMs / 1000)
  }

  // ----- verification -----

  datatype Slot = Current | Previous

  datatype Failure =
    | NoSecret | MissingHeaders | BadTimestamp | SkewTooLarge | BadSignatureFormat | BadSignature
    | BadPath | BadQuery | GetWithBody

  datatype VerifyResult = Verified(ts: nat, matched: Slot) | Refused(reason: Failure)

  function HeaderOf(h: Option<Text>): Text {
    if h.Some? then h.value else []
  }

  predicate IsTimestamp(s: Text) {
    1 <= |s| <= 15 && AllDigits(s)
  }

  predicate IsSignature(s: Text) {
    |s| == 7 + 64 && s[..7] == SIGNATURE_PREFIX && AllLowerHex(s[7..])
  }

  function SlotOf(i: nat): Slot {
    if i == 0 then Current else Previous
  }

  predicate Signs(mac: Mac, secrets: seq<Text>, i: nat, message: seq<Byte>, given: seq<Byte>)
    requires i < |secrets|
  {
    secrets[i] != [] && mac(secrets[i], message) == given
  }

  function Abs(n: int): int { if n < 0 then -n else n }

  /** The checks in the order they are made; every non-empty secret is compared. */
  method VerifySigned(mac: Mac, secrets: seq<Text>, m: Method, path: Text, payload: seq<Byte>,
                      timestampHeader: Option<Text>, signatureHeader: Option<Text>, nowMs: nat)
    returns (r: VerifyResult)
    ensures r == Verify(mac, secrets, m, path, payload, timestampHeader, signatureHeader, nowMs)
    ensures r == Refused(NoSecret) <==> forall i :: 0 <= i < |secrets| ==> secrets[i] == []
    ensures r == Refused(MissingHeaders) <==>
              && (exists i :: 0 <= i < |secrets| && secrets[i] != [])
              && (timestampHeader in {None, Some([])} || signatureHeader in {None, Some([])})
  {
    var any := false;
    for i := 0 to |secrets|
      invariant any <==> exists j :: 0 <= j < i && secrets[j] != []
    {
      any := any || secrets[i] != [];
    }
    if !any {
      return Refused(NoSecret);
    }
    var tsRaw, sigRaw := HeaderOf(timestampHeader), HeaderOf(signatureHeader);
    if tsRaw == [] || sigRaw == [] {
      return Refused(MissingHeaders);
    }
    if !IsTimestamp(tsRaw) {
      return Refused(BadTimestamp);
    }
    var ts := NumberOf(tsRaw);
    if Abs(nowMs / 1000 - ts) > MAX_SKEW_SECONDS {
      return Refused(SkewTooLarge);
    }
    if !IsSignature(sigRaw) {
      return Refused(BadSignatureFormat);
    }
    var given := FromHex(sigRaw[7..]);
    var message := SignedBytes(tsRaw, m, path, payload);
    var matched: Option<Slot> := None;
    for i := 0 to |secrets|
      invariant matched == FirstMatch(mac, secrets, i, message, given)
    {
      if secrets[i] != [] {
        var expected := mac(secrets[i], message);
        if expected == given && matched.None? {
          matched := Some(SlotOf(i));
        }
      }
    }
    r := if matched.Some? then Verified(ts, matched.value) else Refused(BadSignature);
  }

  /** The slot of the first of the first `n` secrets that signed the message. */
  function FirstMatch(mac: Mac, secrets: seq<Text>, n: nat, message: seq<Byte>, given: seq<Byte>): Option<Slot>
    requires n <= |secrets|
  {
    if n == 0 then None
    else
      var before := FirstMatch(mac, secrets, n - 1, message, given);
      if before.Some? then before
      else if Signs(mac, secrets, n - 1, message, given) then Some(SlotOf(n - 1)) else None
  }

  function Verify(mac: Mac, secrets: seq<Text>, m: Method, path: Text, payload: seq<Byte>,
                  timestampHeader: Option<Text>, signatureHeader: Option<Text>, nowMs: nat): VerifyResult {
    var tsRaw, sigRaw := HeaderOf(timestampHeader), HeaderOf(signatureHeader);
    if forall i :: 0 <= i < |secrets| ==> secrets[i] == [] then Refused(NoSecret)
    else if tsRaw == [] || sigRaw == [] then Refused(MissingHeaders)
    else if !IsTimestamp(tsRaw) then Refused(BadTimestamp)
    else if Abs(nowMs / 1000 - NumberOf(tsRaw)) > MAX_SKEW_SECONDS then Refused(SkewTooLarge)
    else if !IsSignature(sigRaw) then Refused(BadSignatureFormat)
    else
      var matched := FirstMatch(mac, secrets, |secrets|, SignedBytes(tsRaw, m, path, payload), FromHex(sigRaw[7..]));
      if matched.Some? then Verified(NumberOf(tsRaw), matched.value) else Refused(BadSignature)
  }

  lemma {:induction false} FirstMatchIff(mac: Mac, secrets: seq<Text>, n: nat, message: seq<Byte>, given: seq<Byte>)
    requires n <= |secrets|
    ensures FirstMatch(mac, secrets, n, message, given).Some? <==>
              exists i :: 0 <= i < n && Signs(mac, secrets, i, message, given)
    ensures n > 0 ==> (FirstMatch(mac, secrets, n, message, given) == Some(Current) <==>
              Signs(mac, secrets, 0, message, given))
  {
    if n > 0 {
      FirstMatchIff(mac, secrets, n - 1, message, given);
    }
  }

  /** A header is accepted exactly when the clocks agree within 300 s and some active secret signed these bytes. */
  lemma VerifiedIff(mac: Mac, secrets: seq<Text>, m: Method, path: Text, payload: seq<Byte>, ts: Text,
                    digest: seq<Byte>, nowMs: nat)
    requires IsTimestamp(ts) && |digest| == 32
    ensures var r := Verify(mac, secrets, m, path, payload, Some(ts), Some(SIGNATURE_PREFIX + Hex(digest)), nowMs);
            && (r.Verified? <==> (
                  && Abs(nowMs / 1000 - NumberOf(ts)) <= MAX_SKEW_SECONDS
                  && exists i :: 0 <= i < |secrets|
                                 && Signs(mac, secrets, i, SignedBytes(ts, m, path, payload), digest)))
            && (r.Verified? ==> r.ts == NumberOf(ts))
            && (r.Verified? && Signs(mac, secrets, 0, SignedBytes(ts, m, path, payload), digest) ==>
                  r.matched == Current)
  {
    TakeDrop(SIGNATURE_PREFIX, Hex(digest));
    HexReadsBack(digest);
    FirstMatchIff(mac, secrets, |secrets|, SignedBytes(ts, m, path, payload), digest);
  }

  // ----- our signed GETs -----

  datatype SignedGet = SignedGet(canonicalQuery: Text, ts: Text, signature: Text)

  predicate IsNonce(s: Text) {
    |s| == 32 && AllLowerHex(s)
  }

  predicate IsPath(path: Text) {
    path != [] && path[0] == SLASH && QUESTION !in path && HASH !in path
  }

  /** None where `signPushGet` throws. */
  function SignPushGet(mac: Mac, secret: Text, path: Text, params: seq<Pair>, nowMs: nat, nonce: Text)
    : Option<SignedGet>
  {
    if secret == [] || !IsPath(path) || HasRepeat(params, NONCE) || !IsNonce(nonce) then None
    else
      var query := BuildCanonicalQuery(params + [Pair(NONCE, nonce)]);
      if query.None? then None
      else
        var ts := UnixSeconds(nowMs);
        Some(SignedGet(query.value, ts, SignatureHeader(mac, secret, ts, GET, path, Utf8OfText(query.value))))
  }

  /** When it throws: no secret, no plain path, a parameter named `nonce`, a bad nonce, or text UTF-8 cannot write. */
  lemma SignsUnless(mac: Mac, secret: Text, path: Text, params: seq<Pair>, nowMs: nat, nonce: Text)
    ensures SignPushGet(mac, secret, path, params, nowMs, nonce).None? <==>
              || secret == [] || path == [] || path[0] != '/' as int || '?' as int in path || '#' as int in path
              || (exists p :: p in params && (p.key == [0x6E, 0x6F, 0x6E, 0x63, 0x65] || !WellFormedPair(p)))
              || |nonce| != 32
              || exists i :: 0 <= i < 32 && !(0x30 <= nonce[i] <= 0x39 || 0x61 <= nonce[i] <= 0x66)
  {
    var entries := params + [Pair(NONCE, nonce)];
    BuildsCanonical(entries);
    NonceMeans(nonce);
    if IsNonce(nonce) {
      AsciiWellFormed(NONCE);
      AsciiWellFormed(nonce);
      assert WellFormedPair(Pair(NONCE, nonce));
      assert forall p :: p in entries <==> p in params || p == Pair(NONCE, nonce);
    }
  }

  datatype PushGetResult =
    | Accepted(ts: nat, matched: Slot, nonce: Text, params: map<Text, Text>)
    | Rejected(why: Failure)

  function VerifyPushGet(mac: Mac, secrets: seq<Text>, path: Text, rawQuery: Text, bodyLength: nat,
                         timestampHeader: Option<Text>, signatureHeader: Option<Text>, nowMs: nat): PushGetResult {
    if bodyLength > 0 then Rejected(GetWithBody)
    else if path == [] || path[0] != SLASH || QUESTION in path then Rejected(BadPath)
    else
      var q := Canonicalize(rawQuery);
      if !q.Ok? then Rejected(BadQuery)
      else
        var r := Verify(mac, secrets, GET, path, Utf8OfText(q.canonical), timestampHeader, signatureHeader, nowMs);
        if r.Refused? then Rejected(r.reason)
        else if NONCE in q.params && IsNonce(q.params[NONCE]) then Accepted(r.ts, r.matched, q.params[NONCE], q.params)
        else Rejected(BadQuery)
  }

  /** A signature header has to read `sha256=` and the hex of 32 bytes; with any other nothing is accepted. */
  lemma SignatureMeans(s: Text)
    ensures IsSignature(s) <==>
              exists digest: seq<Byte> :: |digest| == 32
                                          && s == [0x73, 0x68, 0x61, 0x32, 0x35, 0x36, 0x3D] + Hex(digest)
  {
    if IsSignature(s) {
      var digest := FromHex(s[7..]);
      HexIsOnto(s[7..]);
      FromHexSize(s[7..]);
      assert s == s[..7] + s[7..];
      assert s == [0x73, 0x68, 0x61, 0x32, 0x35, 0x36, 0x3D] + Hex(digest);
    } else if digest: seq<Byte> :| |digest| == 32
                                   && s == [0x73, 0x68, 0x61, 0x32, 0x35, 0x36, 0x3D] + Hex(digest) {
      TakeDrop(SIGNATURE_PREFIX, Hex(digest));
      assert false;
    }
  }

  lemma MalformedIsRefused(mac: Mac, secrets: seq<Text>, m: Method, path: Text, payload: seq<Byte>,
                           timestampHeader: Option<Text>, signature: Text, nowMs: nat)
    requires forall digest: seq<Byte> :: |digest| == 32 ==>
               signature != [0x73, 0x68, 0x61, 0x32, 0x35, 0x36, 0x3D] + Hex(digest)
    ensures Verify(mac, secrets, m, path, payload, timestampHeader, Some(signature), nowMs).Refused?
    ensures Verify(mac, secrets, m, path, payload, timestampHeader, None, nowMs).Refused?
  {
    SignatureMeans(signature);
  }

  /** As `VerifiedIff`, for any text in the timestamp header. */
  lemma VerifiedMeans(mac: Mac, secrets: seq<Text>, m: Method, path: Text, payload: seq<Byte>, ts: Text,
                      digest: seq<Byte>, nowMs: nat)
    requires |digest| == 32
    ensures var r := Verify(mac, secrets, m, path, payload, Some(ts), Some(SIGNATURE_PREFIX + Hex(digest)), nowMs);
            && (r.Verified? <==> (
                  && 1 <= |ts| <= 15 && (forall i :: 0 <= i < |ts| ==> 0x30 <= ts[i] <= 0x39)
                  && -300 <= nowMs / 1000 - NumberOf(ts) <= 300
                  && exists i :: 0 <= i < |secrets|
                                 && Signs(mac, secrets, i, SignedBytes(ts, m, path, payload), digest)))
            && (r.Verified? ==> r.ts == NumberOf(ts))
  {
    if IsTimestamp(ts) {
      VerifiedIff(mac, secrets, m, path, payload, ts, digest, nowMs);
    } else {
      assert Verify(mac, secrets, m, path, payload, Some(ts), Some(SIGNATURE_PREFIX + Hex(digest)), nowMs).Refused?;
    }
  }

  lemma NonceMeans(s: Text)
    ensures IsNonce(s) <==> |s| == 32 && forall i :: 0 <= i < 32 ==> 0x30 <= s[i] <= 0x39 || 0x61 <= s[i] <= 0x66
  {
  }

  lemma AcceptedOnceVerified(mac: Mac, secrets: seq<Text>, path: Text, rawQuery: Text, bodyLength: nat,
                             timestampHeader: Option<Text>, signatureHeader: Option<Text>, nowMs: nat)
    ensures var r := VerifyPushGet(mac, secrets, path, rawQuery, bodyLength, timestampHeader, signatureHeader, nowMs);
            var q := Canonicalize(rawQuery);
            && (r.Accepted? ==> q.Ok?)
            && (q.Ok? ==>
                  var v :=
                    Verify(mac, secrets, GET, path, Utf8OfText(q.canonical), timestampHeader, signatureHeader, nowMs);
                  && (r.Accepted? <==>
                        && bodyLength == 0 && path != [] && path[0] == SLASH && QUESTION !in path
                        && NONCE in q.params && IsNonce(q.params[NONCE]) && v.Verified?)
                  && (r.Accepted? ==> r == Accepted(v.ts, v.matched, q.params[NONCE], q.params)))
  {
  }

  /**
   * What is accepted: no body, a plain path, a query that reads, a nonce of 32 lower-case hex digits, a timestamp of
   * at most 15 digits and at most 300 s ago or ahead, and the signature of an active secret over the canonical query.
   */
  lemma AcceptedMeans(mac: Mac, secrets: seq<Text>, path: Text, rawQuery: Text, bodyLength: nat, ts: Text,
                      digest: seq<Byte>, nowMs: nat)
    requires |digest| == 32
    ensures var r := VerifyPushGet(mac, secrets, path, rawQuery, bodyLength, Some(ts),
                                   Some(SIGNATURE_PREFIX + Hex(digest)), nowMs);
            var q := Canonicalize(rawQuery);
            && (r.Accepted? <==>
                  && bodyLength == 0 && path != [] && path[0] == SLASH && QUESTION !in path
                  && q.Ok? && NONCE in q.params && |q.params[NONCE]| == 32
                  && (forall i :: 0 <= i < 32 ==>
                        0x30 <= q.params[NONCE][i] <= 0x39 || 0x61 <= q.params[NONCE][i] <= 0x66)
                  && 1 <= |ts| <= 15 && (forall i :: 0 <= i < |ts| ==> 0x30 <= ts[i] <= 0x39)
                  && -300 <= nowMs / 1000 - NumberOf(ts) <= 300
                  && exists i :: 0 <= i < |secrets|
                                 && Signs(mac, secrets, i, SignedBytes(ts, GET, path, Utf8OfText(q.canonical)), digest))
            && (r.Accepted? ==> r.params == q.params && r.nonce == q.params[NONCE] && r.ts == NumberOf(ts))
  {
    var q := Canonicalize(rawQuery);
    AcceptedOnceVerified(mac, secrets, path, rawQuery, bodyLength, Some(ts), Some(SIGNATURE_PREFIX + Hex(digest)),
                         nowMs);
    if q.Ok? {
      VerifiedMeans(mac, secrets, GET, path, Utf8OfText(q.canonical), ts, digest, nowMs);
    }
    if q.Ok? && NONCE in q.params {
      NonceMeans(q.params[NONCE]);
    }
  }

  lemma NonceIsSendable(params: seq<Pair>, nonce: Text)
    requires Sendable(params) && !HasRepeat(params, NONCE) && IsNonce(nonce)
    ensures Sendable(params + [Pair(NONCE, nonce)])
  {
    DistinctKeysAppend(params, Pair(NONCE, nonce));
    AsciiWellFormed(NONCE);
    AsciiWellFormed(nonce);
  }

  lemma {:induction false} AsciiWellFormed(s: Text)
    requires forall i :: 0 <= i < |s| ==> s[i] < 0x80
    ensures WellFormed(s)
  {
    if s != [] {
      AsciiWellFormed(s[1..]);
    }
  }

  /** A readable query with a nonce and a verified signature is accepted, and read back. */
  lemma AcceptsVerified(mac: Mac, secrets: seq<Text>, path: Text, query: Text, ts: Text, signature: Text, nowMs: nat)
    requires IsPath(path) && Canonicalize(query).Ok? && Canonicalize(query).canonical == query
    requires NONCE in Canonicalize(query).params && IsNonce(Canonicalize(query).params[NONCE])
    requires Verify(mac, secrets, GET, path, Utf8OfText(query), Some(ts), Some(signature), nowMs).Verified?
    ensures var r := Verify(mac, secrets, GET, path, Utf8OfText(query), Some(ts), Some(signature), nowMs);
            var params := Canonicalize(query).params;
            (VerifyPushGet(mac, secrets, path, query, 0, Some(ts), Some(signature), nowMs)
             == Accepted(r.ts, r.matched, params[NONCE], params))
  {
  }

  /**
   * Every GET that `signPushGet` makes is accepted by `verifyPushGet`, with the secret in either slot, whenever the
   * clocks differ by at most 300 s — and it gives back the parameters sent, plus the nonce.
   */
  lemma SignedGetIsAccepted(mac: Mac, secret: Text, other: Text, secretFirst: bool, path: Text, params: seq<Pair>,
                            sentMs: nat, nonce: Text, receivedMs: nat)
    requires IsMac(mac) && Sendable(params)
    requires SignPushGet(mac, secret, path, params, sentMs, nonce).Some?
    requires sentMs < 1_000_000_000_000_000_000
    requires Abs(receivedMs - sentMs) <= 1000 * MAX_SKEW_SECONDS
    ensures var g := SignPushGet(mac, secret, path, params, sentMs, nonce).value;
            var r := VerifyPushGet(mac, if secretFirst then [secret, other] else [other, secret], path,
                                   g.canonicalQuery,
                                   0, Some(g.ts), Some(g.signature), receivedMs);
            && r.Accepted? && r.ts == sentMs / 1000 && r.nonce == nonce
            && r.params == ParamsOf(params)[NONCE := nonce]
            && (secretFirst ==> r.matched == Current)
  {
    var entries := params + [Pair(NONCE, nonce)];
    var g := SignPushGet(mac, secret, path, params, sentMs, nonce).value;
    NonceIsSendable(params, nonce);
    QueryRoundTrip(entries);
    assert entries[..|entries| - 1] == params;
    SignatureIsAccepted(mac, secret, other, secretFirst, path, Utf8OfText(g.canonicalQuery), sentMs, receivedMs);
    AcceptsVerified(mac, if secretFirst then [secret, other] else [other, secret], path, g.canonicalQuery, g.ts,
                    g.signature, receivedMs);
  }

  lemma SignatureIsAccepted(mac: Mac, secret: Text, other: Text, secretFirst: bool, path: Text, payload: seq<Byte>,
                            sentMs: nat, receivedMs: nat)
    requires IsMac(mac) && secret != []
    requires sentMs < 1_000_000_000_000_000_000
    requires Abs(receivedMs - sentMs) <= 1000 * MAX_SKEW_SECONDS
    ensures var ts := UnixSeconds(sentMs);
            var r := Verify(mac, if secretFirst then [secret, other] else [other, secret], GET, path, payload,
                            Some(ts), Some(SignatureHeader(mac, secret, ts, GET, path, payload)), receivedMs);
            && r.Verified? && r.ts == sentMs / 1000
            && (secretFirst ==> r.matched == Current)
  {
    var ts := UnixSeconds(sentMs);
    FifteenDigits();
    DecimalReadsBack(sentMs / 1000, 15);
    var secrets := if secretFirst then [secret, other] else [other, secret];
    var message := SignedBytes(ts, GET, path, payload);
    assert Signs(mac, secrets, if secretFirst then 0 else 1, message, mac(secret, message));
    VerifiedIff(mac, secrets, GET, path, payload, ts, mac(secret, message), receivedMs);
  }

  // ----- which GETs are accepted -----

  predicate IsAscii(s: Text) {
    forall i :: 0 <= i < |s| ==> s[i] < 0x80
  }

  lemma AsciiIsItself(s: Text)
    requires IsAscii(s)
    ensures Utf8OfText(s) == s
  {
    AsciiFront(s, []);
    assert s + [] == s;
  }

  lemma SegmentIsAscii(p: Pair)
    ensures IsAscii(Segment(p))
  {
    PercentCoding.EncodedAlphabet(Utf8OfText(p.key));
    PercentCoding.EncodedAlphabet(Utf8OfText(p.value));
  }

  lemma {:induction false} JoinIsAscii(segments: seq<Text>)
    requires forall i :: 0 <= i < |segments| ==> IsAscii(segments[i])
    ensures IsAscii(Join(segments))
  {
    if |segments| > 1 {
      JoinIsAscii(segments[1..]);
    }
  }

  lemma CanonicalIsAscii(ps: seq<Pair>)
    ensures IsAscii(CanonicalOf(ps))
  {
    CanonicalIsArranged(ps);
    var segments := Map(SegmentOf(), Arranged(ps));
    forall i | 0 <= i < |segments|
      ensures IsAscii(segments[i])
    {
      SegmentIsAscii(Arranged(ps)[i]);
    }
    JoinIsAscii(segments);
  }

  /** The signed bytes of a query as the verifier reads it back. */
  function ReadBackBytes(ts: Text, path: Text, query: Text): seq<Byte> {
    var q := Canonicalize(query);
    if q.Ok? then SignedBytes(ts, GET, path, Utf8OfText(q.canonical)) else []
  }

  /** No active secret happens to give `digest` to the one message the verifier would check instead. */
  ghost predicate IsUnforged(mac: Mac, secrets: seq<Text>, other: seq<Byte>, digest: seq<Byte>) {
    forall i :: 0 <= i < |secrets| ==> mac(secrets[i], other) != digest
  }

  /** With a leading U+FEFF in some name or value, the verifier reads back another query than the one signed. */
  lemma BomChangesPayload(entries: seq<Pair>, p: Pair)
    requires (forall q :: q in entries ==> WellFormedPair(q)) && p in entries && !NoBomPair(p)
    requires Canonicalize(CanonicalOf(entries)).Ok?
    ensures Utf8OfText(Canonicalize(CanonicalOf(entries)).canonical) != Utf8OfText(CanonicalOf(entries))
  {
    BomShrinks(entries, p);
    RereadCanonical(entries);
    CanonicalIsAscii(entries);
    CanonicalIsAscii(Map(Stripped(), Arranged(entries)));
    AsciiIsItself(CanonicalOf(entries));
    AsciiIsItself(Canonicalize(CanonicalOf(entries)).canonical);
  }

  lemma OtherPayloadRefused(mac: Mac, secrets: seq<Text>, path: Text, read: seq<Byte>, ts: Text, digest: seq<Byte>,
                            nowMs: nat)
    requires IsTimestamp(ts) && |digest| == 32
    requires IsUnforged(mac, secrets, SignedBytes(ts, GET, path, read), digest)
    ensures Verify(mac, secrets, GET, path, read, Some(ts), Some(SIGNATURE_PREFIX + Hex(digest)), nowMs).Refused?
  {
    VerifiedIff(mac, secrets, GET, path, read, ts, digest, nowMs);
  }

  /**
   * Which signed GETs are accepted: exactly those in which no name and no value begins with U+FEFF. (The verifier's
   * decoder drops one, so it checks the signature of another query; it would pass only if the MAC of that one other
   * message were the same 32 bytes.)
   */
  lemma SignedGetAcceptedIff(mac: Mac, secret: Text, other: Text, secretFirst: bool, path: Text, params: seq<Pair>,
                             sentMs: nat, nonce: Text, receivedMs: nat)
    requires IsMac(mac) && DistinctKeys(params)
    requires SignPushGet(mac, secret, path, params, sentMs, nonce).Some?
    requires sentMs < 1_000_000_000_000_000_000
    requires Abs(receivedMs - sentMs) <= 1000 * MAX_SKEW_SECONDS
    requires var g := SignPushGet(mac, secret, path, params, sentMs, nonce).value;
             var message := SignedBytes(g.ts, GET, path, Utf8OfText(g.canonicalQuery));
             var read := ReadBackBytes(g.ts, path, g.canonicalQuery);
             read != message ==> IsUnforged(mac, [secret, other], read, mac(secret, message))
    ensures var g := SignPushGet(mac, secret, path, params, sentMs, nonce).value;
            var r := VerifyPushGet(mac, if secretFirst then [secret, other] else [other, secret], path,
                                   g.canonicalQuery,
                                   0, Some(g.ts), Some(g.signature), receivedMs);
            r.Accepted? <==> forall p :: p in params ==> NoBomPair(p)
  {
    var entries := params + [Pair(NONCE, nonce)];
    var g := SignPushGet(mac, secret, path, params, sentMs, nonce).value;
    BuildsCanonical(entries);
    assert forall p :: p in params ==> p in entries;
    if forall p :: p in params ==> NoBomPair(p) {
      SignedGetIsAccepted(mac, secret, other, secretFirst, path, params, sentMs, nonce, receivedMs);
    } else if Canonicalize(g.canonicalQuery).Ok? {
      var p :| p in params && !NoBomPair(p);
      BomChangesPayload(entries, p);
      FifteenDigits();
    DecimalReadsBack(sentMs / 1000, 15);
      BomGetRefused(mac, secret, other, secretFirst, path, g, receivedMs);
    }
  }

  lemma BomGetRefused(mac: Mac, secret: Text, other: Text, secretFirst: bool, path: Text, g: SignedGet, nowMs: nat)
    requires IsMac(mac) && IsTimestamp(g.ts) && Canonicalize(g.canonicalQuery).Ok?
    requires Utf8OfText(Canonicalize(g.canonicalQuery).canonical) != Utf8OfText(g.canonicalQuery)
    requires g.signature == SignatureHeader(mac, secret, g.ts, GET, path, Utf8OfText(g.canonicalQuery))
    requires var message := SignedBytes(g.ts, GET, path, Utf8OfText(g.canonicalQuery));
             var read := ReadBackBytes(g.ts, path, g.canonicalQuery);
             read != message ==> IsUnforged(mac, [secret, other], read, mac(secret, message))
    ensures VerifyPushGet(mac, if secretFirst then [secret, other] else [other, secret], path, g.canonicalQuery,
                          0, Some(g.ts), Some(g.signature), nowMs).Rejected?
  {
    var signed, read := Utf8OfText(g.canonicalQuery), Utf8OfText(Canonicalize(g.canonicalQuery).canonical);
    var message := SignedBytes(g.ts, GET, path, signed);
    var secrets := if secretFirst then [secret, other] else [other, secret];
    if SignedBytes(g.ts, GET, path, read) == message {
      SignedBytesDetermine(g.ts, g.ts, GET, path, read, signed);
    }
    assert IsUnforged(mac, [secret, other], SignedBytes(g.ts, GET, path, read), mac(secret, message));
    assert [secret, other][0] == secret && [secret, other][1] == other;
    OtherPayloadRefused(mac, secrets, path, read, g.ts, mac(secret, message), nowMs);
  }
}
