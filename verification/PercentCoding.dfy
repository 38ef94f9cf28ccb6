/** Percent-encoding (sections 2.1 and 2.3 of RFC 3986) as src/lib/cmsSignature.ts does it. */
module PercentCoding {
  import opened Prelude
  import opened Utf8

  const PERCENT: Unit := 0x25

  predicate IsDigit(u: int) { 0x30 <= u <= 0x39 }
  predicate IsUpper(u: int) { 0x41 <= u <= 0x5A }
  predicate IsLower(u: int) { 0x61 <= u <= 0x7A }

  /** What `encodeURIComponent` leaves alone: letters, digits and - _ . ! ~ * ' ( ). */
  predicate Unescaped(u: int) {
    IsDigit(u) || IsUpper(u) || IsLower(u) || u in {0x2D, 0x5F, 0x2E, 0x7E} || AlsoReserved(u)
  }

  /** ! ' ( ) *, which RFC 3986 treats as reserved. */
  predicate AlsoReserved(u: int) {
    u in {0x21, 0x27, 0x28, 0x29, 0x2A}
  }

  /** The unreserved set of RFC 3986: letters, digits and - . _ ~. */
  predicate Unreserved(u: int) {
    || '0' as int <= u <= '9' as int || 'A' as int <= u <= 'Z' as int || 'a' as int <= u <= 'z' as int
    || u in {'-' as int, '.' as int, '_' as int, '~' as int}
  }

  function HexDigit(n: int): (u: Unit)
    requires 0 <= n < 16
    ensures IsDigit(u) || 0x41 <= u <= 0x46
  {
    if n < 10 then 0x30 + n else 0x41 + n - 10
  }

  predicate IsHex(u: int) {
    IsDigit(u) || 0x41 <= u <= 0x46 || 0x61 <= u <= 0x66
  }

  function HexValue(u: int): (n: int)
    requires IsHex(u)
    ensures 0 <= n < 16
  {
    if IsDigit(u) then u - 0x30 else if u <= 0x46 then u - 0x41 + 10 else u - 0x61 + 10
  }

  function Escape(b: Byte): Text {
    [PERCENT, HexDigit(b / 16), HexDigit(b % 16)]
  }

  function EscapeAll(bytes: seq<Byte>): Text {
    if bytes == [] then [] else Escape(bytes[0]) + EscapeAll(bytes[1..])
  }

  /** `encodeURIComponent`; None where it throws, on a lone surrogate. */
  function EncodeUriComponent(s: Text): Option<Text> {
    if s == [] then Some([])
    else if !StartsWell(s) then None
    else
      var rest := EncodeUriComponent(s[CodePointLength(s)..]);
      if rest.None? then None
      else if Unescaped(s[0]) then Some([s[0]] + rest.value)
      else Some(EscapeAll(Utf8OfFirst(s)) + rest.value)
  }

  /** `.replace(/[!'()*]/g, …)`. */
  function EscapeReserved(s: Text): Text {
    if s == [] then []
    else (if AlsoReserved(s[0]) then Escape(s[0]) else [s[0]]) + EscapeReserved(s[1..])
  }

  function Rfc3986Encode(s: Text): Option<Text> {
    var e := EncodeUriComponent(s);
    if e.None? then None else Some(EscapeReserved(e.value))
  }

  // ----- what the encoding is, in the RFC's terms -----

  /** An unreserved byte stays; every other byte becomes upper-case %XX. */
  function EncodeByte(b: Byte): Text {
    if Unreserved(b) then [b] else Escape(b)
  }

  function EncodeBytes(bytes: seq<Byte>): Text {
    if bytes == [] then [] else EncodeByte(bytes[0]) + EncodeBytes(bytes[1..])
  }

  /** The encoding of a well-formed string, byte by byte. */
  function Encode(s: Text): Text {
    EncodeBytes(Utf8OfText(s))
  }

  lemma {:induction false} EncodeBytesConcat(a: seq<Byte>, b: seq<Byte>)
    ensures EncodeBytes(a + b) == EncodeBytes(a) + EncodeBytes(b)
  {
    if a == [] {
      assert a + b == b;
    } else {
      assert (a + b)[1..] == a[1..] + b;
      EncodeBytesConcat(a[1..], b);
    }
  }

  lemma {:induction false} EscapeReservedConcat(a: Text, b: Text)
    ensures EscapeReserved(a + b) == EscapeReserved(a) + EscapeReserved(b)
  {
    if a == [] {
      assert a + b == b;
    } else {
      assert (a + b)[1..] == a[1..] + b;
      EscapeReservedConcat(a[1..], b);
    }
  }

  /** A unit the second pass does not rewrite stays in front. */
  lemma StaysInFront(u: Unit, rest: Text)
    requires !AlsoReserved(u)
    ensures EscapeReserved([u] + rest) == [u] + EscapeReserved(rest)
  {
    assert ([u] + rest)[1..] == rest;
  }

  lemma EscapeStays(u: Unit, v: Unit, w: Unit)
    requires !AlsoReserved(u) && !AlsoReserved(v) && !AlsoReserved(w)
    ensures EscapeReserved([u, v, w]) == [u, v, w]
  {
    StaysInFront(w, []);
    StaysInFront(v, [w]);
    StaysInFront(u, [v, w]);
    assert [w] + [] == [w] && [v] + [w] == [v, w] && [u] + [v, w] == [u, v, w];
  }

  /** Escapes contain nothing that the second pass rewrites. */
  lemma {:induction false} EscapesStay(bytes: seq<Byte>)
    ensures EscapeReserved(EscapeAll(bytes)) == EscapeAll(bytes)
  {
    if bytes != [] {
      EscapesStay(bytes[1..]);
      EscapeReservedConcat(Escape(bytes[0]), EscapeAll(bytes[1..]));
      EscapeStays(PERCENT, HexDigit(bytes[0] / 16), HexDigit(bytes[0] % 16));
    }
  }

  lemma {:induction false} NonAsciiEscapes(bytes: seq<Byte>)
    requires forall i :: 0 <= i < |bytes| ==> bytes[i] >= 0x80
    ensures EncodeBytes(bytes) == EscapeAll(bytes)
  {
    if bytes != [] {
      NonAsciiEscapes(bytes[1..]);
    }
  }

  /** The encoding of one code point is the same by either route. */
  lemma FirstEncodes(s: Text)
    requires s != [] && StartsWell(s)
    ensures EscapeReserved(if Unescaped(s[0]) then [s[0]] else EscapeAll(Utf8OfFirst(s))) == EncodeBytes(Utf8OfFirst(s))
  {
    if s[0] < 0x80 {
      assert Utf8OfFirst(s) == [s[0]];
      EscapesStay([s[0]]);
      assert [s[0]][1..] == [];
    } else {
      NonAsciiEscapes(Utf8OfFirst(s));
      EscapesStay(Utf8OfFirst(s));
    }
  }

  /**
   * The two-pass code is RFC 3986 encoding over UTF-8, and it throws on exactly the strings with a lone surrogate.
   */
  lemma {:induction false} EncodesAsRfc3986(s: Text)
    ensures Rfc3986Encode(s) == if WellFormed(s) then Some(Encode(s)) else None
  {
    if s != [] && StartsWell(s) {
      var n := CodePointLength(s);
      EncodesAsRfc3986(s[n..]);
      FirstEncodes(s);
      var e := EncodeUriComponent(s[n..]);
      if e.Some? {
        EscapeReservedConcat(if Unescaped(s[0]) then [s[0]] else EscapeAll(Utf8OfFirst(s)), e.value);
        EncodeBytesConcat(Utf8OfFirst(s), Utf8OfText(s[n..]));
      }
    }
  }

  predicate EncodedUnit(u: int) {
    Unreserved(u) || u == PERCENT
  }

  /** An encoded string has none of & = + ? #, so it can stand in a query as it is. */
  lemma {:induction false} EncodedAlphabet(bytes: seq<Byte>)
    ensures forall i :: 0 <= i < |EncodeBytes(bytes)| ==> EncodedUnit(EncodeBytes(bytes)[i])
  {
    if bytes != [] {
      EncodedAlphabet(bytes[1..]);
    }
  }

  // ----- decoding -----

  /** The bytes a percent-encoded string stands for; None on a bad escape. `+` is a plus. */
  function DecodeToBytes(s: Text): Option<seq<Byte>> {
    if s == [] then Some([])
    else if s[0] == PERCENT then
      if |s| >= 3 && IsHex(s[1]) && IsHex(s[2]) then
        PrependBytes([HexValue(s[1]) * 16 + HexValue(s[2])], DecodeToBytes(s[3..]))
      else None
    else if s[0] < 0x80 then PrependBytes([s[0]], DecodeToBytes(s[1..]))
    else PrependBytes(Utf8OfFirst(s), DecodeToBytes(s[CodePointLength(s)..]))
  }

  function PrependBytes(b: seq<Byte>, rest: Option<seq<Byte>>): Option<seq<Byte>> {
    if rest.None? then None else Some(b + rest.value)
  }

  function Decode(s: Text): Option<Text> {
    var b := DecodeToBytes(s);
    if b.None? then None
    else
      var t := Utf8Decode(b.value);
      if t.None? then None else Some(DropBom(t.value))
  }

  lemma PrependTwice(a: seq<Byte>, b: seq<Byte>, rest: Option<seq<Byte>>)
    ensures PrependBytes(a + b, rest) == PrependBytes(a, PrependBytes(b, rest))
  {
    if rest.Some? {
      assert a + b + rest.value == a + (b + rest.value);
    }
  }

  /** The loop of `percentDecode`. */
  method PercentDecode(s: Text) returns (r: Option<Text>)
    ensures r == Decode(s)
  {
    var bytes: seq<Byte> := [];
    var i := 0;
    assert s[0..] == s;
    assert DecodeToBytes(s).Some? ==> bytes + DecodeToBytes(s).value == DecodeToBytes(s).value;
    while i < |s|
      invariant i <= |s|
      invariant DecodeToBytes(s) == PrependBytes(bytes, DecodeToBytes(s[i..]))
    {
      var c := s[i];
      if c == PERCENT {
        var hex := s[i + 1..Min(i + 3, |s|)];
        if !(|hex| == 2 && IsHex(hex[0]) && IsHex(hex[1])) {
          return None;
        }
        var b: Byte := HexValue(hex[0]) * 16 + HexValue(hex[1]);
        assert s[i..][3..] == s[i + 3..];
        PrependTwice(bytes, [b], DecodeToBytes(s[i + 3..]));
        bytes := bytes + [b];
        i := i + 2;
      } else if c < 0x80 {
        assert s[i..][1..] == s[i + 1..];
        PrependTwice(bytes, [c], DecodeToBytes(s[i + 1..]));
        bytes := bytes + [c];
      } else {
        var n := CodePointLength(s[i..]);
        assert s[i..][n..] == s[i + n..];
        PrependTwice(bytes, Utf8OfFirst(s[i..]), DecodeToBytes(s[i + n..]));
        bytes := bytes + Utf8OfFirst(s[i..]);
        if n == 2 {
          i := i + 1;
        }
      }
      i := i + 1;
    }
    var text := Utf8Decode(bytes);
    assert bytes + [] == bytes;
    r := if text.None? then None else Some(DropBom(text.value));
  }

  lemma {:induction false} DecodeEncodedBytes(bytes: seq<Byte>)
    ensures DecodeToBytes(EncodeBytes(bytes)) == Some(bytes)
  {
    if bytes != [] {
      var b, rest := bytes[0], EncodeBytes(bytes[1..]);
      DecodeEncodedBytes(bytes[1..]);
      var e := EncodeByte(b) + rest;
      assert e[|EncodeByte(b)|..] == rest;
      assert Unreserved(b) ==> e[0] == b;
      assert !Unreserved(b) ==> e[1] == HexDigit(b / 16) && e[2] == HexDigit(b % 16);
      assert bytes == [b] + bytes[1..];
    }
  }

  /** Decoding undoes encoding on every well-formed string that does not begin with U+FEFF, and only on those. */
  lemma TextRoundTrip(s: Text)
    requires WellFormed(s)
    ensures Decode(Encode(s)) == Some(DropBom(s))
    ensures Decode(Encode(s)) == Some(s) <==> (s == [] || s[0] != BOM)
  {
    DecodeEncodedBytes(Utf8OfText(s));
    Utf8RoundTrip(s);
    assert |DropBom(s)| == |s| ==> DropBom(s) == s;
  }

  /** What decodes at all decodes to a well-formed string. */
  lemma DecodedIsWellFormed(s: Text)
    requires Decode(s).Some?
    ensures WellFormed(Decode(s).value)
  {
    var t := Utf8Decode(DecodeToBytes(s).value).value;
    Utf8DecodeIsStrict(DecodeToBytes(s).value);
    if t != [] && t[0] == BOM {
      assert WellFormed(t[CodePointLength(t)..]);
    }
  }

  /** Different well-formed strings have different encodings. */
  lemma EncodeInjective(s: Text, t: Text)
    requires WellFormed(s) && WellFormed(t) && Encode(s) == Encode(t)
    ensures s == t
  {
    DecodeEncodedBytes(Utf8OfText(s));
    DecodeEncodedBytes(Utf8OfText(t));
    Utf8RoundTrip(s);
    Utf8RoundTrip(t);
  }
}
