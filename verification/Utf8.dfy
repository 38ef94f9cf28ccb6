/**
 * JavaScript strings as sequences of UTF-16 code units, and UTF-8 (section 3 of RFC 3629) with the strictness of
 * `new TextDecoder('utf-8', { fatal: true })`.
 */
module Utf8 {
  import opened Prelude

  type Unit = u: int | 0 <= u < 0x1_0000
  type Byte = b: int | 0 <= b < 0x100
  type Text = seq<Unit>

  predicate IsHigh(u: Unit) { 0xD800 <= u < 0xDC00 }
  predicate IsLow(u: Unit) { 0xDC00 <= u < 0xE000 }

  /** How many units the first code point of `s` takes. */
  function CodePointLength(s: Text): (n: nat)
    requires s != []
    ensures 1 <= n <= |s|
  {
    if IsHigh(s[0]) && |s| > 1 && IsLow(s[1]) then 2 else 1
  }

  /** `codePointAt(0)`: a surrogate pair combined, or the unit itself. */
  function CodePoint(s: Text): (c: nat)
    requires s != []
    ensures c < 0x11_0000
  {
    var high: int := s[0];
    if CodePointLength(s) == 2 then
      var low: int := s[1];
      0x1_0000 + (high - 0xD800) * 0x400 + (low - 0xDC00)
    else high
  }

  predicate StartsWell(s: Text)
    requires s != []
  {
    CodePointLength(s) == 2 || !(IsHigh(s[0]) || IsLow(s[0]))
  }

  /** No lone surrogate. */
  predicate WellFormed(s: Text) {
    s == [] || (StartsWell(s) && WellFormed(s[CodePointLength(s)..]))
  }

  function Utf8OfCodePoint(c: nat): (r: seq<Byte>)
    requires c < 0x11_0000
    ensures 1 <= |r| <= 4
  {
    if c < 0x80 then [c]
    else if c < 0x800 then [0xC0 + c / 0x40, 0x80 + c % 0x40]
    else if c < 0x1_0000 then [0xE0 + c / 0x1000, 0x80 + c / 0x40 % 0x40, 0x80 + c % 0x40]
    else [0xF0 + c / 0x4_0000, 0x80 + c / 0x1000 % 0x40, 0x80 + c / 0x40 % 0x40, 0x80 + c % 0x40]
  }

  /** The UTF-8 of the first code point; a lone surrogate becomes U+FFFD, as in `Buffer.from(ch, 'utf8')`. */
  function Utf8OfFirst(s: Text): (r: seq<Byte>)
    requires s != []
    ensures 1 <= |r| <= 4
  {
    if StartsWell(s) then Utf8OfCodePoint(CodePoint(s)) else [0xEF, 0xBF, 0xBD]
  }

  function Utf8OfText(s: Text): seq<Byte> {
    if s == [] then [] else Utf8OfFirst(s) + Utf8OfText(s[CodePointLength(s)..])
  }

  /** A surrogate with no partner is written as U+FFFD, and what follows it as if it were not there. */
  lemma LoneIsReplaced(u: Unit, rest: Text)
    requires || 0xDC00 <= u < 0xE000
             || (0xD800 <= u < 0xDC00 && (rest == [] || !(0xDC00 <= rest[0] < 0xE000)))
    ensures Utf8OfText([u] + rest) == [0xEF, 0xBF, 0xBD] + Utf8OfText(rest)
  {
    var s := [u] + rest;
    assert s[0] == u && s[1..] == rest && (|s| > 1 ==> s[1] == rest[0]);
    assert CodePointLength(s) == 1 && Utf8OfFirst(s) == [0xEF, 0xBF, 0xBD];
  }

  lemma ReplacementCharacter()
    ensures Utf8OfText([0xFFFD]) == [0xEF, 0xBF, 0xBD]
  {
    var s: Text := [0xFFFD];
    assert CodePointLength(s) == 1 && s[1..] == [];
  }

  predicate IsContinuation(b: Byte) { 0x80 <= b < 0xC0 }

  /** The length of the well-formed sequence at the front of `b`, or 0: overlong forms, surrogates and code points
      beyond U+10FFFF are refused by the range of the second byte. */
  function SequenceLength(b: seq<Byte>): (n: nat)
    requires b != []
    ensures n <= |b| && n <= 4
  {
    if b[0] < 0x80 then 1
    else if 0xC2 <= b[0] < 0xE0 then
      if |b| >= 2 && IsContinuation(b[1]) then 2 else 0
    else if 0xE0 <= b[0] < 0xF0 then
      if |b| >= 3 && IsContinuation(b[1]) && (b[0] == 0xE0 ==> b[1] >= 0xA0) && (b[0] == 0xED ==> b[1] < 0xA0)
         && IsContinuation(b[2]) then 3 else 0
    else if 0xF0 <= b[0] < 0xF5 then
      if |b| >= 4 && IsContinuation(b[1]) && (b[0] == 0xF0 ==> b[1] >= 0x90) && (b[0] == 0xF4 ==> b[1] < 0x90)
         && IsContinuation(b[2]) && IsContinuation(b[3]) then 4 else 0
    else 0
  }

  function DecodeSequence(b: seq<Byte>): (c: nat)
    requires b != [] && SequenceLength(b) > 0
    ensures c < 0x11_0000 && !(0xD800 <= c < 0xE000)
  {
    var lead: int := b[0];
    match SequenceLength(b)
    case 1 => lead
    case 2 => (lead - 0xC0) * 0x40 + Payload(b[1])
    case 3 => (lead - 0xE0) * 0x1000 + Payload(b[1]) * 0x40 + Payload(b[2])
    case 4 => (lead - 0xF0) * 0x4_0000 + Payload(b[1]) * 0x1000 + Payload(b[2]) * 0x40 + Payload(b[3])
  }

  /** The six bits a continuation byte carries. */
  function Payload(b: Byte): (n: nat)
    requires IsContinuation(b)
    ensures n < 0x40
  {
    b as int - 0x80
  }

  /** `String.fromCodePoint`. */
  function Utf16Of(c: nat): (r: Text)
    requires c < 0x11_0000
    ensures 1 <= |r| <= 2
  {
    if c < 0x1_0000 then [c]
    else [0xD800 + (c - 0x1_0000) / 0x400, 0xDC00 + (c - 0x1_0000) % 0x400]
  }

  /** Strict decoding: None on any malformed sequence. */
  function Utf8Decode(b: seq<Byte>): Option<Text> {
    if b == [] then Some([])
    else if SequenceLength(b) == 0 then None
    else
      var rest := Utf8Decode(b[SequenceLength(b)..]);
      if rest.None? then None else Some(Utf16Of(DecodeSequence(b)) + rest.value)
  }

  const BOM: Unit := 0xFEFF

  /** The default `ignoreBOM: false` drops one leading U+FEFF from the decoded text. */
  function DropBom(s: Text): Text {
    if s != [] && s[0] == BOM then s[1..] else s
  }

  // ----- the two directions undo each other -----

  lemma EncodedSequence(c: nat, rest: seq<Byte>)
    requires c < 0x11_0000 && !(0xD800 <= c < 0xE000)
    ensures SequenceLength(Utf8OfCodePoint(c) + rest) == |Utf8OfCodePoint(c)|
    ensures DecodeSequence(Utf8OfCodePoint(c) + rest) == c
  {
    var b := Utf8OfCodePoint(c) + rest;
    if c < 0x80 {
    } else if c < 0x800 {
      assert b[0] == 0xC0 + c / 0x40 && b[1] == 0x80 + c % 0x40;
    } else if c < 0x1_0000 {
      assert b[0] == 0xE0 + c / 0x1000 && b[1] == 0x80 + c / 0x40 % 0x40 && b[2] == 0x80 + c % 0x40;
      assert c / 0x1000 == c / 0x40 / 0x40;
    } else {
      assert b[0] == 0xF0 + c / 0x4_0000 && b[1] == 0x80 + c / 0x1000 % 0x40;
      assert b[2] == 0x80 + c / 0x40 % 0x40 && b[3] == 0x80 + c % 0x40;
      assert c / 0x1000 == c / 0x40 / 0x40 && c / 0x4_0000 == c / 0x40 / 0x40 / 0x40;
    }
  }

  lemma CodePointSpells(s: Text)
    requires s != [] && StartsWell(s)
    ensures !(0xD800 <= CodePoint(s) < 0xE000)
    ensures Utf16Of(CodePoint(s)) == s[..CodePointLength(s)]
  {
  }

  /** Decoding the UTF-8 of a well-formed string gives the string back. */
  lemma {:induction false} Utf8RoundTrip(s: Text)
    requires WellFormed(s)
    ensures Utf8Decode(Utf8OfText(s)) == Some(s)
  {
    if s != [] {
      var n := CodePointLength(s);
      CodePointSpells(s);
      EncodedSequence(CodePoint(s), Utf8OfText(s[n..]));
      assert Utf8OfText(s)[|Utf8OfFirst(s)|..] == Utf8OfText(s[n..]);
      Utf8RoundTrip(s[n..]);
      assert s == s[..n] + s[n..];
    }
  }

  lemma LastDigit(q: nat, r: nat)
    requires r < 0x40
    ensures (q * 0x40 + r) % 0x40 == r && (q * 0x40 + r) / 0x40 == q
  {
  }

  lemma Base64Digits(x: nat, y: nat, z: nat)
    requires y < 0x40 && z < 0x40
    ensures (x * 0x40 + y) * 0x40 + z == x * 0x1000 + y * 0x40 + z
    ensures (x * 0x1000 + y * 0x40 + z) % 0x40 == z
    ensures (x * 0x1000 + y * 0x40 + z) / 0x40 == x * 0x40 + y
    ensures (x * 0x40 + y) % 0x40 == y && (x * 0x40 + y) / 0x40 == x
  {
    LastDigit(x * 0x40 + y, z);
    LastDigit(x, y);
  }

  lemma DecodedCodePoint(b: seq<Byte>)
    requires b != [] && SequenceLength(b) > 0
    ensures Utf8OfCodePoint(DecodeSequence(b)) == b[..SequenceLength(b)]
  {
    var lead: int := b[0];
    match SequenceLength(b)
    case 1 =>
    case 2 =>
    case 3 =>
      Base64Digits(lead - 0xE0, Payload(b[1]), Payload(b[2]));
    case 4 =>
      var x, y, z, w := lead - 0xF0, Payload(b[1]), Payload(b[2]), Payload(b[3]);
      Base64Digits(x * 0x40 + y, z, w);
      Base64Digits(x, y, z);
      assert DecodeSequence(b) / 0x1000 == DecodeSequence(b) / 0x40 / 0x40;
      assert DecodeSequence(b) / 0x4_0000 == DecodeSequence(b) / 0x40 / 0x40 / 0x40;
  }

  lemma Utf16Spells(c: nat, rest: Text)
    requires c < 0x11_0000 && !(0xD800 <= c < 0xE000)
    ensures var s := Utf16Of(c) + rest;
            StartsWell(s) && CodePointLength(s) == |Utf16Of(c)| && CodePoint(s) == c
  {
  }

  /** What the strict decoder accepts is exactly the UTF-8 of well-formed strings: no second spelling gets through. */
  lemma {:induction false} Utf8DecodeIsStrict(b: seq<Byte>)
    requires Utf8Decode(b).Some?
    ensures WellFormed(Utf8Decode(b).value)
    ensures Utf8OfText(Utf8Decode(b).value) == b
  {
    if b != [] {
      var n := SequenceLength(b);
      Utf8DecodeIsStrict(b[n..]);
      PrependDecoded(b, n, Utf8Decode(b[n..]).value);
    }
  }

  lemma PrependDecoded(b: seq<Byte>, n: nat, rest: Text)
    requires b != [] && n == SequenceLength(b) > 0 && WellFormed(rest) && Utf8OfText(rest) == b[n..]
    ensures WellFormed(Utf16Of(DecodeSequence(b)) + rest)
    ensures Utf8OfText(Utf16Of(DecodeSequence(b)) + rest) == b
  {
    DecodedCodePoint(b);
    Prepend(DecodeSequence(b), rest);
    assert b == b[..n] + b[n..];
  }

  lemma Prepend(c: nat, rest: Text)
    requires c < 0x11_0000 && !(0xD800 <= c < 0xE000) && WellFormed(rest)
    ensures WellFormed(Utf16Of(c) + rest)
    ensures Utf8OfText(Utf16Of(c) + rest) == Utf8OfCodePoint(c) + Utf8OfText(rest)
  {
    Utf16Spells(c, rest);
    assert (Utf16Of(c) + rest)[|Utf16Of(c)|..] == rest;
  }
}
