/** Base64 as `Buffer` writes and reads it (section 4 of RFC 4648), on bytes given as numbers. */
module Base64 {
  import Utf8

  type Byte = Utf8.Byte
  type Sextet = v: int | 0 <= v < 64

  function Letter(v: Sextet): (c: char) {
    if v < 26 then 'A' + v as char
    else if v < 52 then 'a' + (v - 26) as char
    else if v < 62 then '0' + (v - 52) as char
    else if v == 62 then '+' else '/'
  }

  /** The value of a letter; any other character counts as nothing. */
  function ValueOf(c: char): int {
    if 'A' <= c <= 'Z' then c as int - 'A' as int
    else if 'a' <= c <= 'z' then c as int - 'a' as int + 26
    else if '0' <= c <= '9' then c as int - '0' as int + 52
    else if c == '+' then 62 else if c == '/' then 63 else -1
  }

  lemma LetterReadsBack(v: Sextet)
    ensures ValueOf(Letter(v)) == v && Letter(v) != '='
  {
  }

  function FirstSextet(x: Byte): Sextet {
    x / 4
  }

  function SecondSextet(x: Byte, y: Byte): Sextet {
    x % 4 * 16 + y / 16
  }

  function ThirdSextet(y: Byte, z: Byte): Sextet {
    y % 16 * 4 + z / 64
  }

  function FourthSextet(z: Byte): Sextet {
    z % 64
  }

  /** A group of three bytes and its four sextets are one 24-bit number. */
  lemma GroupIsOneNumber(x: Byte, y: Byte, z: Byte)
    ensures FirstSextet(x) * 0x4_0000 + SecondSextet(x, y) * 0x1000 + ThirdSextet(y, z) * 0x40 + FourthSextet(z)
         == x * 0x1_0000 + y * 0x100 + z
  {
  }

  /** The sextets of some bytes, the last one filled up with zero bits. */
  function Split(bytes: seq<Byte>): (v: seq<Sextet>) {
    if |bytes| == 0 then []
    else if |bytes| == 1 then [FirstSextet(bytes[0]), SecondSextet(bytes[0], 0)]
    else if |bytes| == 2 then
      [FirstSextet(bytes[0]), SecondSextet(bytes[0], bytes[1]), ThirdSextet(bytes[1], 0)]
    else
      [FirstSextet(bytes[0]), SecondSextet(bytes[0], bytes[1]), ThirdSextet(bytes[1], bytes[2]), FourthSextet(bytes[2])]
      + Split(bytes[3..])
  }

  /** Three bytes become four letters; one or two left over are padded. */
  function Encode(bytes: seq<Byte>): (text: string) {
    if |bytes| == 0 then ""
    else if |bytes| == 1 then
      [Letter(FirstSextet(bytes[0])), Letter(SecondSextet(bytes[0], 0)), '=', '=']
    else if |bytes| == 2 then
      [Letter(FirstSextet(bytes[0])), Letter(SecondSextet(bytes[0], bytes[1])), Letter(ThirdSextet(bytes[1], 0)), '=']
    else
      [Letter(FirstSextet(bytes[0])), Letter(SecondSextet(bytes[0], bytes[1])), Letter(ThirdSextet(bytes[1], bytes[2])),
       Letter(FourthSextet(bytes[2]))] + Encode(bytes[3..])
  }

  /** Some of the test vectors of section 10 of RFC 4648: the unused bits of a padded group are zero. */
  lemma EncodesTheVectors()
    ensures Encode([0x66]) == "Zg==" && Encode([0x66, 0x6F]) == "Zm8=" && Encode([0x66, 0x6F, 0x6F]) == "Zm9v"
  {
  }

  /** The sextets of a text up to its padding. */
  function Sextets(text: string): seq<Sextet> {
    if text == "" || text[0] == '=' then []
    else if ValueOf(text[0]) < 0 then Sextets(text[1..])
    else [ValueOf(text[0])] + Sextets(text[1..])
  }

  function FirstByte(a: int, b: int): Byte
    requires 0 <= a < 64 && 0 <= b < 64
  {
    a * 4 + b / 16
  }

  function SecondByte(b: int, c: int): Byte
    requires 0 <= b < 64 && 0 <= c < 64
  {
    b % 16 * 16 + c / 4
  }

  function ThirdByte(c: int, d: int): Byte
    requires 0 <= c < 64 && 0 <= d < 64
  {
    c % 4 * 64 + d
  }

  /** Four sextets make three bytes, three make two, two make one. */
  function Pack(v: seq<Sextet>): (bytes: seq<Byte>) {
    if |v| < 2 then []
    else if |v| == 2 then [FirstByte(v[0], v[1])]
    else if |v| == 3 then [FirstByte(v[0], v[1]), SecondByte(v[1], v[2])]
    else [FirstByte(v[0], v[1]), SecondByte(v[1], v[2]), ThirdByte(v[2], v[3])] + Pack(v[4..])
  }

  function Decode(text: string): (bytes: seq<Byte>) {
    Pack(Sextets(text))
  }

  lemma SextetsOfLetter(v: Sextet, rest: string)
    ensures Sextets([Letter(v)] + rest) == [v] + Sextets(rest)
  {
    LetterReadsBack(v);
    assert ([Letter(v)] + rest)[1..] == rest;
  }

  lemma SextetsOfTwo(a: Sextet, b: Sextet, rest: string)
    ensures Sextets([Letter(a), Letter(b)] + rest) == [a, b] + Sextets(rest)
  {
    assert [Letter(a), Letter(b)] + rest == [Letter(a)] + ([Letter(b)] + rest);
    SextetsOfLetter(a, [Letter(b)] + rest);
    SextetsOfLetter(b, rest);
  }

  lemma SextetsOfGroup(a: Sextet, b: Sextet, c: Sextet, d: Sextet, rest: string)
    ensures Sextets([Letter(a), Letter(b), Letter(c), Letter(d)] + rest) == [a, b, c, d] + Sextets(rest)
  {
    SextetsOfTwo(c, d, rest);
    SextetsOfTwo(a, b, [Letter(c), Letter(d)] + rest);
    assert [Letter(a), Letter(b), Letter(c), Letter(d)] + rest
        == [Letter(a), Letter(b)] + ([Letter(c), Letter(d)] + rest);
  }

  lemma SextetsOfOneByte(a: Sextet, b: Sextet)
    ensures Sextets([Letter(a), Letter(b), '=', '=']) == [a, b]
  {
    var pad := ['=', '='];
    SextetsOfTwo(a, b, pad);
    assert [Letter(a), Letter(b), '=', '='] == [Letter(a), Letter(b)] + pad;
    assert Sextets(pad) == [];
  }

  lemma SextetsOfTwoBytes(a: Sextet, b: Sextet, c: Sextet)
    ensures Sextets([Letter(a), Letter(b), Letter(c), '=']) == [a, b, c]
  {
    var pad := ['='];
    SextetsOfTwo(a, b, [Letter(c)] + pad);
    SextetsOfLetter(c, pad);
    assert [Letter(a), Letter(b), Letter(c), '='] == [Letter(a), Letter(b)] + ([Letter(c)] + pad);
    assert Sextets(pad) == [];
  }

  lemma {:induction false} SextetsOfEncoding(bytes: seq<Byte>)
    ensures Sextets(Encode(bytes)) == Split(bytes)
  {
    if |bytes| == 1 {
      SextetsOfOneByte(FirstSextet(bytes[0]), SecondSextet(bytes[0], 0));
    } else if |bytes| == 2 {
      SextetsOfTwoBytes(FirstSextet(bytes[0]), SecondSextet(bytes[0], bytes[1]), ThirdSextet(bytes[1], 0));
    } else if |bytes| > 2 {
      SextetsOfEncoding(bytes[3..]);
      SextetsOfGroup(FirstSextet(bytes[0]), SecondSextet(bytes[0], bytes[1]), ThirdSextet(bytes[1], bytes[2]),
                     FourthSextet(bytes[2]), Encode(bytes[3..]));
    }
  }

  lemma FirstReadsBack(x: Byte, y: Byte)
    ensures FirstByte(FirstSextet(x), SecondSextet(x, y)) == x
  {
  }

  lemma SecondReadsBack(x: Byte, y: Byte, z: Byte)
    ensures SecondByte(SecondSextet(x, y), ThirdSextet(y, z)) == y
  {
    assert SecondSextet(x, y) % 16 == y / 16;
    assert ThirdSextet(y, z) / 4 == y % 16;
  }

  lemma ThirdReadsBack(y: Byte, z: Byte)
    ensures ThirdByte(ThirdSextet(y, z), FourthSextet(z)) == z
  {
    assert ThirdSextet(y, z) % 4 == z / 64;
    assert z == z / 64 * 64 + z % 64;
  }

  lemma PackGroup(a: Sextet, b: Sextet, c: Sextet, d: Sextet, rest: seq<Sextet>)
    ensures Pack([a, b, c, d] + rest) == [FirstByte(a, b), SecondByte(b, c), ThirdByte(c, d)] + Pack(rest)
  {
    var v := [a, b, c, d] + rest;
    assert v[4..] == rest;
  }

  lemma {:induction false} PackSplit(bytes: seq<Byte>)
    ensures Pack(Split(bytes)) == bytes
  {
    if |bytes| == 1 {
      FirstReadsBack(bytes[0], 0);
    } else if |bytes| == 2 {
      FirstReadsBack(bytes[0], bytes[1]);
      SecondReadsBack(bytes[0], bytes[1], 0);
    } else if |bytes| > 2 {
      var x, y, z, rest := bytes[0], bytes[1], bytes[2], bytes[3..];
      PackSplit(rest);
      PackGroup(FirstSextet(x), SecondSextet(x, y), ThirdSextet(y, z), FourthSextet(z), Split(rest));
      FirstReadsBack(x, y);
      SecondReadsBack(x, y, z);
      ThirdReadsBack(y, z);
      assert bytes == [x, y, z] + rest;
    }
  }

  /** Decoding undoes encoding, for every byte string. */
  lemma Base64RoundTrip(bytes: seq<Byte>)
    ensures Decode(Encode(bytes)) == bytes
  {
    SextetsOfEncoding(bytes);
    PackSplit(bytes);
  }
}
