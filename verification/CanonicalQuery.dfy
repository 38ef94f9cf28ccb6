/** The canonical query that both sides of the CMS feeds sign (src/lib/cmsSignature.ts). */
module CanonicalQuery {
  import opened Prelude
  import opened Utf8
  import opened PercentCoding
  import opened StableSort

  const AMPERSAND: Unit := 0x26
  const EQUALS: Unit := 0x3D

  datatype Pair = Pair(key: Text, value: Text)

  datatype Result = Ok(canonical: Text, params: map<Text, Text>) | BadEncoding | DuplicateKey

  // ----- splitting and joining -----

  /** `split('&')`; never empty. */
  function Split(s: Text): (r: seq<Text>)
    ensures r != []
  {
    if s == [] then [[]]
    else
      var rest := Split(s[1..]);
      if s[0] == AMPERSAND then [[]] + rest else [[s[0]] + rest[0]] + rest[1..]
  }

  /** `join('&')`. */
  function Join(segments: seq<Text>): Text {
    if segments == [] then []
    else if |segments| == 1 then segments[0]
    else segments[0] + [AMPERSAND] + Join(segments[1..])
  }

  lemma {:induction false} SplitFront(a: Text, rest: Text)
    requires AMPERSAND !in a
    ensures Split(a + [AMPERSAND] + rest) == [a] + Split(rest)
    ensures Split(a) == [a]
  {
    var s := a + [AMPERSAND] + rest;
    if a == [] {
      assert s[1..] == rest;
    } else {
      assert s[1..] == a[1..] + [AMPERSAND] + rest;
      SplitFront(a[1..], rest);
      assert a == [a[0]] + a[1..];
      assert ([a[1..]] + Split(rest))[1..] == Split(rest);
    }
  }

  lemma {:induction false} SplitJoin(segments: seq<Text>)
    requires segments != [] && forall i :: 0 <= i < |segments| ==> AMPERSAND !in segments[i]
    ensures Split(Join(segments)) == segments
  {
    if |segments| == 1 {
      SplitFront(segments[0], []);
    } else {
      SplitJoin(segments[1..]);
      SplitFront(segments[0], Join(segments[1..]));
    }
  }

  /** Cuts a segment at its FIRST `=`; without one the value is empty. */
  function Cut(s: Text): Pair {
    if s == [] then Pair([], [])
    else if s[0] == EQUALS then Pair([], s[1..])
    else
      var rest := Cut(s[1..]);
      Pair([s[0]] + rest.key, rest.value)
  }

  lemma {:induction false} CutRendered(key: Text, value: Text)
    requires EQUALS !in key
    ensures Cut(key + [EQUALS] + value) == Pair(key, value)
  {
    var s := key + [EQUALS] + value;
    if key == [] {
      assert s[1..] == value;
    } else {
      assert s[1..] == key[1..] + [EQUALS] + value;
      CutRendered(key[1..], value);
    }
  }

  // ----- order of keys -----

  /** JavaScript's `<` on strings: by code unit. */
  function CompareText(a: Text, b: Text): int {
    if a == [] then (if b == [] then 0 else -1)
    else if b == [] then 1
    else if a[0] < b[0] then -1
    else if a[0] > b[0] then 1
    else CompareText(a[1..], b[1..])
  }

  function ByKey(): (Pair, Pair) -> int {
    (p: Pair, q: Pair) => CompareText(p.key, q.key)
  }

  lemma {:induction false} CompareIsTotal(a: Text, b: Text)
    ensures CompareText(a, b) <= 0 || CompareText(b, a) <= 0
    ensures CompareText(a, b) <= 0 && CompareText(b, a) <= 0 ==> a == b
  {
    if a != [] && b != [] && a[0] == b[0] {
      CompareIsTotal(a[1..], b[1..]);
      assert a == [a[0]] + a[1..] && b == [b[0]] + b[1..];
    }
  }

  lemma {:induction false} CompareTransitive(a: Text, b: Text, c: Text)
    requires CompareText(a, b) <= 0 && CompareText(b, c) <= 0
    ensures CompareText(a, c) <= 0
  {
    if a != [] && b != [] && c != [] && a[0] == b[0] == c[0] {
      CompareTransitive(a[1..], b[1..], c[1..]);
    }
  }

  lemma ByKeyOrders()
    ensures TotalPreorder(ByKey())
  {
    forall p: Pair, q: Pair {
      CompareIsTotal(p.key, q.key);
    }
    forall p: Pair, q: Pair, r: Pair | ByKey()(p, q) <= 0 && ByKey()(q, r) <= 0 {
      CompareTransitive(p.key, q.key, r.key);
    }
  }

  ghost predicate DistinctKeys(ps: seq<Pair>) {
    forall i, j :: 0 <= i < j < |ps| ==> ps[i].key != ps[j].key
  }

  function HasKey(k: Text): Pair -> bool { (p: Pair) => p.key == k }

  lemma DistinctKeysPermuted(a: seq<Pair>, b: seq<Pair>)
    requires DistinctKeys(a) && multiset(a) == multiset(b)
    ensures DistinctKeys(b)
  {
    forall i, j | 0 <= i < j < |b|
      ensures b[i].key != b[j].key
    {
      if b[i].key == b[j].key {
        CountTwo(HasKey(b[i].key), b, i, j);
        CountAtMostOne(HasKey(b[i].key), a);
        CountPermutation(HasKey(b[i].key), a, b);
      }
    }
  }

  lemma DistinctKeysNoTies(ps: seq<Pair>)
    requires DistinctKeys(ps)
    ensures NoTies(ByKey(), ps)
  {
    forall i, j | 0 <= i < |ps| && 0 <= j < |ps| && ByKey()(ps[i], ps[j]) <= 0 && ByKey()(ps[j], ps[i]) <= 0
      ensures ps[i] == ps[j]
    {
      CompareIsTotal(ps[i].key, ps[j].key);
    }
  }

  // ----- the canonical text -----

  function EncodePair(): Pair -> Pair { (p: Pair) => Pair(Encode(p.key), Encode(p.value)) }

  function Render(): Pair -> Text { (p: Pair) => p.key + [EQUALS] + p.value }

  /** Encode, sort by encoded key, join. */
  function CanonicalOf(ps: seq<Pair>): Text {
    Join(Map(Render(), Sort(ByKey(), Map(EncodePair(), ps))))
  }

  predicate WellFormedPair(p: Pair) {
    WellFormed(p.key) && WellFormed(p.value)
  }

  predicate NoBom(s: Text) {
    s == [] || s[0] != BOM
  }

  predicate NoBomPair(p: Pair) {
    NoBom(p.key) && NoBom(p.value)
  }

  /** `buildCanonicalQuery` of an object's entries; None where it throws, on a lone surrogate. */
  function BuildCanonicalQuery(entries: seq<Pair>): Option<Text> {
    if forall p :: p in entries ==> Rfc3986Encode(p.key).Some? && Rfc3986Encode(p.value).Some?
    then Some(CanonicalOf(entries)) else None
  }

  // ----- reading a query -----

  function ParseSegment(segment: Text): Option<Pair> {
    var raw := Cut(segment);
    var key, value := Decode(raw.key), Decode(raw.value);
    if key.None? || value.None? then None else Some(Pair(key.value, value.value))
  }

  predicate HasRepeat(ps: seq<Pair>, key: Text) {
    exists q :: q in ps && q.key == key
  }

  datatype ReadResult = Pairs(pairs: seq<Pair>) | Bad | Duplicate

  /** The loop of `canonicalizeQuery` over the segments: the first offending segment decides the failure. */
  function Read(segments: seq<Text>): ReadResult {
    if segments == [] then Pairs([])
    else
      var before, segment := Read(segments[..|segments| - 1]), segments[|segments| - 1];
      if !before.Pairs? || segment == [] then before
      else
        var p := ParseSegment(segment);
        if p.None? then Bad
        else if HasRepeat(before.pairs, p.value.key) then Duplicate
        else Pairs(before.pairs + [p.value])
  }

  function ParamsOf(ps: seq<Pair>): map<Text, Text> {
    if ps == [] then map[] else ParamsOf(ps[..|ps| - 1])[ps[|ps| - 1].key := ps[|ps| - 1].value]
  }

  function Canonicalize(rawQuery: Text): Result {
    match Read(Split(rawQuery))
    case Pairs(ps) => Ok(CanonicalOf(ps), ParamsOf(ps))
    case Bad => BadEncoding
    case Duplicate => DuplicateKey
  }

  function Get(r: Option<Pair>): Pair {
    if r.Some? then r.value else Pair([], [])
  }

  function ParsedTo(p: Pair): Text -> bool {
    (segment: Text) => segment != [] && Get(ParseSegment(segment)) == p
  }

  function FailsToParse(): Text -> bool {
    (segment: Text) => segment != [] && ParseSegment(segment).None?
  }

  /** The pairs of the non-empty segments, in order. */
  function Parsed(segments: seq<Text>): seq<Pair> {
    if segments == [] then []
    else
      var before, segment := Parsed(segments[..|segments| - 1]), segments[|segments| - 1];
      if segment == [] then before else before + [Get(ParseSegment(segment))]
  }

  /** A query is accepted exactly when every segment decodes and no key repeats. */
  lemma {:induction false} ReadIff(segments: seq<Text>)
    ensures Read(segments).Pairs? <==> Count(FailsToParse(), segments) == 0 && DistinctKeys(Parsed(segments))
    ensures Read(segments).Pairs? ==> Read(segments).pairs == Parsed(segments)
  {
    if segments != [] {
      var front, last := segments[..|segments| - 1], segments[|segments| - 1];
      ReadIff(front);
      CountLast(FailsToParse(), segments);
      if last != [] {
        DistinctKeysAppend(Parsed(front), Get(ParseSegment(last)));
      }
    }
  }

  lemma DistinctKeysAppend(ps: seq<Pair>, p: Pair)
    ensures DistinctKeys(ps + [p]) <==> DistinctKeys(ps) && !HasRepeat(ps, p.key)
  {
    var all := ps + [p];
    if DistinctKeys(all) {
      forall i, j | 0 <= i < j < |ps|
        ensures ps[i].key != ps[j].key
      {
        assert all[i] == ps[i] && all[j] == ps[j];
      }
      forall q | q in ps
        ensures q.key != p.key
      {
        var i :| 0 <= i < |ps| && ps[i] == q;
        assert all[i] == q && all[|ps|] == p;
      }
    }
  }

  lemma {:induction false} ParsedCopies(segments: seq<Text>, p: Pair)
    ensures Copies(Parsed(segments), p) == Count(ParsedTo(p), segments)
  {
    if segments != [] {
      var front, last := segments[..|segments| - 1], segments[|segments| - 1];
      ParsedCopies(front, p);
      assert segments == front + [last];
      CountConcat(ParsedTo(p), front, [last]);
      CountConcat(Is(p), Parsed(front), [Get(ParseSegment(last))]);
    }
  }

  lemma ParsedPermuted(a: seq<Text>, b: seq<Text>)
    requires multiset(a) == multiset(b)
    ensures multiset(Parsed(a)) == multiset(Parsed(b))
  {
    forall p: Pair
      ensures Copies(Parsed(a), p) == Copies(Parsed(b), p)
    {
      ParsedCopies(a, p);
      ParsedCopies(b, p);
      CountPermutation(ParsedTo(p), a, b);
    }
    SameCopiesSameMultiset(Parsed(a), Parsed(b));
  }

  lemma {:induction false} ParsedWellFormed(segments: seq<Text>)
    ensures forall p :: p in Parsed(segments) ==> WellFormedPair(p)
  {
    if segments != [] {
      ParsedWellFormed(segments[..|segments| - 1]);
      var raw := Cut(segments[|segments| - 1]);
      if Decode(raw.key).Some? {
        DecodedIsWellFormed(raw.key);
      }
      if Decode(raw.value).Some? {
        DecodedIsWellFormed(raw.value);
      }
    }
  }

  lemma EncodedDistinct(ps: seq<Pair>)
    requires DistinctKeys(ps) && forall p :: p in ps ==> WellFormedPair(p)
    ensures DistinctKeys(Map(EncodePair(), ps))
  {
    forall i, j | 0 <= i < j < |ps|
      ensures Map(EncodePair(), ps)[i].key != Map(EncodePair(), ps)[j].key
    {
      assert ps[i] in ps && ps[j] in ps;
      if Encode(ps[i].key) == Encode(ps[j].key) {
        EncodeInjective(ps[i].key, ps[j].key);
      }
    }
  }

  /** The canonical text depends on which pairs there are, not on their order. */
  lemma CanonicalForgetsOrder(a: seq<Pair>, b: seq<Pair>)
    requires multiset(a) == multiset(b)
    requires DistinctKeys(a) && forall p :: p in a ==> WellFormedPair(p)
    ensures CanonicalOf(a) == CanonicalOf(b)
  {
    MapPermutation(EncodePair(), a, b);
    EncodedDistinct(a);
    DistinctKeysNoTies(Map(EncodePair(), a));
    ByKeyOrders();
    SortForgetsOrder(ByKey(), Map(EncodePair(), a), Map(EncodePair(), b));
  }

  lemma {:induction false} ParamsAre(ps: seq<Pair>, k: Text, v: Text)
    requires DistinctKeys(ps)
    ensures k in ParamsOf(ps) && ParamsOf(ps)[k] == v <==> Pair(k, v) in ps
  {
    if ps != [] {
      var front, last := ps[..|ps| - 1], ps[|ps| - 1];
      assert ps == front + [last];
      ParamsAre(front, k, v);
      DistinctKeysAppend(front, last);
    }
  }

  lemma ParamsInclude(a: seq<Pair>, b: seq<Pair>, k: Text)
    requires multiset(a) == multiset(b) && DistinctKeys(a) && DistinctKeys(b) && k in ParamsOf(a)
    ensures k in ParamsOf(b) && ParamsOf(b)[k] == ParamsOf(a)[k]
  {
    var v := ParamsOf(a)[k];
    ParamsAre(a, k, v);
    ParamsAre(b, k, v);
    assert Pair(k, v) in multiset(b);
  }

  lemma ParamsForgetOrder(a: seq<Pair>, b: seq<Pair>)
    requires multiset(a) == multiset(b) && DistinctKeys(a)
    ensures ParamsOf(a) == ParamsOf(b)
  {
    DistinctKeysPermuted(a, b);
    forall k | k in ParamsOf(a) {
      ParamsInclude(a, b, k);
    }
    forall k | k in ParamsOf(b) {
      ParamsInclude(b, a, k);
    }
  }

  /** Permuting the `&` segments changes neither acceptance nor the canonical text nor the parameters. */
  lemma SegmentOrderIrrelevant(a: Text, b: Text)
    requires multiset(Split(a)) == multiset(Split(b))
    ensures Canonicalize(a).Ok? <==> Canonicalize(b).Ok?
    ensures Canonicalize(a).Ok? ==> Canonicalize(a) == Canonicalize(b)
  {
    var s, t := Split(a), Split(b);
    ReadIff(s);
    ReadIff(t);
    CountPermutation(FailsToParse(), s, t);
    ParsedPermuted(s, t);
    if DistinctKeys(Parsed(s)) {
      DistinctKeysPermuted(Parsed(s), Parsed(t));
      ParsedWellFormed(s);
      CanonicalForgetsOrder(Parsed(s), Parsed(t));
      ParamsForgetOrder(Parsed(s), Parsed(t));
    } else if DistinctKeys(Parsed(t)) {
      DistinctKeysPermuted(Parsed(t), Parsed(s));
    }
  }

  // ----- round trip and fixed points -----

  /** What is left of a pair once a leading U+FEFF is dropped. */
  function Stripped(): Pair -> Pair { (p: Pair) => Pair(DropBom(p.key), DropBom(p.value)) }

  function ByEncodedKey(): (Pair, Pair) -> int {
    (p: Pair, q: Pair) => CompareText(Encode(p.key), Encode(q.key))
  }

  /** The pairs in the order their segments stand in the canonical text. */
  function Arranged(ps: seq<Pair>): seq<Pair> {
    Sort(ByEncodedKey(), ps)
  }

  function Segment(p: Pair): Text {
    Encode(p.key) + [EQUALS] + Encode(p.value)
  }

  function SegmentOf(): Pair -> Text { (p: Pair) => Segment(p) }

  lemma EncodedAvoids(s: Text)
    ensures AMPERSAND !in Encode(s) && EQUALS !in Encode(s)
  {
    EncodedAlphabet(Utf8OfText(s));
  }

  lemma SegmentRoundTrip(p: Pair)
    requires WellFormedPair(p)
    ensures Segment(p) != [] && AMPERSAND !in Segment(p)
    ensures ParseSegment(Segment(p)) == Some(Pair(DropBom(p.key), DropBom(p.value)))
  {
    EncodedAvoids(p.key);
    EncodedAvoids(p.value);
    CutRendered(Encode(p.key), Encode(p.value));
    TextRoundTrip(p.key);
    TextRoundTrip(p.value);
  }

  lemma CanonicalIsArranged(ps: seq<Pair>)
    ensures CanonicalOf(ps) == Join(Map(SegmentOf(), Arranged(ps)))
    ensures multiset(Arranged(ps)) == multiset(ps)
  {
    SortMap(ByKey(), ByEncodedKey(), EncodePair(), ps);
    SortPermutes(ByEncodedKey(), ps);
    assert Map(Render(), Map(EncodePair(), Arranged(ps))) == Map(SegmentOf(), Arranged(ps));
  }

  lemma {:induction false} ParsedRendered(ps: seq<Pair>)
    requires forall p :: p in ps ==> WellFormedPair(p)
    ensures Parsed(Map(SegmentOf(), ps)) == Map(Stripped(), ps)
    ensures Count(FailsToParse(), Map(SegmentOf(), ps)) == 0
  {
    if ps != [] {
      var front, last := ps[..|ps| - 1], ps[|ps| - 1];
      ParsedRendered(front);
      SegmentRoundTrip(last);
      MapLast(SegmentOf(), ps);
      MapLast(Stripped(), ps);
      CountLast(FailsToParse(), Map(SegmentOf(), ps));
    }
  }

  /** Reading the canonical text of some pairs gives those pairs back, stripped. */
  lemma ReadCanonical(ps: seq<Pair>)
    requires forall p :: p in ps ==> WellFormedPair(p)
    ensures Count(FailsToParse(), Split(CanonicalOf(ps))) == 0
    ensures Parsed(Split(CanonicalOf(ps))) == Map(Stripped(), Arranged(ps))
  {
    CanonicalIsArranged(ps);
    var arranged := Arranged(ps);
    forall p | p in arranged
      ensures WellFormedPair(p)
    {
      assert p in multiset(arranged);
    }
    var segments := Map(SegmentOf(), arranged);
    if ps == [] {
      assert Split([]) == [[]];
      assert Parsed([[]]) == Parsed([[]][..0]);
      assert arranged == [];
    } else {
      forall i | 0 <= i < |segments|
        ensures AMPERSAND !in segments[i]
      {
        SegmentRoundTrip(arranged[i]);
      }
      SplitJoin(segments);
      ParsedRendered(arranged);
    }
  }

  ghost predicate Sendable(entries: seq<Pair>) {
    DistinctKeys(entries) && forall p :: p in entries ==> WellFormedPair(p) && NoBomPair(p)
  }

  lemma BuildsCanonical(entries: seq<Pair>)
    ensures BuildCanonicalQuery(entries)
         == if forall p :: p in entries ==> WellFormedPair(p) then Some(CanonicalOf(entries)) else None
  {
    forall p | p in entries
      ensures Rfc3986Encode(p.key).Some? && Rfc3986Encode(p.value).Some? <==> WellFormedPair(p)
    {
      EncodesAsRfc3986(p.key);
      EncodesAsRfc3986(p.value);
    }
  }

  lemma NothingToStrip(ps: seq<Pair>)
    requires forall p :: p in ps ==> NoBomPair(p)
    ensures Map(Stripped(), Arranged(ps)) == Arranged(ps)
  {
    CanonicalIsArranged(ps);
    forall i | 0 <= i < |ps|
      ensures Stripped()(Arranged(ps)[i]) == Arranged(ps)[i]
    {
      assert Arranged(ps)[i] in multiset(Arranged(ps));
      assert Arranged(ps)[i] in ps;
    }
  }

  /**
   * Every set of well-formed parameters with distinct names and no leading U+FEFF survives the trip: the built query
   * is accepted, gives the same parameters back, and is its own canonical text.
   */
  lemma QueryRoundTrip(entries: seq<Pair>)
    requires Sendable(entries)
    ensures BuildCanonicalQuery(entries) == Some(CanonicalOf(entries))
    ensures Canonicalize(CanonicalOf(entries)) == Ok(CanonicalOf(entries), ParamsOf(entries))
  {
    BuildsCanonical(entries);
    CanonicalIsArranged(entries);
    NothingToStrip(entries);
    ReadCanonical(entries);
    ReadIff(Split(CanonicalOf(entries)));
    DistinctKeysPermuted(entries, Arranged(entries));
    CanonicalForgetsOrder(entries, Arranged(entries));
    ParamsForgetOrder(entries, Arranged(entries));
  }

  /** Two such sets of parameters have the same canonical text exactly when they are the same parameters. */
  lemma CanonicalDetermines(a: seq<Pair>, b: seq<Pair>)
    requires Sendable(a) && Sendable(b)
    ensures CanonicalOf(a) == CanonicalOf(b) <==> ParamsOf(a) == ParamsOf(b)
  {
    QueryRoundTrip(a);
    QueryRoundTrip(b);
    if ParamsOf(a) == ParamsOf(b) {
      SameParamsPermuted(a, b);
      CanonicalForgetsOrder(a, b);
    }
  }

  lemma SameParamsPermuted(a: seq<Pair>, b: seq<Pair>)
    requires DistinctKeys(a) && DistinctKeys(b) && ParamsOf(a) == ParamsOf(b)
    ensures multiset(a) == multiset(b)
  {
    forall p: Pair
      ensures Copies(a, p) == Copies(b, p)
    {
      ParamsAre(a, p.key, p.value);
      ParamsAre(b, p.key, p.value);
      CopiesOfDistinct(a, p);
      CopiesOfDistinct(b, p);
    }
    SameCopiesSameMultiset(a, b);
  }

  lemma CopiesOfDistinct(ps: seq<Pair>, p: Pair)
    requires DistinctKeys(ps)
    ensures Copies(ps, p) == if p in ps then 1 else 0
  {
    CountAtMostOne(Is(p), ps);
    CopiesIsMultiplicity(ps, p);
  }

  function KeyAndValueLength(): Pair -> nat { (p: Pair) => |Encode(p.key)| + |Encode(p.value)| }

  lemma {:induction false} JoinLength(ps: seq<Pair>)
    ensures |Join(Map(SegmentOf(), ps))| == Sum(KeyAndValueLength(), ps) + |ps| + (if ps == [] then 0 else |ps| - 1)
  {
    if ps != [] {
      assert |Segment(ps[0])| == KeyAndValueLength()(ps[0]) + 1;
      MapHead(SegmentOf(), ps);
      JoinLength(ps[1..]);
    }
  }

  /** The length of a canonical text. */
  lemma CanonicalLength(ps: seq<Pair>)
    ensures |CanonicalOf(ps)| == Sum(KeyAndValueLength(), ps) + |ps| + (if ps == [] then 0 else |ps| - 1)
  {
    CanonicalIsArranged(ps);
    JoinLength(Arranged(ps));
    SumPermutation(KeyAndValueLength(), Arranged(ps), ps);
  }

  /** Dropping a leading U+FEFF shortens the encoding, by the nine characters %EF%BB%BF. */
  lemma StrippedIsShorter(s: Text)
    ensures |Encode(DropBom(s))| <= |Encode(s)|
    ensures !NoBom(s) ==> |Encode(DropBom(s))| < |Encode(s)|
  {
    if !NoBom(s) {
      assert Utf8OfText(s) == Utf8OfFirst(s) + Utf8OfText(s[1..]);
      EncodeBytesConcat(Utf8OfFirst(s), Utf8OfText(s[1..]));
      assert EncodeBytes(Utf8OfFirst(s)) != [] by {
        var e := EncodeByte(Utf8OfFirst(s)[0]);
      }
    }
  }

  lemma {:induction false} StrippedSumIsShorter(ps: seq<Pair>)
    ensures Sum(KeyAndValueLength(), Map(Stripped(), ps)) <= Sum(KeyAndValueLength(), ps)
    ensures (exists p :: p in ps && !NoBomPair(p)) ==>
              Sum(KeyAndValueLength(), Map(Stripped(), ps)) < Sum(KeyAndValueLength(), ps)
  {
    if ps != [] {
      assert Map(Stripped(), ps)[1..] == Map(Stripped(), ps[1..]);
      StrippedSumIsShorter(ps[1..]);
      StrippedIsShorter(ps[0].key);
      StrippedIsShorter(ps[0].value);
    }
  }

  /**
   * The canonical text of an accepted query is a fixed point — read again it gives the same text and parameters —
   * exactly when no decoded name or value begins with U+FEFF. (The decoder drops one; `%EF%BB%BF%EF%BB%BF` decodes to
   * a single U+FEFF, and its canonical `%EF%BB%BF` decodes to nothing.)
   */
  lemma FixedPointIff(raw: Text)
    requires Canonicalize(raw).Ok?
    ensures var r := Canonicalize(raw);
            Canonicalize(r.canonical) == r <==> forall k :: k in r.params ==> NoBom(k) && NoBom(r.params[k])
  {
    var ps := Parsed(Split(raw));
    ReadIff(Split(raw));
    ParsedWellFormed(Split(raw));
    ParamsNoBom(ps);
    if forall p :: p in ps ==> NoBomPair(p) {
      QueryRoundTrip(ps);
    } else {
      var p :| p in ps && !NoBomPair(p);
      BomShrinks(ps, p);
    }
  }

  /** With a leading U+FEFF somewhere, the canonical text does not read back as itself. */
  lemma BomShrinks(ps: seq<Pair>, p: Pair)
    requires forall q :: q in ps ==> WellFormedPair(q)
    requires p in ps && !NoBomPair(p)
    ensures Canonicalize(CanonicalOf(ps)).Ok? ==> |Canonicalize(CanonicalOf(ps)).canonical| < |CanonicalOf(ps)|
  {
    RereadCanonical(ps);
    CanonicalIsArranged(ps);
    var arranged := Arranged(ps);
    assert p in multiset(arranged);
    StrippedSumIsShorter(arranged);
    SumPermutation(KeyAndValueLength(), arranged, ps);
    CanonicalLength(ps);
    CanonicalLength(Map(Stripped(), arranged));
  }

  /** So of all well-formed parameters with distinct names, exactly those with no leading U+FEFF survive the trip. */
  lemma RoundTripIff(entries: seq<Pair>)
    requires DistinctKeys(entries) && forall p :: p in entries ==> WellFormedPair(p)
    ensures Canonicalize(CanonicalOf(entries)) == Ok(CanonicalOf(entries), ParamsOf(entries)) <==>
              forall p :: p in entries ==> NoBomPair(p)
  {
    if forall p :: p in entries ==> NoBomPair(p) {
      QueryRoundTrip(entries);
    } else {
      var p :| p in entries && !NoBomPair(p);
      BomShrinks(entries, p);
    }
  }

  /** One that does not: the parameter `a` with U+FEFF as its value is not read back. */
  lemma BomIsLost()
    ensures var entries := [Pair([0x61], [BOM])];
            && DistinctKeys(entries) && WellFormedPair(entries[0])
            && Canonicalize(CanonicalOf(entries)) != Ok(CanonicalOf(entries), ParamsOf(entries))
  {
    var entries := [Pair([0x61], [BOM])];
    assert WellFormed(entries[0].key) by {
      assert entries[0].key[1..] == [];
    }
    assert WellFormed(entries[0].value) by {
      assert entries[0].value[1..] == [];
    }
    RoundTripIff(entries);
    assert entries[0] in entries && !NoBomPair(entries[0]);
  }

  lemma RereadCanonical(ps: seq<Pair>)
    requires forall q :: q in ps ==> WellFormedPair(q)
    ensures Canonicalize(CanonicalOf(ps)).Ok? ==>
              Canonicalize(CanonicalOf(ps)).canonical == CanonicalOf(Map(Stripped(), Arranged(ps)))
  {
    ReadCanonical(ps);
    ReadIff(Split(CanonicalOf(ps)));
  }

  lemma ParamsNoBom(ps: seq<Pair>)
    requires DistinctKeys(ps)
    ensures (forall p :: p in ps ==> NoBomPair(p))
       <==> (forall k :: k in ParamsOf(ps) ==> NoBom(k) && NoBom(ParamsOf(ps)[k]))
  {
    forall p | p in ps
      ensures p.key in ParamsOf(ps) && ParamsOf(ps)[p.key] == p.value
    {
      ParamsAre(ps, p.key, p.value);
    }
    forall k | k in ParamsOf(ps)
      ensures Pair(k, ParamsOf(ps)[k]) in ps
    {
      ParamsAre(ps, k, ParamsOf(ps)[k]);
    }
  }

  // ----- the order of the segments, unit by unit -----

  /** `a` comes before `b`: it is a proper prefix, or its unit is the smaller one where they first differ. */
  ghost predicate Ascends(a: Text, b: Text) {
    || (|a| < |b| && b[..|a|] == a)
    || exists k :: 0 <= k < |a| && k < |b| && a[..k] == b[..k] && a[k] < b[k]
  }

  ghost predicate KeysAscend(canonical: Text) {
    var segments := Split(canonical);
    forall i, j :: 0 <= i < j < |segments| ==> Ascends(Cut(segments[i]).key, Cut(segments[j]).key)
  }

  lemma {:induction false} CompareAscends(a: Text, b: Text)
    requires CompareText(a, b) < 0
    ensures Ascends(a, b)
  {
    if a == [] {
      assert b[..|a|] == a;
    } else if a[0] < b[0] {
      assert a[..0] == b[..0];
    } else {
      CompareAscends(a[1..], b[1..]);
      var s, t := a[1..], b[1..];
      if |s| < |t| && t[..|s|] == s {
        assert b[..|a|] == [b[0]] + t[..|s|] == a;
      } else {
        var k :| 0 <= k < |s| && k < |t| && s[..k] == t[..k] && s[k] < t[k];
        assert a[..k + 1] == [a[0]] + s[..k] == [b[0]] + t[..k] == b[..k + 1];
        assert a[k + 1] == s[k] && b[k + 1] == t[k];
      }
    }
  }

  lemma {:induction false} OnlyEqualTie(a: Text, b: Text)
    requires CompareText(a, b) == 0
    ensures a == b
  {
    if a != [] {
      OnlyEqualTie(a[1..], b[1..]);
      assert a == [a[0]] + a[1..] && b == [b[0]] + b[1..];
    }
  }

  lemma ByEncodedKeyOrders()
    ensures TotalPreorder(ByEncodedKey())
  {
    forall p: Pair, q: Pair {
      CompareIsTotal(Encode(p.key), Encode(q.key));
    }
    forall p: Pair, q: Pair, r: Pair | ByEncodedKey()(p, q) <= 0 && ByEncodedKey()(q, r) <= 0 {
      CompareTransitive(Encode(p.key), Encode(q.key), Encode(r.key));
    }
  }

  lemma SegmentKey(p: Pair)
    ensures Cut(Segment(p)).key == Encode(p.key) && AMPERSAND !in Segment(p)
  {
    EncodedAvoids(p.key);
    EncodedAvoids(p.value);
    CutRendered(Encode(p.key), Encode(p.value));
  }

  lemma ArrangedAscends(ps: seq<Pair>, i: nat, j: nat)
    requires DistinctKeys(ps) && (forall p :: p in ps ==> WellFormedPair(p)) && i < j < |ps|
    ensures Ascends(Encode(Arranged(ps)[i].key), Encode(Arranged(ps)[j].key))
  {
    var arranged := Arranged(ps);
    ByEncodedKeyOrders();
    SortSorts(ByEncodedKey(), ps);
    SortPermutes(ByEncodedKey(), ps);
    DistinctKeysPermuted(ps, arranged);
    var a, b := arranged[i], arranged[j];
    assert a in multiset(arranged) && b in multiset(arranged);
    assert a in ps && b in ps && a.key != b.key;
    if Encode(a.key) == Encode(b.key) {
      EncodeInjective(a.key, b.key);
    }
    assert ByEncodedKey()(a, b) <= 0;
    if CompareText(Encode(a.key), Encode(b.key)) == 0 {
      OnlyEqualTie(Encode(a.key), Encode(b.key));
    }
    CompareAscends(Encode(a.key), Encode(b.key));
  }

  /** The segments of a canonical text stand in strictly ascending order of their encoded keys. */
  lemma CanonicalAscends(ps: seq<Pair>)
    requires DistinctKeys(ps) && forall p :: p in ps ==> WellFormedPair(p)
    ensures KeysAscend(CanonicalOf(ps))
  {
    CanonicalIsArranged(ps);
    var segments := Map(SegmentOf(), Arranged(ps));
    forall i | 0 <= i < |segments|
      ensures Cut(segments[i]).key == Encode(Arranged(ps)[i].key) && AMPERSAND !in segments[i]
    {
      SegmentKey(Arranged(ps)[i]);
    }
    if ps == [] {
      assert Split([]) == [[]] && CanonicalOf(ps) == [];
    } else {
      SplitJoin(segments);
      forall i, j | 0 <= i < j < |segments|
        ensures Ascends(Cut(segments[i]).key, Cut(segments[j]).key)
      {
        ArrangedAscends(ps, i, j);
      }
    }
  }

  lemma CanonicalizedAscends(rawQuery: Text)
    ensures Canonicalize(rawQuery).Ok? ==> KeysAscend(Canonicalize(rawQuery).canonical)
  {
    var segments := Split(rawQuery);
    ReadIff(segments);
    ParsedWellFormed(segments);
    if Read(segments).Pairs? {
      CanonicalAscends(Parsed(segments));
    }
  }

  // ----- the loop -----

  /** Once a segment has failed, the rest do not matter. */
  lemma {:induction false} FailureStands(segments: seq<Text>, n: nat)
    requires n <= |segments| && !Read(segments[..n]).Pairs?
    ensures Read(segments) == Read(segments[..n])
    decreases |segments|
  {
    if n < |segments| {
      var front := segments[..|segments| - 1];
      assert front[..n] == segments[..n];
      FailureStands(front, n);
    } else {
      assert segments[..n] == segments;
    }
  }

  lemma {:induction false} ParamsHave(ps: seq<Pair>, key: Text)
    ensures key in ParamsOf(ps) <==> HasRepeat(ps, key)
  {
    if ps != [] {
      ParamsHave(ps[..|ps| - 1], key);
      assert ps == ps[..|ps| - 1] + [ps[|ps| - 1]];
    }
  }

  /** One more segment: skipped, failed or appended — and a failure is the whole query's. */
  lemma ReadNext(segments: seq<Text>, n: nat, ps: seq<Pair>)
    requires n < |segments| && Read(segments[..n]) == Pairs(ps)
    ensures segments[n] == [] ==> Read(segments[..n + 1]) == Pairs(ps)
    ensures segments[n] != [] && ParseSegment(segments[n]).None? ==> Read(segments) == Bad
    ensures segments[n] != [] && ParseSegment(segments[n]).Some? ==>
              if ParseSegment(segments[n]).value.key in ParamsOf(ps) then Read(segments) == Duplicate
              else Read(segments[..n + 1]) == Pairs(ps + [ParseSegment(segments[n]).value])
  {
    assert segments[..n + 1][..n] == segments[..n] && segments[..n + 1][n] == segments[n];
    if ParseSegment(segments[n]).Some? {
      ParamsHave(ps, ParseSegment(segments[n]).value.key);
    }
    if !Read(segments[..n + 1]).Pairs? {
      FailureStands(segments, n + 1);
    }
  }

  method EncodeParsed(p: Pair, ghost segment: Text) returns (encoded: Pair)
    requires ParseSegment(segment) == Some(p)
    ensures encoded == EncodePair()(p)
  {
    DecodedIsWellFormed(Cut(segment).key);
    DecodedIsWellFormed(Cut(segment).value);
    EncodesAsRfc3986(p.key);
    EncodesAsRfc3986(p.value);
    encoded := Pair(Rfc3986Encode(p.key).value, Rfc3986Encode(p.value).value);
  }

  /** `canonicalizeQuery`: one pass over the segments, filling the pairs and the parameters, then one sort. */
  method CanonicalizeQuery(rawQuery: Text) returns (r: Result)
    ensures r == Canonicalize(rawQuery)
    ensures r.Ok? ==> KeysAscend(r.canonical)
  {
    CanonicalizedAscends(rawQuery);
    var segments := Split(rawQuery);
    var pairs: seq<Pair> := [];
    var params: map<Text, Text> := map[];
    ghost var ps: seq<Pair> := [];
    for n := 0 to |segments|
      invariant Read(segments[..n]) == Pairs(ps)
      invariant pairs == Map(EncodePair(), ps) && params == ParamsOf(ps)
    {
      ReadNext(segments, n, ps);
      if segments[n] != [] {
        var raw := Cut(segments[n]);
        var key := PercentDecode(raw.key);
        var value := PercentDecode(raw.value);
        if key.None? || value.None? {
          return BadEncoding;
        }
        if key.value in params {
          return DuplicateKey;
        }
        params := params[key.value := value.value];
        var encoded := EncodeParsed(Pair(key.value, value.value), segments[n]);
        pairs := pairs + [encoded];
        ps := ps + [Pair(key.value, value.value)];
        MapLast(EncodePair(), ps);
      }
    }
    assert segments[..|segments|] == segments;
    r := Ok(Join(Map(Render(), Sort(ByKey(), pairs))), params);
  }
}
