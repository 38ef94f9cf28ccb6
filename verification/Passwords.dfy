/**
 * Temporary passwords (src/lib/passwordPolicy.ts): rejection sampling of 32-bit values, and a Fisher-Yates shuffle in
 * place. The random source is a list of raw values; a computation that is still waiting for more of them when the
 * list ends gives `None`.
 */
module Passwords {
  import opened Prelude

  // ----- the policy -----

  const PASSWORD_MIN_LENGTH := 12

  /** `String.prototype.length`: characters beyond U+FFFF are two code units. */
  function JsLength(p: string): (n: nat) {
    if p == "" then 0 else (if p[0] as int >= 0x1_0000 then 2 else 1) + JsLength(p[1..])
  }

  predicate IsSupplementary(c: char) {
    0xffff < c as int
  }

  /** Two code units for a character beyond U+FFFF, one for any other. */
  lemma {:induction false} JsLengthCounts(p: string)
    ensures JsLength(p) == |p| + Count(IsSupplementary, p)
  {
    if p != "" {
      JsLengthCounts(p[1..]);
    }
  }

  predicate IsLower(c: char) { 'a' <= c <= 'z' }

  predicate IsUpper(c: char) { 'A' <= c <= 'Z' }

  predicate IsDigit(c: char) { '0' <= c <= '9' }

  datatype Issue = TooShort | NoLowercase | NoUppercase | NoDigit

  function PasswordIssue(p: string): (issue: Option<Issue>)
    ensures issue.None? <==> JsLength(p) >= 12 && (exists c :: c in p && IsLower(c))
                             && (exists c :: c in p && IsUpper(c)) && (exists c :: c in p && IsDigit(c))
    ensures issue == Some(TooShort) <==> JsLength(p) < 12
    ensures issue == Some(NoLowercase) ==> forall c :: c in p ==> !IsLower(c)
    ensures issue == Some(NoUppercase) ==> forall c :: c in p ==> !IsUpper(c)
    ensures issue == Some(NoDigit) ==> forall c :: c in p ==> !IsDigit(c)
  {
    if JsLength(p) < PASSWORD_MIN_LENGTH then Some(TooShort)
    else if !exists c :: c in p && IsLower(c) then Some(NoLowercase)
    else if !exists c :: c in p && IsUpper(c) then Some(NoUppercase)
    else if !exists c :: c in p && IsDigit(c) then Some(NoDigit)
    else None
  }

  // ----- rejection sampling -----

  const MAX_RAW: int := 0xffff_ffff

  /** Four random bytes, read as an unsigned big-endian number. */
  type Raw = n: int | 0 <= n <= MAX_RAW

  datatype Drawn<+T> = Drawn(value: T, rest: seq<Raw>)

  function Limit(maxExclusive: nat): nat
    requires maxExclusive > 0
  {
    MAX_RAW / maxExclusive * maxExclusive
  }

  /** The first value below the limit, reduced; the values before it are rejected. */
  function FirstAccepted(maxExclusive: nat, draws: seq<Raw>): (r: Option<Drawn<nat>>)
    requires maxExclusive > 0
    ensures r.Some? ==> r.value.value < maxExclusive && |r.value.rest| < |draws|
  {
    if draws == [] then None
    else if draws[0] < Limit(maxExclusive) then Some(Drawn(draws[0] % maxExclusive, draws[1..]))
    else FirstAccepted(maxExclusive, draws[1..])
  }

  /** A non-positive bound gives 0 without drawing. */
  method RandomInt(maxExclusive: int, draws: seq<Raw>) returns (r: Option<Drawn<nat>>)
    ensures maxExclusive <= 0 ==> r == Some(Drawn(0, draws))
    ensures maxExclusive > 0 ==> r == FirstAccepted(maxExclusive, draws)
  {
    if maxExclusive <= 0 {
      return Some(Drawn(0, draws));
    }
    var limit := MAX_RAW / maxExclusive * maxExclusive;
    var left := draws;
    while left != []
      invariant FirstAccepted(maxExclusive, draws) == FirstAccepted(maxExclusive, left)
      decreases |left|
    {
      var n := left[0];
      left := left[1..];
      if n < limit {
        return Some(Drawn(n % maxExclusive, left));
      }
    }
    return None;
  }

  /** The raw values below `blocks * m` that reduce to `residue`. */
  function Hits(m: nat, residue: nat, blocks: nat): set<int>
    requires residue < m
  {
    set n | 0 <= n < blocks * m && n % m == residue
  }

  lemma {:induction false} HitsCount(m: nat, residue: nat, blocks: nat)
    requires residue < m
    ensures |Hits(m, residue, blocks)| == blocks
  {
    if blocks == 0 {
      assert Hits(m, residue, 0) == {};
    } else {
      HitsCount(m, residue, blocks - 1);
      HitsNext(m, residue, blocks - 1);
    }
  }

  /** One more block has one more hit. */
  lemma HitsNext(m: nat, residue: nat, blocks: nat)
    requires residue < m
    ensures Hits(m, residue, blocks + 1) == Hits(m, residue, blocks) + {blocks * m + residue}
    ensures blocks * m + residue !in Hits(m, residue, blocks)
  {
    var start := blocks * m;
    assert (blocks + 1) * m == start + m;
    forall n | start <= n < start + m
      ensures n % m == n - start
    {
      RemainderInBlock(m, blocks, n - start);
    }
    forall n
      ensures n in Hits(m, residue, blocks + 1) <==> n in Hits(m, residue, blocks) || n == start + residue
    {
    }
  }

  lemma RemainderInBlock(m: nat, block: nat, offset: nat)
    requires offset < m
    ensures (block * m + offset) % m == offset
  {
    var n := block * m + offset;
    assert n == n / m * m + n % m;
    assert (n / m - block) * m == offset - n % m;
    Multiples(n / m - block, m);
  }

  lemma Multiples(k: int, m: nat)
    ensures k >= 1 ==> k * m >= m
    ensures k <= -1 ==> k * m + m <= 0
    ensures k == 0 ==> k * m == 0
  {
  }

  /** The raw values which, drawn alone, give this result. */
  function RawsOf(m: nat, residue: nat): set<int>
    requires residue < m
  {
    set n | 0 <= n <= MAX_RAW && FirstAccepted(m, [n]) == Some(Drawn(residue, []))
  }

  lemma RawsBelowLimit(m: nat, residue: nat)
    requires residue < m <= MAX_RAW
    ensures RawsOf(m, residue) == Hits(m, residue, MAX_RAW / m)
  {
    assert MAX_RAW == MAX_RAW / m * m + MAX_RAW % m;
    forall n: int
      ensures n in RawsOf(m, residue) <==> n in Hits(m, residue, MAX_RAW / m)
    {
      if 0 <= n <= MAX_RAW {
        AloneMeans(m, n);
      }
    }
  }

  lemma AloneMeans(m: nat, n: Raw)
    requires m > 0
    ensures FirstAccepted(m, [n]) == if n < Limit(m) then Some(Drawn(n % m, [])) else None
  {
    assert [n][1..] == [];
  }

  /** A raw value that gives nothing alone is passed over; any other decides. */
  lemma OneByOne(m: nat, draws: seq<Raw>)
    requires m > 0 && draws != []
    ensures var alone := FirstAccepted(m, [draws[0]]);
            FirstAccepted(m, draws)
            == if alone.Some? then Some(Drawn(alone.value.value, draws[1..])) else FirstAccepted(m, draws[1..])
  {
    AloneMeans(m, draws[0]);
  }

  /**
   * No residue is favoured: each is given by equally many raw values, and more than half of the raw values below
   * 0xffffffff are accepted, whatever the bound.
   */
  lemma Unbiased(m: nat, residue: nat)
    requires residue < m <= MAX_RAW
    ensures |RawsOf(m, residue)| == MAX_RAW / m
    ensures 2 * Limit(m) > MAX_RAW
    ensures Limit(m) <= MAX_RAW < Limit(m) + m
  {
    HitsCount(m, residue, MAX_RAW / m);
    RawsBelowLimit(m, residue);
    assert MAX_RAW / m >= 1;
    assert MAX_RAW == MAX_RAW / m * m + MAX_RAW % m;
    assert Limit(m) >= m;
  }

  // ----- the shuffle -----

  function Swap<T>(s: seq<T>, i: nat, j: nat): (r: seq<T>)
    requires i < |s| && j < |s|
    ensures |r| == |s|
  {
    s[i := s[j]][j := s[i]]
  }

  /** One choice for every position from 1 up: position `i` picks among the first `i + 1`. */
  predicate AreChoices(choices: seq<nat>, n: nat) {
    |choices| == (if n == 0 then 0 else n - 1) && forall i :: 0 <= i < |choices| ==> choices[i] <= i + 1
  }

  /** What the shuffle makes of `s` when position `i` picks `choices[i - 1]`, from the last position down. */
  function Shuffled<T>(s: seq<T>, choices: seq<nat>): (r: seq<T>)
    requires AreChoices(choices, |s|)
    ensures |r| == |s|
    decreases |s|
  {
    if |s| <= 1 then s
    else
      var last := |s| - 1;
      var t := Swap(s, last, choices[last - 1]);
      Shuffled(t[..last], choices[..last - 1]) + [t[last]]
  }

  lemma SwapMultiset<T>(s: seq<T>, j: nat)
    requires j < |s|
    ensures multiset(Swap(s, |s| - 1, j)) == multiset(s)
  {
  }

  lemma SwapKeeps<T>(s: seq<T>, j: nat)
    requires j < |s|
    ensures var t, last := Swap(s, |s| - 1, j), |s| - 1;
            t[last] == s[j] && multiset(t[..last]) == multiset(s) - multiset{s[j]}
    ensures multiset(Swap(s, |s| - 1, j)) == multiset(s)
  {
    var t, last := Swap(s, |s| - 1, j), |s| - 1;
    SwapMultiset(s, j);
    assert t == t[..last] + [t[last]];
  }

  lemma SwapDistinct<T>(s: seq<T>, j: nat)
    requires j < |s| && Distinct(s)
    ensures Distinct(Swap(s, |s| - 1, j)[..|s| - 1])
  {
  }

  lemma {:induction false} ShuffledPermutes<T>(s: seq<T>, choices: seq<nat>)
    requires AreChoices(choices, |s|)
    ensures multiset(Shuffled(s, choices)) == multiset(s)
    decreases |s|
  {
    if |s| > 1 {
      var last := |s| - 1;
      var t := Swap(s, last, choices[last - 1]);
      SwapKeeps(s, choices[last - 1]);
      ShuffledPermutes(t[..last], choices[..last - 1]);
    }
  }

  /** The outermost swap: what it puts last, and what it leaves to be shuffled. */
  lemma ShuffledStep<T>(s: seq<T>, choices: seq<nat>)
    requires |s| > 1 && AreChoices(choices, |s|)
    ensures var last := |s| - 1;
            var t := Swap(s, last, choices[last - 1])[..last];
            && AreChoices(choices[..last - 1], |t|)
            && Shuffled(s, choices) == Shuffled(t, choices[..last - 1]) + [s[choices[last - 1]]]
  {
  }

  /** Different choices give different arrangements of distinct items. */
  lemma {:induction false} ShuffledInjective<T>(s: seq<T>, a: seq<nat>, b: seq<nat>)
    requires Distinct(s) && AreChoices(a, |s|) && AreChoices(b, |s|) && Shuffled(s, a) == Shuffled(s, b)
    ensures a == b
    decreases |s|
  {
    if |s| > 1 {
      var last := |s| - 1;
      ShuffledStep(s, a);
      ShuffledStep(s, b);
      SameEnds(Shuffled(Swap(s, last, a[last - 1])[..last], a[..last - 1]), s[a[last - 1]],
               Shuffled(Swap(s, last, b[last - 1])[..last], b[..last - 1]), s[b[last - 1]]);
      assert a[last - 1] == b[last - 1];
      SwapDistinct(s, a[last - 1]);
      ShuffledInjective(Swap(s, last, a[last - 1])[..last], a[..last - 1], b[..last - 1]);
      assert a == a[..last - 1] + [a[last - 1]];
      assert b == b[..last - 1] + [b[last - 1]];
    }
  }

  lemma SameEnds<T>(a: seq<T>, x: T, b: seq<T>, y: T)
    requires a + [x] == b + [y]
    ensures a == b && x == y
  {
    assert |a| == |b|;
    assert a == (a + [x])[..|a|] && b == (b + [y])[..|b|];
    assert x == (a + [x])[|a|] && y == (b + [y])[|b|];
  }

  /** Every permutation is reached. */
  lemma {:induction false} ShuffledReaches<T>(s: seq<T>, target: seq<T>) returns (choices: seq<nat>)
    requires multiset(s) == multiset(target)
    ensures AreChoices(choices, |s|) && Shuffled(s, choices) == target
    decreases |s|
  {
    assert |s| == |multiset(s)| == |multiset(target)| == |target|;
    if |s| <= 1 {
      choices := [];
      assert s == [] || (s == [s[0]] && s[0] in multiset(target));
    } else {
      var last := |s| - 1;
      var j := PickLast(s, target);
      var rest := ShuffledReaches(Swap(s, last, j)[..last], target[..last]);
      choices := rest + [j];
      assert choices[..last - 1] == rest && choices[last - 1] == j;
      ShuffledStep(s, choices);
      assert target == target[..last] + [target[last]];
    }
  }

  lemma PickLast<T>(s: seq<T>, target: seq<T>) returns (j: nat)
    requires multiset(s) == multiset(target) && |s| == |target| > 0
    ensures j < |s| && s[j] == target[|s| - 1]
    ensures multiset(Swap(s, |s| - 1, j)[..|s| - 1]) == multiset(target[..|s| - 1])
  {
    var last := |s| - 1;
    assert target == target[..last] + [target[last]];
    assert target[last] in multiset(s);
    j :| 0 <= j < |s| && s[j] == target[last];
    SwapKeeps(s, j);
    assert multiset(target[..last]) == multiset(target) - multiset{target[last]};
  }

  /** So of all the equally likely choices, exactly one leads to any given arrangement. */
  lemma ExactlyOneChoice<T>(s: seq<T>, target: seq<T>) returns (choices: seq<nat>)
    requires Distinct(s) && multiset(s) == multiset(target)
    ensures AreChoices(choices, |s|) && Shuffled(s, choices) == target
    ensures forall other :: AreChoices(other, |s|) && Shuffled(s, other) == target ==> other == choices
  {
    choices := ShuffledReaches(s, target);
    forall other | AreChoices(other, |s|) && Shuffled(s, other) == target
      ensures other == choices
    {
      ShuffledInjective(s, other, choices);
    }
  }

  /** The shuffle with its choices drawn as it goes. */
  function ShuffleFrom<T>(s: seq<T>, draws: seq<Raw>): (r: Option<Drawn<seq<T>>>)
    decreases |s|
  {
    if |s| <= 1 then Some(Drawn(s, draws))
    else
      var last := |s| - 1;
      var j := FirstAccepted(|s|, draws);
      if j.None? then None
      else
        var t := Swap(s, last, j.value.value);
        AndThen(ShuffleFrom(t[..last], j.value.rest), [t[last]])
  }

  function AndThen<T>(head: Option<Drawn<seq<T>>>, tail: seq<T>): Option<Drawn<seq<T>>> {
    if head.None? then None else Some(head.value.(value := head.value.value + tail))
  }

  /** Whatever is drawn, the shuffle is `Shuffled` for the choices drawn. */
  lemma {:induction false} ShuffleFromIsShuffled<T>(s: seq<T>, draws: seq<Raw>) returns (choices: seq<nat>)
    requires ShuffleFrom(s, draws).Some?
    ensures AreChoices(choices, |s|) && ShuffleFrom(s, draws).value.value == Shuffled(s, choices)
    decreases |s|
  {
    choices := [];
    if |s| > 1 {
      var last := |s| - 1;
      var j := FirstAccepted(|s|, draws).value;
      var t := Swap(s, last, j.value);
      var rest := ShuffleFromIsShuffled(t[..last], j.rest);
      choices := rest + [j.value];
      assert choices[..last - 1] == rest;
    }
  }

  lemma AndThenAgain<T>(head: Option<Drawn<seq<T>>>, x: T, tail: seq<T>)
    ensures AndThen(AndThen(head, [x]), tail) == AndThen(head, [x] + tail)
  {
    if head.Some? {
      assert head.value.value + [x] + tail == head.value.value + ([x] + tail);
    }
  }

  /** One turn of the loop: picking for position `i` and going on with what is before it. */
  lemma ShuffleFromStep<T>(s: seq<T>, draws: seq<Raw>, tail: seq<T>)
    requires |s| > 1
    ensures var j, last := FirstAccepted(|s|, draws), |s| - 1;
            if j.None? then AndThen(ShuffleFrom(s, draws), tail).None?
            else var t := Swap(s, last, j.value.value);
              AndThen(ShuffleFrom(s, draws), tail) == AndThen(ShuffleFrom(t[..last], j.value.rest), [t[last]] + tail)
  {
    var j, last := FirstAccepted(|s|, draws), |s| - 1;
    if j.Some? {
      var t := Swap(s, last, j.value.value);
      AndThenAgain(ShuffleFrom(t[..last], j.value.rest), t[last], tail);
    }
  }

  /** Swapping two cells of an array, seen from the part up to the higher one. */
  method SwapCells(chars: array<char>, i: nat, j: nat)
    requires j <= i < chars.Length
    modifies chars
    ensures chars[..i + 1] == Swap(old(chars[..i + 1]), i, j)
    ensures chars[i + 1..] == old(chars[i + 1..])
  {
    chars[i], chars[j] := chars[j], chars[i];
  }

  /** Position `i` picks its item; `None` when the random values ran out. */
  method PickFor(chars: array<char>, i: nat, draws: seq<Raw>) returns (rest: Option<seq<Raw>>)
    requires 0 < i < chars.Length
    modifies chars
    ensures var before := AndThen(ShuffleFrom(old(chars[..i + 1]), draws), old(chars[i + 1..]));
            if rest.None? then before.None? else before == AndThen(ShuffleFrom(chars[..i], rest.value), chars[i..])
  {
    ghost var s, tail := chars[..i + 1], chars[i + 1..];
    ShuffleFromStep(s, draws, tail);
    var j := RandomInt(i + 1, draws);
    if j.None? {
      return None;
    }
    SwapCells(chars, i, j.value.value);
    assert chars[..i] == chars[..i + 1][..i];
    assert chars[i..] == [chars[i]] + chars[i + 1..];
    return Some(j.value.rest);
  }

  /** The loop of the source, in place. `ok` is false when the random values ran out. */
  method Shuffle(chars: array<char>, draws: seq<Raw>) returns (ok: bool, rest: seq<Raw>)
    modifies chars
    ensures ok == ShuffleFrom(old(chars[..]), draws).Some?
    ensures ok ==> Drawn(chars[..], rest) == ShuffleFrom(old(chars[..]), draws).value
  {
    ghost var all := ShuffleFrom(chars[..], draws);
    rest := draws;
    if chars.Length == 0 {
      return true, rest;
    }
    var i := chars.Length - 1;
    assert chars[..i + 1] == chars[..] && chars[i + 1..] == [];
    AndThenNothing(all);
    while i > 0
      invariant 0 <= i < chars.Length
      invariant AndThen(ShuffleFrom(chars[..i + 1], rest), chars[i + 1..]) == all
    {
      var left := PickFor(chars, i, rest);
      if left.None? {
        return false, rest;
      }
      rest := left.value;
      i := i - 1;
    }
    assert chars[..] == chars[..1] + chars[1..];
    return true, rest;
  }

  lemma AndThenNothing<T>(head: Option<Drawn<seq<T>>>)
    ensures AndThen(head, []) == head
  {
    if head.Some? {
      assert head.value.value + [] == head.value.value;
    }
  }

  // ----- the generator -----

  const TEMP_LOWER := "abcdefghijkmnpqrstuvwxyz"
  const TEMP_UPPER := "ABCDEFGHJKLMNPQRSTUVWXYZ"
  const TEMP_DIGIT := "23456789"
  const TEMP_SYMBOL := "!@#$%^&*"
  const TEMP_ALL := TEMP_LOWER + TEMP_UPPER + TEMP_DIGIT + TEMP_SYMBOL

  datatype Generated = TooFew | Waiting | Password(text: string)

  /** One character of each alphabet, in order. */
  method PickEach(alphabets: seq<string>, draws: seq<Raw>) returns (chars: Option<Drawn<string>>)
    requires forall i :: 0 <= i < |alphabets| ==> alphabets[i] != ""
    ensures chars.Some? ==> |chars.value.value| == |alphabets|
    ensures chars.Some? ==> forall i :: 0 <= i < |alphabets| ==> chars.value.value[i] in alphabets[i]
  {
    var text, rest := "", draws;
    for i := 0 to |alphabets|
      invariant |text| == i
      invariant forall k :: 0 <= k < i ==> text[k] in alphabets[k]
    {
      var j := RandomInt(|alphabets[i]|, rest);
      if j.None? {
        return None;
      }
      text, rest := text + [alphabets[i][j.value.value]], j.value.rest;
    }
    return Some(Drawn(text, rest));
  }

  /** What a password is shuffled from: one character of each class, and `extra` of any. */
  predicate IsDraft(picked: string) {
    && |picked| >= 4
    && picked[0] in TEMP_LOWER && picked[1] in TEMP_UPPER && picked[2] in TEMP_DIGIT && picked[3] in TEMP_SYMBOL
    && forall i :: 4 <= i < |picked| ==> picked[i] in TEMP_ALL
  }

  method PickDraft(length: int, draws: seq<Raw>) returns (chars: Option<Drawn<string>>)
    requires length >= 4
    ensures chars.Some? ==> |chars.value.value| == length && IsDraft(chars.value.value)
  {
    var classes := [TEMP_LOWER, TEMP_UPPER, TEMP_DIGIT, TEMP_SYMBOL];
    var guaranteed := PickEach(classes, draws);
    if guaranteed.None? {
      return None;
    }
    ghost var first := guaranteed.value.value;
    assert first[0] in classes[0] && first[1] in classes[1] && first[2] in classes[2] && first[3] in classes[3];
    var rest := PickEach(seq(length - 4, i => TEMP_ALL), guaranteed.value.rest);
    if rest.None? {
      return None;
    }
    return Some(Drawn(guaranteed.value.value + rest.value.value, rest.value.rest));
  }

  /** Below four it throws; otherwise the password has the length asked for, and is legal exactly from twelve up. */
  method GenerateTemporaryPassword(length: int, draws: seq<Raw>) returns (r: Generated)
    ensures r.TooFew? <==> length < 4
    ensures r.Password? ==> |r.text| == length && forall c :: c in r.text ==> c in TEMP_ALL
    ensures r.Password? ==> (PasswordIssue(r.text).None? <==> length >= 12)
    ensures r.Password? ==> exists c :: c in r.text && c in TEMP_SYMBOL
  {
    if length < 4 {
      return TooFew;
    }
    var picked := PickDraft(length, draws);
    if picked.None? {
      return Waiting;
    }
    var draft := picked.value.value;
    var chars := new char[|draft|](i requires 0 <= i < |draft| => draft[i]);
    assert chars[..] == draft;
    var ok, _ := Shuffle(chars, picked.value.rest);
    if !ok {
      return Waiting;
    }
    ghost var choices := ShuffleFromIsShuffled(draft, picked.value.rest);
    ShuffledPermutes(draft, choices);
    r := Password(chars[..]);
    LegalFromTwelve(draft, r.text);
  }

  lemma SameMembers<T>(a: seq<T>, b: seq<T>)
    requires multiset(a) == multiset(b)
    ensures forall x :: x in a <==> x in b
  {
    forall x
      ensures x in a <==> x in b
    {
      assert x in a <==> x in multiset(a);
      assert x in b <==> x in multiset(b);
    }
  }

  lemma LengthOfPlain(p: string)
    requires forall c :: c in p ==> c in TEMP_ALL
    ensures JsLength(p) == |p|
  {
    if p != "" {
      assert p[0] in TEMP_ALL;
      AlphabetPlain(p[0]);
      LengthOfPlain(p[1..]);
    }
  }

  lemma AlphabetPlain(c: char)
    requires c in TEMP_ALL
    ensures c as int < 128
  {
  }

  lemma AlphabetClasses(c: char)
    ensures c in TEMP_LOWER ==> IsLower(c)
    ensures c in TEMP_UPPER ==> IsUpper(c)
    ensures c in TEMP_DIGIT ==> IsDigit(c)
  {
  }

  lemma InParts<T>(a: seq<T>, b: seq<T>, c: seq<T>, d: seq<T>, x: T)
    ensures x in a + b + c + d <==> x in a || x in b || x in c || x in d
  {
  }

  lemma LegalFromTwelve(draft: string, text: string)
    requires multiset(draft) == multiset(text) && IsDraft(draft)
    ensures forall c :: c in text ==> c in TEMP_ALL
    ensures exists c :: c in text && c in TEMP_SYMBOL
    ensures PasswordIssue(text).None? <==> |draft| >= 12
  {
    assert |text| == |multiset(text)| == |multiset(draft)| == |draft|;
    SameMembers(draft, text);
    assert draft[0] in text && draft[1] in text && draft[2] in text && draft[3] in text;
    DraftInAlphabet(draft);
    LengthOfPlain(text);
    AlphabetClasses(draft[0]);
    AlphabetClasses(draft[1]);
    AlphabetClasses(draft[2]);
  }

  lemma ClassInAlphabet(c: char)
    requires c in TEMP_LOWER || c in TEMP_UPPER || c in TEMP_DIGIT || c in TEMP_SYMBOL
    ensures c in TEMP_ALL
  {
    InParts(TEMP_LOWER, TEMP_UPPER, TEMP_DIGIT, TEMP_SYMBOL, c);
  }

  lemma DraftInAlphabet(draft: string)
    requires IsDraft(draft)
    ensures forall c :: c in draft ==> c in TEMP_ALL
  {
    forall i | 0 <= i < |draft|
      ensures draft[i] in TEMP_ALL
    {
      if i < 4 {
        assert i == 0 || i == 1 || i == 2 || i == 3;
        ClassInAlphabet(draft[i]);
      }
    }
  }
}
