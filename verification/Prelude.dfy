/** Option, and a few facts about sequences and multisets that several components share. */
module Prelude {

  datatype Option<+T> = None | Some(value: T)

  function Max(a: int, b: int): int {
    if a < b then b else a
  }

  function Min(a: int, b: int): int {
    if b < a then b else a
  }

  /** The elements of `s` that satisfy `p`, in order (`Array.prototype.filter`). */
  function Filter<T>(p: T -> bool, s: seq<T>): (r: seq<T>) {
    if s == [] then []
    else (if p(s[0]) then [s[0]] else []) + Filter(p, s[1..])
  }

  /** `Array.prototype.map`. */
  function Map<T, U>(f: T -> U, s: seq<T>): (r: seq<U>)
    ensures |r| == |s|
    ensures forall i :: 0 <= i < |s| ==> r[i] == f(s[i])
  {
    seq(|s|, i requires 0 <= i < |s| => f(s[i]))
  }

  /** How many positions of `s` satisfy `p`. */
  function Count<T>(p: T -> bool, s: seq<T>): (n: nat)
    ensures n <= |s|
  {
    if s == [] then 0 else (if p(s[0]) then 1 else 0) + Count(p, s[1..])
  }

  predicate Distinct<T(==)>(s: seq<T>) {
    forall i, j :: 0 <= i < j < |s| ==> s[i] != s[j]
  }

  lemma {:induction false} CountConcat<T>(p: T -> bool, a: seq<T>, b: seq<T>)
    ensures Count(p, a + b) == Count(p, a) + Count(p, b)
  {
    if a == [] {
      assert a + b == b;
    } else {
      assert (a + b)[1..] == a[1..] + b;
      CountConcat(p, a[1..], b);
    }
  }

  lemma Associate<T>(a: seq<T>, b: seq<T>, c: seq<T>)
    ensures a + b + c == a + (b + c)
  {
  }

  lemma {:induction false} FilterConcat<T>(p: T -> bool, a: seq<T>, b: seq<T>)
    ensures Filter(p, a + b) == Filter(p, a) + Filter(p, b)
  {
    if a == [] {
      assert a + b == b;
    } else {
      assert (a + b)[1..] == a[1..] + b;
      FilterConcat(p, a[1..], b);
      Associate(if p(a[0]) then [a[0]] else [], Filter(p, a[1..]), Filter(p, b));
    }
  }

  lemma {:induction false} FilterMember<T>(p: T -> bool, s: seq<T>, x: T)
    ensures x in Filter(p, s) <==> x in s && p(x)
  {
    if s != [] {
      FilterMember(p, s[1..], x);
      assert s == [s[0]] + s[1..];
    }
  }

  /** Removing the element at `i` from `s` removes one copy of it. */
  lemma RemoveAt<T>(s: seq<T>, i: nat)
    requires i < |s|
    ensures multiset(s) == multiset(s[..i] + s[i + 1..]) + multiset{s[i]}
    ensures |s[..i] + s[i + 1..]| == |s| - 1
  {
    assert s == s[..i] + [s[i]] + s[i + 1..];
  }

  lemma PickFirst<T>(a: seq<T>, b: seq<T>) returns (i: nat)
    requires a != [] && multiset(a) == multiset(b)
    ensures i < |b| && b[i] == a[0]
    ensures multiset(a[1..]) == multiset(b[..i] + b[i + 1..])
  {
    assert a == [a[0]] + a[1..];
    assert a[0] in multiset(b);
    i :| 0 <= i < |b| && b[i] == a[0];
    RemoveAt(b, i);
    assert multiset(a[1..]) == multiset(a) - multiset{a[0]};
  }

  /** Counting does not depend on the order. */
  lemma {:induction false} CountPermutation<T>(p: T -> bool, a: seq<T>, b: seq<T>)
    requires multiset(a) == multiset(b)
    ensures Count(p, a) == Count(p, b)
    decreases |a|
  {
    if a == [] {
      assert |multiset(b)| == 0;
    } else {
      var i := PickFirst(a, b);
      CountPermutation(p, a[1..], b[..i] + b[i + 1..]);
      CountAround(p, b, i);
    }
  }

  lemma CountAround<T>(p: T -> bool, s: seq<T>, i: nat)
    requires i < |s|
    ensures Count(p, s) == Count(p, s[..i] + s[i + 1..]) + (if p(s[i]) then 1 else 0)
  {
    assert s == s[..i] + s[i..];
    CountConcat(p, s[..i], s[i..]);
    CountConcat(p, s[..i], s[i + 1..]);
  }

  function Is<T(==)>(x: T): T -> bool {
    y => y == x
  }

  /** How many times `x` occurs in `s`. */
  function Copies<T(==)>(s: seq<T>, x: T): nat {
    Count(Is(x), s)
  }

  lemma {:induction false} CopiesIsMultiplicity<T>(s: seq<T>, x: T)
    ensures Copies(s, x) == multiset(s)[x]
  {
    if s != [] {
      assert s == [s[0]] + s[1..];
      CopiesIsMultiplicity(s[1..], x);
    }
  }

  lemma SameCopiesSameMultiset<T(!new)>(a: seq<T>, b: seq<T>)
    requires forall x :: Copies(a, x) == Copies(b, x)
    ensures multiset(a) == multiset(b)
  {
    forall x
      ensures multiset(a)[x] == multiset(b)[x]
    {
      CopiesIsMultiplicity(a, x);
      CopiesIsMultiplicity(b, x);
    }
  }

  /** The sum of `w` over `s`. */
  function Sum<T>(w: T -> nat, s: seq<T>): nat {
    if s == [] then 0 else w(s[0]) + Sum(w, s[1..])
  }

  lemma {:induction false} SumConcat<T>(w: T -> nat, a: seq<T>, b: seq<T>)
    ensures Sum(w, a + b) == Sum(w, a) + Sum(w, b)
  {
    if a == [] {
      assert a + b == b;
    } else {
      assert (a + b)[1..] == a[1..] + b;
      SumConcat(w, a[1..], b);
    }
  }

  lemma SplitAt<T>(s: seq<T>, i: nat)
    requires i < |s|
    ensures s == s[..i] + ([s[i]] + s[i + 1..])
  {
  }

  lemma SumHead<T>(w: T -> nat, x: T, rest: seq<T>)
    ensures Sum(w, [x] + rest) == w(x) + Sum(w, rest)
  {
    assert ([x] + rest)[1..] == rest;
  }

  /** Replacing one element changes the sum by the difference of the two weights. */
  lemma SumUpdate<T>(w: T -> nat, s: seq<T>, i: nat, x: T)
    requires i < |s|
    ensures Sum(w, s[i := x]) + w(s[i]) == Sum(w, s) + w(x)
  {
    var front, back := s[..i], s[i + 1..];
    SplitAt(s, i);
    assert s[i := x] == front + ([x] + back);
    SumConcat(w, front, [s[i]] + back);
    SumConcat(w, front, [x] + back);
    SumHead(w, s[i], back);
    SumHead(w, x, back);
  }

  lemma {:induction false} SumZero<T>(w: T -> nat, s: seq<T>)
    requires forall i :: 0 <= i < |s| ==> w(s[i]) == 0
    ensures Sum(w, s) == 0
  {
    if s != [] {
      SumZero(w, s[1..]);
    }
  }

  lemma SumAround<T>(w: T -> nat, s: seq<T>, i: nat)
    requires i < |s|
    ensures Sum(w, s) == Sum(w, s[..i] + s[i + 1..]) + w(s[i])
  {
    var front, back := s[..i], s[i + 1..];
    SplitAt(s, i);
    SumConcat(w, front, [s[i]] + back);
    SumConcat(w, front, back);
    SumHead(w, s[i], back);
  }

  /** Nor does adding up. */
  lemma {:induction false} SumPermutation<T>(w: T -> nat, a: seq<T>, b: seq<T>)
    requires multiset(a) == multiset(b)
    ensures Sum(w, a) == Sum(w, b)
    decreases |a|
  {
    if a == [] {
      assert |multiset(b)| == 0;
    } else {
      var i := PickFirst(a, b);
      SumPermutation(w, a[1..], b[..i] + b[i + 1..]);
      SumAround(w, b, i);
    }
  }

  /** At most one position satisfies `p` when any two that do would be the same position. */
  lemma {:induction false} CountAtMostOne<T>(p: T -> bool, s: seq<T>)
    requires forall i, j :: 0 <= i < j < |s| ==> !(p(s[i]) && p(s[j]))
    ensures Count(p, s) <= 1
  {
    if s != [] {
      CountAtMostOne(p, s[1..]);
      if p(s[0]) && Count(p, s[1..]) > 0 {
        CountWitness(p, s[1..]);
      }
    }
  }

  lemma {:induction false} CountWitness<T>(p: T -> bool, s: seq<T>)
    requires Count(p, s) > 0
    ensures exists i :: 0 <= i < |s| && p(s[i])
  {
    if !p(s[0]) {
      CountWitness(p, s[1..]);
      var i :| 0 <= i < |s[1..]| && p(s[1..][i]);
      assert p(s[i + 1]);
    }
  }

  lemma CountTwo<T>(p: T -> bool, s: seq<T>, i: nat, j: nat)
    requires i < j < |s| && p(s[i]) && p(s[j])
    ensures Count(p, s) >= 2
  {
    CountAround(p, s, j);
    var rest := s[..j] + s[j + 1..];
    assert rest[i] == s[i];
    CountAround(p, rest, i);
  }

  lemma {:induction false} MapPermutation<T, U>(f: T -> U, a: seq<T>, b: seq<T>)
    requires multiset(a) == multiset(b)
    ensures multiset(Map(f, a)) == multiset(Map(f, b))
    decreases |a|
  {
    if a == [] {
      assert |multiset(b)| == 0;
    } else {
      var i := PickFirst(a, b);
      MapPermutation(f, a[1..], b[..i] + b[i + 1..]);
      assert Map(f, a) == [f(a[0])] + Map(f, a[1..]);
      RemoveAt(Map(f, b), i);
      assert Map(f, b)[..i] + Map(f, b)[i + 1..] == Map(f, b[..i] + b[i + 1..]);
    }
  }

  lemma CountLast<T>(p: T -> bool, s: seq<T>)
    requires s != []
    ensures Count(p, s) == Count(p, s[..|s| - 1]) + (if p(s[|s| - 1]) then 1 else 0)
  {
    CountAround(p, s, |s| - 1);
    assert s[..|s| - 1] + s[|s| - 1 + 1..] == s[..|s| - 1];
  }

  lemma MapLast<T, U>(f: T -> U, s: seq<T>)
    requires s != []
    ensures Map(f, s) == Map(f, s[..|s| - 1]) + [f(s[|s| - 1])]
    ensures Map(f, s)[..|s| - 1] == Map(f, s[..|s| - 1])
  {
  }

  lemma MapHead<T, U>(f: T -> U, s: seq<T>)
    requires s != []
    ensures Map(f, s) == [f(s[0])] + Map(f, s[1..])
    ensures Map(f, s)[1..] == Map(f, s[1..])
  {
  }

  /** Rearranging keeps the members, and keeps them distinct. */
  lemma SameElements<T(!new)>(a: seq<T>, b: seq<T>)
    requires multiset(a) == multiset(b)
    ensures forall x :: x in a <==> x in b
    ensures Distinct(b) ==> Distinct(a)
  {
    forall x
      ensures x in a <==> x in b
    {
      assert x in a <==> x in multiset(a);
      assert x in b <==> x in multiset(b);
    }
    if Distinct(b) {
      forall i, j | 0 <= i < j < |a|
        ensures a[i] != a[j]
      {
        CopiesIsMultiplicity(a, a[i]);
        CopiesIsMultiplicity(b, a[i]);
        CountAtMostOne(Is(a[i]), b);
        if a[i] == a[j] {
          CountTwo(Is(a[i]), a, i, j);
        }
      }
    }
  }

  lemma {:induction false} DistinctCopies<T(!new)>(s: seq<T>, x: T)
    requires Distinct(s)
    ensures Copies(s, x) == if x in s then 1 else 0
  {
    if s != [] {
      assert s == [s[0]] + s[1..];
      DistinctCopies(s[1..], x);
    }
  }

  lemma SameMembersSameMultiset<T(!new)>(a: seq<T>, b: seq<T>)
    requires Distinct(a) && Distinct(b) && forall x :: x in a <==> x in b
    ensures multiset(a) == multiset(b)
  {
    forall x
      ensures Copies(a, x) == Copies(b, x)
    {
      DistinctCopies(a, x);
      DistinctCopies(b, x);
    }
    SameCopiesSameMultiset(a, b);
  }

  lemma {:induction false} CountNone<T>(p: T -> bool, s: seq<T>)
    requires forall x :: x in s ==> !p(x)
    ensures Count(p, s) == 0
  {
    if s != [] {
      CountNone(p, s[1..]);
    }
  }

  lemma {:induction false} CountAll<T>(p: T -> bool, s: seq<T>)
    requires forall x :: x in s ==> p(x)
    ensures Count(p, s) == |s|
  {
    if s != [] {
      CountAll(p, s[1..]);
    }
  }

  /** The ids of the rows a query selects. */
  function Where<K, V>(table: map<K, V>, p: V -> bool): set<K> {
    set i | i in table.Keys && p(table[i])
  }

  /** Inserting a row under a fresh id adds exactly that id to every query it satisfies. */
  lemma WhereInsert<K, V>(table: map<K, V>, id: K, e: V, p: V -> bool)
    requires id !in table
    ensures Where(table[id := e], p) == Where(table, p) + (if p(e) then {id} else {})
    ensures !p(e) ==> Where(table[id := e], p) == Where(table, p)
    ensures |Where(table[id := e], p)| == |Where(table, p)| + (if p(e) then 1 else 0)
  {
    assert Where(table[id := e], p) == Where(table, p) + (if p(e) then {id} else {});
    assert id !in Where(table, p);
  }

  /** Deleting rows removes exactly the deleted ids from every query. */
  lemma WhereDelete<K, V>(table: map<K, V>, ids: set<K>, p: V -> bool)
    ensures Where(table - ids, p) == Where(table, p) - ids
  {
  }

  lemma {:induction false} FilterNone<T>(p: T -> bool, s: seq<T>)
    requires forall x :: x in s ==> !p(x)
    ensures Filter(p, s) == []
  {
    if s != [] {
      FilterNone(p, s[1..]);
    }
  }

  lemma {:induction false} FilterAll<T>(p: T -> bool, s: seq<T>)
    requires forall x :: x in s ==> p(x)
    ensures Filter(p, s) == s
  {
    if s != [] {
      FilterAll(p, s[1..]);
    }
  }

  lemma FilterSuffix<T>(p: T -> bool, a: seq<T>, b: seq<T>)
    requires forall x :: x in a ==> !p(x)
    requires forall x :: x in b ==> p(x)
    ensures Filter(p, a + b) == b
  {
    FilterNone(p, a);
    FilterAll(p, b);
    FilterConcat(p, a, b);
  }

  /** If nothing from position `n` on satisfies `p`, at most `n` positions do. */
  lemma {:induction false} CountAtMost<T>(p: T -> bool, s: seq<T>, n: nat)
    requires forall k :: n <= k < |s| ==> !p(s[k])
    ensures Count(p, s) <= n
  {
    if s != [] {
      assert forall k :: 0 <= k < |s| - 1 ==> s[1..][k] == s[k + 1];
      CountAtMost(p, s[1..], if n == 0 then 0 else n - 1);
    }
  }

  /** If the first `n` positions satisfy `p`, at least `n` do. */
  lemma {:induction false} CountAtLeast<T>(p: T -> bool, s: seq<T>, n: nat)
    requires n <= |s| && forall k :: 0 <= k < n ==> p(s[k])
    ensures Count(p, s) >= n
  {
    if n > 0 {
      assert forall k :: 0 <= k < |s| - 1 ==> s[1..][k] == s[k + 1];
      CountAtLeast(p, s[1..], n - 1);
    }
  }

  lemma {:induction false} SmallerSet<T>(a: set<T>, b: set<T>)
    requires a <= b
    ensures |a| <= |b|
  {
    if a != {} {
      var x :| x in a;
      SmallerSet(a - {x}, b - {x});
    }
  }
}
