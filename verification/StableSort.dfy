/** `Array.prototype.sort` with a comparator: a stable sort, and what fixes its result. */
module StableSort {
  import opened Prelude

  /** Puts `x` in front of the first element it may precede. */
  function Insert<T>(cmp: (T, T) -> int, x: T, s: seq<T>): (r: seq<T>)
    ensures |r| == |s| + 1
  {
    if s == [] || cmp(x, s[0]) <= 0 then [x] + s else [s[0]] + Insert(cmp, x, s[1..])
  }

  function Sort<T>(cmp: (T, T) -> int, s: seq<T>): (r: seq<T>)
    ensures |r| == |s|
  {
    if s == [] then [] else Insert(cmp, s[0], Sort(cmp, s[1..]))
  }

  /** Any two elements compare one way or the other, and comparing is transitive. */
  ghost predicate TotalPreorder<T(!new)>(cmp: (T, T) -> int) {
    && (forall a, b :: cmp(a, b) <= 0 || cmp(b, a) <= 0)
    && (forall a, b, c :: cmp(a, b) <= 0 && cmp(b, c) <= 0 ==> cmp(a, c) <= 0)
  }

  ghost predicate Sorted<T>(cmp: (T, T) -> int, s: seq<T>) {
    forall i, j :: 0 <= i < j < |s| ==> cmp(s[i], s[j]) <= 0
  }

  lemma {:induction false} InsertCopies<T>(cmp: (T, T) -> int, x: T, s: seq<T>, y: T)
    ensures Copies(Insert(cmp, x, s), y) == Copies(s, y) + (if x == y then 1 else 0)
  {
    if s == [] || cmp(x, s[0]) <= 0 {
      assert ([x] + s)[1..] == s;
    } else {
      InsertCopies(cmp, x, s[1..], y);
      assert Insert(cmp, x, s)[1..] == Insert(cmp, x, s[1..]);
    }
  }

  lemma {:induction false} SortCopies<T>(cmp: (T, T) -> int, s: seq<T>, y: T)
    ensures Copies(Sort(cmp, s), y) == Copies(s, y)
  {
    if s != [] {
      SortCopies(cmp, s[1..], y);
      InsertCopies(cmp, s[0], Sort(cmp, s[1..]), y);
    }
  }

  lemma SortPermutes<T(!new)>(cmp: (T, T) -> int, s: seq<T>)
    ensures multiset(Sort(cmp, s)) == multiset(s)
  {
    forall y {
      SortCopies(cmp, s, y);
    }
    SameCopiesSameMultiset(Sort(cmp, s), s);
  }

  lemma {:induction false} InsertSorted<T(!new)>(cmp: (T, T) -> int, x: T, s: seq<T>)
    requires TotalPreorder(cmp) && Sorted(cmp, s)
    ensures Sorted(cmp, Insert(cmp, x, s))
    ensures Insert(cmp, x, s)[0] == x || (s != [] && Insert(cmp, x, s)[0] == s[0])
  {
    if s == [] || cmp(x, s[0]) <= 0 {
    } else {
      var r := Insert(cmp, x, s[1..]);
      InsertSorted(cmp, x, s[1..]);
      forall i | 0 <= i < |r|
        ensures cmp(s[0], r[i]) <= 0
      {
        assert cmp(s[0], r[0]) <= 0;
        assert i > 0 ==> cmp(r[0], r[i]) <= 0;
      }
    }
  }

  lemma {:induction false} SortSorts<T(!new)>(cmp: (T, T) -> int, s: seq<T>)
    requires TotalPreorder(cmp)
    ensures Sorted(cmp, Sort(cmp, s))
  {
    if s != [] {
      SortSorts(cmp, s[1..]);
      InsertSorted(cmp, s[0], Sort(cmp, s[1..]));
    }
  }

  /** No two different elements of `s` tie. */
  ghost predicate NoTies<T>(cmp: (T, T) -> int, s: seq<T>) {
    forall i, j :: 0 <= i < |s| && 0 <= j < |s| && cmp(s[i], s[j]) <= 0 && cmp(s[j], s[i]) <= 0 ==> s[i] == s[j]
  }

  lemma SameHead<T(!new)>(cmp: (T, T) -> int, a: seq<T>, b: seq<T>)
    requires TotalPreorder(cmp) && NoTies(cmp, a) && a != [] && b != []
    requires Sorted(cmp, a) && Sorted(cmp, b) && multiset(a) == multiset(b)
    ensures a[0] == b[0]
  {
    assert b[0] in multiset(a) && a[0] in multiset(b);
    var i :| 0 <= i < |a| && a[i] == b[0];
    var j :| 0 <= j < |b| && b[j] == a[0];
    assert cmp(a[0], a[i]) <= 0 && cmp(b[0], b[j]) <= 0;
  }

  /** Without ties, two sorted arrangements of the same elements are equal. */
  lemma {:induction false} SortedUnique<T(!new)>(cmp: (T, T) -> int, a: seq<T>, b: seq<T>)
    requires TotalPreorder(cmp) && NoTies(cmp, a)
    requires Sorted(cmp, a) && Sorted(cmp, b) && multiset(a) == multiset(b)
    ensures a == b
    decreases |a|
  {
    assert |a| == |multiset(a)| == |b|;
    if a != [] {
      SameHead(cmp, a, b);
      TailSame(a, b);
      SortedUnique(cmp, a[1..], b[1..]);
      assert a == [a[0]] + a[1..] && b == [b[0]] + b[1..];
    }
  }

  lemma TailSame<T>(a: seq<T>, b: seq<T>)
    requires a != [] && b != [] && a[0] == b[0] && multiset(a) == multiset(b)
    ensures multiset(a[1..]) == multiset(b[1..])
  {
    assert a == [a[0]] + a[1..] && b == [b[0]] + b[1..];
    assert multiset(a[1..]) == multiset(a) - multiset{a[0]};
    assert multiset(b[1..]) == multiset(b) - multiset{b[0]};
  }

  /** Without ties, the order of the input does not matter. */
  lemma SortForgetsOrder<T(!new)>(cmp: (T, T) -> int, a: seq<T>, b: seq<T>)
    requires TotalPreorder(cmp) && NoTies(cmp, a) && multiset(a) == multiset(b)
    ensures Sort(cmp, a) == Sort(cmp, b)
  {
    SortPermutes(cmp, a);
    SortPermutes(cmp, b);
    SortSorts(cmp, a);
    SortSorts(cmp, b);
    NoTiesPermuted(cmp, a, Sort(cmp, a));
    SortedUnique(cmp, Sort(cmp, a), Sort(cmp, b));
  }

  lemma NoTiesPermuted<T(!new)>(cmp: (T, T) -> int, a: seq<T>, b: seq<T>)
    requires NoTies(cmp, a) && multiset(a) == multiset(b)
    ensures NoTies(cmp, b)
  {
    forall i, j | 0 <= i < |b| && 0 <= j < |b| && cmp(b[i], b[j]) <= 0 && cmp(b[j], b[i]) <= 0
      ensures b[i] == b[j]
    {
      assert b[i] in multiset(a) && b[j] in multiset(a);
    }
  }

  /** Sorting images is the same as sorting by the images and mapping afterwards. */
  lemma {:induction false} InsertMap<T(!new), U>(cmp: (U, U) -> int, cmpOf: (T, T) -> int, f: T -> U, x: T, s: seq<T>)
    requires forall a, b :: cmpOf(a, b) == cmp(f(a), f(b))
    ensures Insert(cmp, f(x), Map(f, s)) == Map(f, Insert(cmpOf, x, s))
  {
    if s == [] || cmpOf(x, s[0]) <= 0 {
    } else {
      assert Map(f, s)[1..] == Map(f, s[1..]);
      InsertMap(cmp, cmpOf, f, x, s[1..]);
    }
  }

  lemma {:induction false} SortMap<T(!new), U>(cmp: (U, U) -> int, cmpOf: (T, T) -> int, f: T -> U, s: seq<T>)
    requires forall a, b :: cmpOf(a, b) == cmp(f(a), f(b))
    ensures Sort(cmp, Map(f, s)) == Map(f, Sort(cmpOf, s))
  {
    if s != [] {
      assert Map(f, s)[1..] == Map(f, s[1..]);
      SortMap(cmp, cmpOf, f, s[1..]);
      InsertMap(cmp, cmpOf, f, s[0], Sort(cmpOf, s[1..]));
    }
  }

  /** The elements that come strictly before `x`. */
  function Before<T>(cmp: (T, T) -> int, x: T): T -> bool {
    y => cmp(x, y) > 0
  }

  /** Two sorted arrangements of the same elements agree position by position, up to ties. */
  lemma NotBehind<T(!new)>(cmp: (T, T) -> int, a: seq<T>, b: seq<T>, i: nat)
    requires TotalPreorder(cmp) && Sorted(cmp, a) && Sorted(cmp, b)
    requires multiset(a) == multiset(b) && |a| == |b| && i < |a|
    ensures cmp(a[i], b[i]) <= 0
  {
    CountAtMost(Before(cmp, a[i]), a, i);
    CountPermutation(Before(cmp, a[i]), a, b);
    if cmp(a[i], b[i]) > 0 {
      forall k | 0 <= k < i + 1
        ensures Before(cmp, a[i])(b[k])
      {
        assert k == i || cmp(b[k], b[i]) <= 0;
      }
      CountAtLeast(Before(cmp, a[i]), b, i + 1);
    }
  }
}
