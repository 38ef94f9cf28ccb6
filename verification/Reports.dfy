/**
 * The coverage report (src/services/reports.ts): one row per article, counted once in each heatmap. The article key of
 * a capture, whether its URL is an article's, and the heatmap row a report row belongs to are given.
 */
module Reports {
  import opened Prelude
  import opened Campaigns
  import opened IstClock
  import opened StableSort

  type Key = nat
  type Label = string

  datatype Capture = Capture(
    id: nat, key: Key, isArticle: bool, title: string, categories: seq<string>, createdAt: int, queue: Queue)

  datatype ReportRow = ReportRow(title: string, categories: seq<string>, day: int, queue: Queue)

  datatype HeatmapRow = HeatmapRow(name: Label, perDay: seq<nat>, total: nat)

  datatype Heatmap = Heatmap(rows: seq<HeatmapRow>, dates: seq<int>, dayTotals: seq<nat>, grandTotal: nat)

  datatype Quality = Quality(qualified: nat, fallback: nat, review: nat, uncategorized: nat)

  // ----- days -----

  /** How many steps of a day it takes from `start` to reach `end`. */
  function DaySteps(start: int, end: int): nat {
    if end <= start then 0 else (end - start + DAY_MS - 1) / DAY_MS
  }

  function Days(start: int, end: int): (days: seq<int>)
    ensures Distinct(days)
  {
    seq(DaySteps(start, end), i => IstDay(start) + i)
  }

  method DayKeys(start: int, end: int) returns (out: seq<int>)
    ensures out == Days(start, end)
    ensures if end <= start then out == [] else start + (|out| - 1) * DAY_MS < end <= start + |out| * DAY_MS
    ensures forall i :: 0 <= i < |out| ==> out[i] == IstDay(start) + i
  {
    out := [];
    var t := start;
    while t < end
      invariant t == start + |out| * DAY_MS
      invariant |out| <= DaySteps(start, end)
      invariant if out == [] then t == start else start + (|out| - 1) * DAY_MS < end
      invariant forall i :: 0 <= i < |out| ==> out[i] == IstDay(start) + i
      decreases end - t
    {
      out := out + [IstDay(t)];
      t := t + DAY_MS;
    }
  }

  /** From an IST midnight, every instant of the window falls on one of its days. */
  lemma WindowInDays(start: int, end: int, t: int)
    requires StartOfTodayIST(start) == start && start <= t < end
    ensures IstDay(t) in Days(start, end)
  {
    var i := IstDay(t) - IstDay(start);
    assert 0 <= i < DaySteps(start, end);
    assert Days(start, end)[i] == IstDay(t);
  }

  // ----- one row per article -----

  predicate HasKey(c: Capture, k: Key) {
    c.key == k
  }

  function KeyIs(k: Key): Capture -> bool {
    c => HasKey(c, k)
  }

  function Group(captures: seq<Capture>, k: Key): seq<Capture> {
    Filter(KeyIs(k), captures)
  }

  /** The keys in the order in which they first occur. */
  function FirstKeys(captures: seq<Capture>): seq<Key> {
    if captures == [] then []
    else
      var before, last := FirstKeys(captures[..|captures| - 1]), captures[|captures| - 1];
      if last.key in before then before else before + [last.key]
  }

  lemma {:induction false} FirstKeysAreAll(captures: seq<Capture>)
    ensures Distinct(FirstKeys(captures))
    ensures forall k :: k in FirstKeys(captures) <==> exists c :: c in captures && c.key == k
  {
    if captures != [] {
      FirstKeysAreAll(captures[..|captures| - 1]);
      assert captures == captures[..|captures| - 1] + [captures[|captures| - 1]];
    }
  }

  /** Of two keys listed, the earlier was captured before the later one ever was. */
  lemma {:induction false} FirstKeysInOrder(captures: seq<Capture>, i: nat, j: nat)
    requires i < j < |FirstKeys(captures)|
    ensures var keys := FirstKeys(captures);
            exists m :: 0 <= m < |captures| && captures[m].key == keys[i]
                        && forall n :: 0 <= n <= m ==> captures[n].key != keys[j]
  {
    var init, keys := captures[..|captures| - 1], FirstKeys(captures);
    var before := FirstKeys(init);
    if j < |before| {
      FirstKeysInOrder(init, i, j);
      var m :| 0 <= m < |init| && init[m].key == keys[i] && forall n :: 0 <= n <= m ==> init[n].key != keys[j];
      assert captures[m] == init[m] && forall n :: 0 <= n <= m ==> captures[n] == init[n];
    } else {
      FirstKeysAreAll(init);
      assert keys[i] == before[i] && before[i] in before;
      var c :| c in init && c.key == keys[i];
      var m :| 0 <= m < |init| && init[m] == c;
      forall n | 0 <= n <= m
        ensures captures[n].key != keys[j]
      {
        assert captures[n] == init[n] && init[n] in init && init[n].key in before;
      }
      assert captures[m].key == keys[i];
    }
  }

  function Score(c: Capture): nat {
    (if c.categories != [] then 2 else 0) + (if c.queue != Unqueued then 1 else 0)
  }

  /** Classified where the other is not; if both or neither are, queued where the other is not. */
  predicate IsRicher(a: Capture, b: Capture) {
    if a.categories == [] then b.categories == [] && a.queue != Unqueued && b.queue == Unqueued
    else b.categories == [] || (a.queue != Unqueued && b.queue == Unqueued)
  }

  lemma ScoreMeans(a: Capture, b: Capture)
    ensures Score(a) > Score(b) <==> IsRicher(a, b)
  {
  }

  /** The first capture than which none is richer. */
  predicate IsBest(group: seq<Capture>, best: Capture) {
    exists i ::
      && 0 <= i < |group| && group[i] == best
      && (forall j :: 0 <= j < |group| ==> !IsRicher(group[j], best))
      && (forall j :: 0 <= j < i ==> IsRicher(best, group[j]))
  }

  method Representative(group: seq<Capture>) returns (best: Capture)
    requires group != []
    ensures IsBest(group, best)
  {
    best := group[0];
    ghost var at := 0;
    for n := 0 to |group|
      invariant 0 <= at < |group| && at <= n && group[at] == best
      invariant forall j :: 0 <= j < n ==> !IsRicher(group[j], best)
      invariant forall j :: 0 <= j < at ==> IsRicher(best, group[j])
    {
      ScoreMeans(group[n], best);
      if Score(group[n]) > Score(best) {
        best, at := group[n], n;
      }
    }
  }

  predicate IsEarliest(group: seq<Capture>, t: int) {
    (exists c :: c in group && c.createdAt == t) && forall c :: c in group ==> t <= c.createdAt
  }

  method EarliestIn(group: seq<Capture>) returns (t: int)
    requires group != []
    ensures IsEarliest(group, t)
  {
    t := group[0].createdAt;
    for n := 0 to |group|
      invariant exists c :: c in group && c.createdAt == t
      invariant forall j :: 0 <= j < n ==> t <= group[j].createdAt
    {
      if group[n].createdAt < t {
        t := group[n].createdAt;
      }
    }
  }

  /** The row of one group: the richest capture's classification, on the day of the earliest. */
  ghost predicate IsRowOf(row: ReportRow, group: seq<Capture>) {
    exists best, t ::
      IsBest(group, best) && IsEarliest(group, t)
      && row == ReportRow(best.title, best.categories, IstDay(t), best.queue)
  }

  /** The row of one group. */
  method RowOf(group: seq<Capture>) returns (row: ReportRow)
    requires group != []
    ensures IsRowOf(row, group)
  {
    var rep := Representative(group);
    var earliest := EarliestIn(group);
    row := ReportRow(rep.title, rep.categories, IstDay(earliest), rep.queue);
  }

  /** The rows of the first so many keys. */
  ghost predicate AreRowsOf(out: seq<ReportRow>, captures: seq<Capture>, keys: seq<Key>) {
    |out| <= |keys| && forall i :: 0 <= i < |out| ==> IsRowOf(out[i], Group(captures, keys[i]))
  }

  lemma OneMoreRow(out: seq<ReportRow>, captures: seq<Capture>, keys: seq<Key>, row: ReportRow)
    requires AreRowsOf(out, captures, keys) && |out| < |keys| && IsRowOf(row, Group(captures, keys[|out|]))
    ensures AreRowsOf(out + [row], captures, keys)
  {
  }

  /** One row for every distinct key, in the order the keys first occur. */
  method DedupeByArticle(captures: seq<Capture>) returns (out: seq<ReportRow>)
    ensures |out| == |FirstKeys(captures)| && AreRowsOf(out, captures, FirstKeys(captures))
  {
    var order: seq<Key>, groups: map<Key, seq<Capture>> := GroupByKey(captures);
    out := [];
    for n := 0 to |order|
      invariant |out| == n && AreRowsOf(out, captures, order)
    {
      assert order[n] in order;
      GroupsNotEmpty(captures, order[n]);
      var row := RowOf(groups[order[n]]);
      OneMoreRow(out, captures, order, row);
      out := out + [row];
    }
  }

  lemma GroupsNotEmpty(captures: seq<Capture>, k: Key)
    requires k in FirstKeys(captures)
    ensures Group(captures, k) != []
  {
    FirstKeysAreAll(captures);
    GroupNotEmpty(captures, k);
  }

  lemma GroupNotEmpty(captures: seq<Capture>, k: Key)
    requires exists c :: c in captures && c.key == k
    ensures Group(captures, k) != []
  {
    var c :| c in captures && c.key == k;
    FilterMember(KeyIs(k), captures, c);
  }

  lemma GroupNext(captures: seq<Capture>, n: nat, k: Key)
    requires n < |captures|
    ensures Group(captures[..n + 1], k)
         == Group(captures[..n], k) + (if k == captures[n].key then [captures[n]] else [])
  {
    FilterConcat(KeyIs(k), captures[..n], [captures[n]]);
    assert captures[..n + 1] == captures[..n] + [captures[n]];
  }

  /** A `Map` of groups, with its insertion order. */
  method GroupByKey(captures: seq<Capture>) returns (order: seq<Key>, groups: map<Key, seq<Capture>>)
    ensures order == FirstKeys(captures)
    ensures forall k :: k in groups <==> k in order
    ensures forall k :: k in order ==> groups[k] == Group(captures, k)
  {
    order, groups := [], map[];
    for n := 0 to |captures|
      invariant order == FirstKeys(captures[..n])
      invariant forall k :: k in groups <==> k in order
      invariant forall k :: k in order ==> groups[k] == Group(captures[..n], k)
      invariant forall k :: k !in order ==> Group(captures[..n], k) == []
    {
      var c := captures[n];
      assert captures[..n + 1][..n] == captures[..n];
      forall k
        ensures Group(captures[..n + 1], k) == Group(captures[..n], k) + (if k == c.key then [c] else [])
      {
        GroupNext(captures, n, k);
      }
      if c.key in groups {
        groups := groups[c.key := groups[c.key] + [c]];
      } else {
        order, groups := order + [c.key], groups[c.key := [c]];
      }
    }
    assert captures[..|captures|] == captures;
  }

  // ----- heatmaps -----

  type RowKey = ReportRow -> Label

  predicate IsCell(rowKeyOf: RowKey, name: Label, day: int, r: ReportRow) {
    rowKeyOf(r) == name && r.day == day
  }

  function InCell(rowKeyOf: RowKey, name: Label, day: int): ReportRow -> bool {
    r => IsCell(rowKeyOf, name, day, r)
  }

  predicate HasDay(r: ReportRow, dates: seq<int>) {
    r.day in dates
  }

  function OnDay(day: int): ReportRow -> bool {
    r => HasDay(r, [day])
  }

  function InWindow(dates: seq<int>): ReportRow -> bool {
    r => HasDay(r, dates)
  }

  predicate IsNamed(rowKeyOf: RowKey, name: Label, dates: seq<int>, r: ReportRow) {
    rowKeyOf(r) == name && HasDay(r, dates)
  }

  function PerDay(rowKeyOf: RowKey, name: Label, dates: seq<int>, rows: seq<ReportRow>): seq<nat> {
    seq(|dates|, i requires 0 <= i < |dates| => Count(InCell(rowKeyOf, name, dates[i]), rows))
  }

  /** The labels in the order in which their first counted row occurs. */
  function FirstNames(rowKeyOf: RowKey, dates: seq<int>, rows: seq<ReportRow>): seq<Label> {
    if rows == [] then []
    else
      var before, r := FirstNames(rowKeyOf, dates, rows[..|rows| - 1]), rows[|rows| - 1];
      if HasDay(r, dates) && rowKeyOf(r) !in before then before + [rowKeyOf(r)] else before
  }

  lemma {:induction false} FirstNamesAreAll(rowKeyOf: RowKey, dates: seq<int>, rows: seq<ReportRow>)
    ensures Distinct(FirstNames(rowKeyOf, dates, rows))
    ensures forall r :: r in rows && HasDay(r, dates) ==> rowKeyOf(r) in FirstNames(rowKeyOf, dates, rows)
    ensures forall n :: n in FirstNames(rowKeyOf, dates, rows) ==>
              exists r :: r in rows && IsNamed(rowKeyOf, n, dates, r)
  {
    if rows != [] {
      var init, last := rows[..|rows| - 1], rows[|rows| - 1];
      FirstNamesAreAll(rowKeyOf, dates, init);
      assert rows == init + [last];
      forall n | n in FirstNames(rowKeyOf, dates, rows)
        ensures exists r :: r in rows && IsNamed(rowKeyOf, n, dates, r)
      {
        if n in FirstNames(rowKeyOf, dates, init) {
          var r :| r in init && IsNamed(rowKeyOf, n, dates, r);
          assert r in rows;
        } else {
          assert last in rows && IsNamed(rowKeyOf, n, dates, last);
        }
      }
    }
  }

  /** The position of a day, as the `Map` built from the dates gives it. */
  function DayIndex(dates: seq<int>, day: int): (i: Option<nat>)
    ensures i.None? <==> day !in dates
    ensures i.Some? ==> i.value < |dates| && dates[i.value] == day
  {
    if dates == [] then None
    else if dates[|dates| - 1] == day then Some(|dates| - 1)
    else DayIndex(dates[..|dates| - 1], day)
  }

  /** The counting loop: one counter per label and day. */
  method CountCells(rowKeyOf: RowKey, rows: seq<ReportRow>, dates: seq<int>)
    returns (order: seq<Label>, byRow: map<Label, seq<nat>>)
    requires Distinct(dates)
    ensures order == FirstNames(rowKeyOf, dates, rows)
    ensures forall n :: n in byRow <==> n in order
    ensures forall n :: n in order ==> byRow[n] == PerDay(rowKeyOf, n, dates, rows)
  {
    order, byRow := [], map[];
    for n := 0 to |rows|
      invariant order == FirstNames(rowKeyOf, dates, rows[..n])
      invariant forall l :: l in byRow <==> l in order
      invariant forall l :: l in order ==> byRow[l] == PerDay(rowKeyOf, l, dates, rows[..n])
    {
      var r := rows[n];
      assert rows[..n + 1][..n] == rows[..n];
      var i := DayIndex(dates, r.day);
      forall l
        ensures PerDay(rowKeyOf, l, dates, rows[..n + 1]) == Counted(rowKeyOf, l, dates, rows[..n], r)
      {
        PerDayNext(rowKeyOf, l, dates, rows, n);
      }
      if i.Some? {
        var key := rowKeyOf(r);
        if key !in byRow {
          FirstNamesAreAll(rowKeyOf, dates, rows[..n]);
          NothingYet(rowKeyOf, key, dates, rows[..n]);
          order, byRow := order + [key], byRow[key := seq(|dates|, _ => 0)];
        }
        byRow := byRow[key := byRow[key][i.value := byRow[key][i.value] + 1]];
        CountedOne(rowKeyOf, key, dates, rows[..n], r, i.value);
      }
      forall l | l in order && !(i.Some? && l == rowKeyOf(r))
        ensures byRow[l] == PerDay(rowKeyOf, l, dates, rows[..n + 1])
      {
        CountedNone(rowKeyOf, l, dates, rows[..n], r);
      }
    }
    assert rows[..|rows|] == rows;
  }

  /** The counters of a label after one more row. */
  function Counted(rowKeyOf: RowKey, name: Label, dates: seq<int>, rows: seq<ReportRow>, r: ReportRow): seq<nat> {
    seq(|dates|, i requires 0 <= i < |dates| =>
      Count(InCell(rowKeyOf, name, dates[i]), rows) + (if IsCell(rowKeyOf, name, dates[i], r) then 1 else 0))
  }

  lemma PerDayNext(rowKeyOf: RowKey, name: Label, dates: seq<int>, rows: seq<ReportRow>, n: nat)
    requires n < |rows|
    ensures PerDay(rowKeyOf, name, dates, rows[..n + 1]) == Counted(rowKeyOf, name, dates, rows[..n], rows[n])
  {
    assert rows[..n + 1] == rows[..n] + [rows[n]];
    forall i | 0 <= i < |dates|
      ensures Count(InCell(rowKeyOf, name, dates[i]), rows[..n + 1])
           == Count(InCell(rowKeyOf, name, dates[i]), rows[..n])
            + (if IsCell(rowKeyOf, name, dates[i], rows[n]) then 1 else 0)
    {
      CountConcat(InCell(rowKeyOf, name, dates[i]), rows[..n], [rows[n]]);
    }
  }

  lemma CountedOne(rowKeyOf: RowKey, name: Label, dates: seq<int>, rows: seq<ReportRow>, r: ReportRow, i: nat)
    requires Distinct(dates) && i < |dates| && dates[i] == r.day && rowKeyOf(r) == name
    ensures var p := PerDay(rowKeyOf, name, dates, rows);
            Counted(rowKeyOf, name, dates, rows, r) == p[i := p[i] + 1]
  {
  }

  lemma CountedNone(rowKeyOf: RowKey, name: Label, dates: seq<int>, rows: seq<ReportRow>, r: ReportRow)
    requires rowKeyOf(r) != name || r.day !in dates
    ensures Counted(rowKeyOf, name, dates, rows, r) == PerDay(rowKeyOf, name, dates, rows)
  {
  }

  lemma NothingYet(rowKeyOf: RowKey, name: Label, dates: seq<int>, rows: seq<ReportRow>)
    requires forall r :: r in rows && HasDay(r, dates) ==> rowKeyOf(r) != name
    ensures PerDay(rowKeyOf, name, dates, rows) == seq(|dates|, _ => 0)
  {
    forall i | 0 <= i < |dates|
      ensures Count(InCell(rowKeyOf, name, dates[i]), rows) == 0
    {
      forall r | r in rows
        ensures !InCell(rowKeyOf, name, dates[i])(r)
      {
        assert HasDay(r, dates) || r.day != dates[i];
      }
      CountNone(InCell(rowKeyOf, name, dates[i]), rows);
    }
  }

  function Itself(): nat -> nat {
    n => n
  }

  function PerDayAt(r: HeatmapRow, i: nat): nat {
    if i < |r.perDay| then r.perDay[i] else 0
  }

  function AtDay(i: nat): HeatmapRow -> nat {
    r => PerDayAt(r, i)
  }

  lemma SumNext<T>(w: T -> nat, s: seq<T>, n: nat)
    requires n < |s|
    ensures Sum(w, s[..n + 1]) == Sum(w, s[..n]) + w(s[n])
  {
    assert s[..n + 1] == s[..n] + [s[n]];
    SumConcat(w, s[..n], [s[n]]);
  }

  method Total(s: seq<nat>) returns (total: nat)
    ensures total == Sum(Itself(), s)
  {
    total := 0;
    for n := 0 to |s|
      invariant total == Sum(Itself(), s[..n])
    {
      SumNext(Itself(), s, n);
      total := total + s[n];
    }
    assert s[..|s|] == s;
  }

  method ColumnTotal(rows: seq<HeatmapRow>, i: nat) returns (total: nat)
    requires forall r :: r in rows ==> i < |r.perDay|
    ensures total == Sum(AtDay(i), rows)
  {
    total := 0;
    for n := 0 to |rows|
      invariant total == Sum(AtDay(i), rows[..n])
    {
      SumNext(AtDay(i), rows, n);
      total := total + rows[n].perDay[i];
    }
    assert rows[..|rows|] == rows;
  }

  function Entry(rowKeyOf: RowKey, dates: seq<int>, rows: seq<ReportRow>): Label -> HeatmapRow {
    name => HeatmapRow(name, PerDay(rowKeyOf, name, dates, rows), Sum(Itself(), PerDay(rowKeyOf, name, dates, rows)))
  }

  /** The rows of a heatmap before they are sorted. */
  function Entries(rowKeyOf: RowKey, dates: seq<int>, rows: seq<ReportRow>): seq<HeatmapRow> {
    Map(Entry(rowKeyOf, dates, rows), FirstNames(rowKeyOf, dates, rows))
  }

  type Compare = (HeatmapRow, HeatmapRow) -> int

  method BuildEntries(rowKeyOf: RowKey, rows: seq<ReportRow>, dates: seq<int>) returns (entries: seq<HeatmapRow>)
    requires Distinct(dates)
    ensures entries == Entries(rowKeyOf, dates, rows)
  {
    var order, byRow := CountCells(rowKeyOf, rows, dates);
    entries := [];
    for n := 0 to |order|
      invariant entries == Map(Entry(rowKeyOf, dates, rows), order[..n])
    {
      assert order[n] in order;
      var total := Total(byRow[order[n]]);
      MapLast(Entry(rowKeyOf, dates, rows), order[..n + 1]);
      assert order[..n + 1][..n] == order[..n];
      entries := entries + [HeatmapRow(order[n], byRow[order[n]], total)];
    }
    assert order[..|order|] == order;
  }

  lemma EntriesAreFull(rowKeyOf: RowKey, rows: seq<ReportRow>, dates: seq<int>, sorted: seq<HeatmapRow>)
    requires multiset(sorted) == multiset(Entries(rowKeyOf, dates, rows))
    ensures forall r :: r in sorted ==> |r.perDay| == |dates|
  {
    SameElements(sorted, Entries(rowKeyOf, dates, rows));
  }

  lemma SortedColumnCounts(rowKeyOf: RowKey, rows: seq<ReportRow>, dates: seq<int>, sorted: seq<HeatmapRow>, i: nat)
    requires multiset(sorted) == multiset(Entries(rowKeyOf, dates, rows)) && i < |dates|
    ensures Sum(AtDay(i), sorted) == Count(OnDay(dates[i]), rows)
  {
    SumPermutation(AtDay(i), sorted, Entries(rowKeyOf, dates, rows));
    ColumnCounts(rowKeyOf, dates, rows, i);
  }

  method DayTotals(rowKeyOf: RowKey, rows: seq<ReportRow>, dates: seq<int>, sorted: seq<HeatmapRow>)
    returns (dayTotals: seq<nat>)
    requires multiset(sorted) == multiset(Entries(rowKeyOf, dates, rows))
    ensures |dayTotals| == |dates| && forall i :: 0 <= i < |dates| ==> dayTotals[i] == Count(OnDay(dates[i]), rows)
  {
    EntriesAreFull(rowKeyOf, rows, dates, sorted);
    dayTotals := [];
    for i := 0 to |dates|
      invariant |dayTotals| == i
      invariant forall k :: 0 <= k < i ==> dayTotals[k] == Count(OnDay(dates[k]), rows)
    {
      var total := ColumnTotal(sorted, i);
      SortedColumnCounts(rowKeyOf, rows, dates, sorted, i);
      dayTotals := dayTotals + [total];
    }
  }

  /**
   * A heatmap is its sorted entries, and it loses nothing: each day's total is the number of rows on that day, and the
   * grand total the number of rows in the window, whatever the row keys and the order.
   */
  method BuildHeatmap(rowKeyOf: RowKey, rows: seq<ReportRow>, dates: seq<int>, compare: Compare) returns (h: Heatmap)
    requires Distinct(dates)
    ensures h.rows == Sort(compare, Entries(rowKeyOf, dates, rows)) && h.dates == dates
    ensures |h.dayTotals| == |dates| && forall i :: 0 <= i < |dates| ==> h.dayTotals[i] == Count(OnDay(dates[i]), rows)
    ensures h.grandTotal == Sum(Itself(), h.dayTotals) == Count(InWindow(dates), rows)
  {
    var entries := BuildEntries(rowKeyOf, rows, dates);
    var sorted := Sort(compare, entries);
    SortPermutes(compare, entries);
    var dayTotals := DayTotals(rowKeyOf, rows, dates, sorted);
    DaysCount(dates, rows, dayTotals);
    var grandTotal := Total(dayTotals);
    h := Heatmap(sorted, dates, dayTotals, grandTotal);
  }

  // ----- conservation -----

  function RowCell<X, T>(cell: (X, T) -> bool, x: X): T -> bool {
    t => cell(x, t)
  }

  function ColCell<X, T>(cell: (X, T) -> bool, t: T): X -> bool {
    x => cell(x, t)
  }

  function CellCount<X, T>(cell: (X, T) -> bool, rows: seq<T>): X -> nat {
    x => Count(RowCell(cell, x), rows)
  }

  /** Counting a table by rows or by columns. */
  lemma {:induction false} SumSplit<X, T>(cell: (X, T) -> bool, xs: seq<X>, rows: seq<T>)
    requires rows != []
    ensures Sum(CellCount(cell, rows), xs) == Sum(CellCount(cell, rows[1..]), xs) + Count(ColCell(cell, rows[0]), xs)
  {
    if xs != [] {
      SumSplit(cell, xs[1..], rows);
    }
  }

  /** If every row that counts is in exactly one of the parts, and no other is in any, the parts add up. */
  lemma {:induction false} PartsAddUp<X, T>(cell: (X, T) -> bool, p: T -> bool, xs: seq<X>, rows: seq<T>)
    requires forall t :: t in rows ==> Count(ColCell(cell, t), xs) == if p(t) then 1 else 0
    ensures Sum(CellCount(cell, rows), xs) == Count(p, rows)
  {
    if rows == [] {
      SumZero(CellCount(cell, rows), xs);
    } else {
      SumSplit(cell, xs, rows);
      assert rows[0] in rows;
      PartsAddUp(cell, p, xs, rows[1..]);
    }
  }

  lemma {:induction false} SumSame<X, Y>(v: X -> nat, w: Y -> nat, xs: seq<X>, ys: seq<Y>)
    requires |xs| == |ys| && forall i :: 0 <= i < |xs| ==> v(xs[i]) == w(ys[i])
    ensures Sum(v, xs) == Sum(w, ys)
  {
    if xs != [] {
      SumSame(v, w, xs[1..], ys[1..]);
    }
  }

  /** One position matches when the values there are distinct. */
  lemma CountsOnce<X(!new)>(p: X -> bool, xs: seq<X>, x: X)
    requires Distinct(xs) && forall y :: y in xs && p(y) ==> y == x
    ensures Count(p, xs) == if x in xs && p(x) then 1 else 0
  {
    if x in xs && p(x) {
      var i :| 0 <= i < |xs| && xs[i] == x;
      CountAtMostOne(p, xs);
      CountAround(p, xs, i);
    } else {
      CountNone(p, xs);
    }
  }

  function NameCell(rowKeyOf: RowKey, day: int): (Label, ReportRow) -> bool {
    (name, r) => IsCell(rowKeyOf, name, day, r)
  }

  predicate IsOn(day: int, r: ReportRow) {
    r.day == day
  }

  function DayCell(): (int, ReportRow) -> bool {
    (day, r) => IsOn(day, r)
  }

  lemma {:induction false} CountSame<T>(p: T -> bool, q: T -> bool, s: seq<T>)
    requires forall t :: t in s ==> p(t) == q(t)
    ensures Count(p, s) == Count(q, s)
  {
    if s != [] {
      assert s[0] in s;
      CountSame(p, q, s[1..]);
    }
  }

  /** A column of the entries counts the rows of its day. */
  lemma ColumnCounts(rowKeyOf: RowKey, dates: seq<int>, rows: seq<ReportRow>, i: nat)
    requires i < |dates|
    ensures Sum(AtDay(i), Entries(rowKeyOf, dates, rows)) == Count(OnDay(dates[i]), rows)
  {
    var names, cell := FirstNames(rowKeyOf, dates, rows), NameCell(rowKeyOf, dates[i]);
    FirstNamesAreAll(rowKeyOf, dates, rows);
    forall t | t in rows
      ensures Count(ColCell(cell, t), names) == if OnDay(dates[i])(t) then 1 else 0
    {
      CountsOnce(ColCell(cell, t), names, rowKeyOf(t));
      assert t.day == dates[i] ==> HasDay(t, dates);
    }
    PartsAddUp(cell, OnDay(dates[i]), names, rows);
    forall k | 0 <= k < |names|
      ensures CellCount(cell, rows)(names[k]) == AtDay(i)(Entries(rowKeyOf, dates, rows)[k])
    {
      CountSame(RowCell(cell, names[k]), InCell(rowKeyOf, names[k], dates[i]), rows);
    }
    SumSame(CellCount(cell, rows), AtDay(i), names, Entries(rowKeyOf, dates, rows));
  }

  /** The days' counts add up to the rows of the window. */
  lemma DaysCount(dates: seq<int>, rows: seq<ReportRow>, dayTotals: seq<nat>)
    requires Distinct(dates) && |dayTotals| == |dates|
    requires forall i :: 0 <= i < |dates| ==> dayTotals[i] == Count(OnDay(dates[i]), rows)
    ensures Sum(Itself(), dayTotals) == Count(InWindow(dates), rows)
  {
    var cell := DayCell();
    forall t | t in rows
      ensures Count(ColCell(cell, t), dates) == if InWindow(dates)(t) then 1 else 0
    {
      CountsOnce(ColCell(cell, t), dates, t.day);
    }
    PartsAddUp(cell, InWindow(dates), dates, rows);
    forall i | 0 <= i < |dates|
      ensures CellCount(cell, rows)(dates[i]) == Itself()(dayTotals[i])
    {
      CountSame(RowCell(cell, dates[i]), OnDay(dates[i]), rows);
    }
    SumSame(CellCount(cell, rows), Itself(), dates, dayTotals);
  }

  // ----- the report -----

  const RECAPTURE_LOOKBACK_MS: int := 90 * DAY_MS

  datatype Report = Report(
    dates: seq<int>, total: nat, prevTotal: nat, byCategory: Heatmap, byBench: Heatmap, quality: Quality)

  predicate IsCapturedIn(c: Capture, from: int, to: int) {
    from <= c.createdAt < to
  }

  function CapturedIn(from: int, to: int): Capture -> bool {
    c => IsCapturedIn(c, from, to)
  }

  /** The articles captured in [from, to). */
  function KeysIn(table: seq<Capture>, from: int, to: int): set<Key> {
    set c | c in table && c.isArticle && IsCapturedIn(c, from, to) :: c.key
  }

  /** What one read of the earlier captures shows: the window before, and the lookback before that. */
  function SeenBeforeStart(table: seq<Capture>, start: int, end: int): set<Key> {
    KeysIn(table, start - (end - start) - RECAPTURE_LOOKBACK_MS, start)
  }

  /** The articles a report over [start, end) counts: captured in it, and not in the window before or the lookback. */
  function NewKeys(table: seq<Capture>, start: int, end: int): set<Key> {
    KeysIn(table, start, end) - SeenBeforeStart(table, start, end)
  }

  /** The articles it counts for the window before. */
  function PrevKeys(table: seq<Capture>, start: int, end: int): set<Key> {
    var prevStart := start - (end - start);
    KeysIn(table, prevStart, start) - KeysIn(table, prevStart - RECAPTURE_LOOKBACK_MS, prevStart)
  }

  predicate IsNewArticle(c: Capture, seen: set<Key>) {
    c.isArticle && c.key !in seen
  }

  function NewArticle(seen: set<Key>): Capture -> bool {
    c => IsNewArticle(c, seen)
  }

  predicate HasQueue(r: ReportRow, queue: Queue) {
    r.queue == queue
  }

  function InQueue(queue: Queue): ReportRow -> bool {
    r => HasQueue(r, queue)
  }

  method CountQuality(rows: seq<ReportRow>) returns (q: Quality)
    ensures q.qualified == Count(InQueue(Qualified), rows) && q.fallback == Count(InQueue(Fallback), rows)
    ensures q.review == Count(InQueue(Review), rows) && q.uncategorized == Count(InQueue(Unqueued), rows)
    ensures q.qualified + q.fallback + q.review + q.uncategorized == |rows|
  {
    q := Quality(0, 0, 0, 0);
    for n := 0 to |rows|
      invariant q.qualified == Count(InQueue(Qualified), rows[..n])
      invariant q.fallback == Count(InQueue(Fallback), rows[..n])
      invariant q.review == Count(InQueue(Review), rows[..n])
      invariant q.uncategorized == Count(InQueue(Unqueued), rows[..n])
      invariant q.qualified + q.fallback + q.review + q.uncategorized == n
    {
      CountNext(InQueue(Qualified), rows, n);
      CountNext(InQueue(Fallback), rows, n);
      CountNext(InQueue(Review), rows, n);
      CountNext(InQueue(Unqueued), rows, n);
      match rows[n].queue
      case Qualified => q := q.(qualified := q.qualified + 1);
      case Fallback => q := q.(fallback := q.fallback + 1);
      case Review => q := q.(review := q.review + 1);
      case Unqueued => q := q.(uncategorized := q.uncategorized + 1);
    }
    assert rows[..|rows|] == rows;
  }

  lemma CountNext<T>(p: T -> bool, s: seq<T>, n: nat)
    requires n < |s|
    ensures Count(p, s[..n + 1]) == Count(p, s[..n]) + (if p(s[n]) then 1 else 0)
  {
    assert s[..n + 1] == s[..n] + [s[n]];
    CountConcat(p, s[..n], [s[n]]);
  }

  lemma {:induction false} DistinctSize<T>(s: seq<T>, members: set<T>)
    requires Distinct(s) && forall x :: x in s <==> x in members
    ensures |s| == |members|
  {
    if s == [] {
      assert members == {};
    } else {
      assert s == [s[0]] + s[1..];
      assert members == {s[0]} + (members - {s[0]});
      DistinctSize(s[1..], members - {s[0]});
    }
  }

  /** Every row of a de-duplicated window falls on one of its days. */
  lemma RowsInWindow(captures: seq<Capture>, start: int, end: int, rows: seq<ReportRow>)
    requires StartOfTodayIST(start) == start
    requires forall c :: c in captures ==> IsCapturedIn(c, start, end)
    requires |rows| == |FirstKeys(captures)| && AreRowsOf(rows, captures, FirstKeys(captures))
    ensures Count(InWindow(Days(start, end)), rows) == |rows|
  {
    forall r | r in rows
      ensures InWindow(Days(start, end))(r)
    {
      var i :| 0 <= i < |rows| && rows[i] == r;
      var group := Group(captures, FirstKeys(captures)[i]);
      var best, t :| IsBest(group, best) && IsEarliest(group, t)
        && r == ReportRow(best.title, best.categories, IstDay(t), best.queue);
      var c :| c in group && c.createdAt == t;
      FilterMember(KeyIs(FirstKeys(captures)[i]), captures, c);
      WindowInDays(start, end, t);
    }
    CountAll(InWindow(Days(start, end)), rows);
  }

  lemma SelectedKeys(table: seq<Capture>, from: int, to: int, seen: set<Key>, captures: seq<Capture>)
    requires captures == Filter(NewArticle(seen), Filter(CapturedIn(from, to), table))
    ensures forall c :: c in captures ==> IsCapturedIn(c, from, to)
    ensures |FirstKeys(captures)| == |KeysIn(table, from, to) - seen|
  {
    forall c
      ensures c in captures <==> c in table && IsCapturedIn(c, from, to) && IsNewArticle(c, seen)
    {
      FilterMember(CapturedIn(from, to), table, c);
      FilterMember(NewArticle(seen), Filter(CapturedIn(from, to), table), c);
    }
    FirstKeysAreAll(captures);
    forall k
      ensures k in FirstKeys(captures) <==> k in KeysIn(table, from, to) - seen
    {
      if k in KeysIn(table, from, to) - seen {
        var c :| c in table && c.isArticle && IsCapturedIn(c, from, to) && c.key == k;
        assert c in captures;
      }
    }
    DistinctSize(FirstKeys(captures), KeysIn(table, from, to) - seen);
  }

  /** The rows of the report: one per article that is new in the window, each on one of its days. */
  method NewRows(table: seq<Capture>, start: int, end: int, seen: set<Key>) returns (rows: seq<ReportRow>)
    requires StartOfTodayIST(start) == start
    ensures |rows| == |KeysIn(table, start, end) - seen|
    ensures Count(InWindow(Days(start, end)), rows) == |rows|
  {
    var unseen := Filter(NewArticle(seen), Filter(CapturedIn(start, end), table));
    rows := DedupeByArticle(unseen);
    SelectedKeys(table, start, end, seen, unseen);
    RowsInWindow(unseen, start, end, rows);
  }

  lemma SameDayTotals(dates: seq<int>, rows: seq<ReportRow>, a: seq<nat>, b: seq<nat>)
    requires |a| == |dates| && forall i :: 0 <= i < |dates| ==> a[i] == Count(OnDay(dates[i]), rows)
    requires |b| == |dates| && forall i :: 0 <= i < |dates| ==> b[i] == Count(OnDay(dates[i]), rows)
    ensures a == b
  {
  }

  /**
   * Every number of the report is about the same articles: the total, both grand totals, both sums of day totals and
   * the quality counts all equal the number of article keys captured in the window and not seen before it.
   */
  method BuildReport(table: seq<Capture>, start: int, end: int, categoryRowKey: RowKey, benchRowKey: RowKey,
                     busiestFirst: Compare, byRank: Compare) returns (r: Report)
    requires StartOfTodayIST(start) == start
    ensures r.dates == Days(start, end)
    ensures r.total == |NewKeys(table, start, end)| && r.prevTotal == |PrevKeys(table, start, end)|
    ensures r.total == r.byCategory.grandTotal == Sum(Itself(), r.byCategory.dayTotals)
    ensures r.total == r.byBench.grandTotal == Sum(Itself(), r.byBench.dayTotals)
    ensures r.byCategory.dayTotals == r.byBench.dayTotals
    ensures r.total == r.quality.qualified + r.quality.fallback + r.quality.review + r.quality.uncategorized
  {
    var dates := DayKeys(start, end);
    var rows := NewRows(table, start, end, SeenBeforeStart(table, start, end));
    var prevTotal := |PrevKeys(table, start, end)|;
    var byCategory := BuildHeatmap(categoryRowKey, rows, dates, busiestFirst);
    var byBench := BuildHeatmap(benchRowKey, rows, dates, byRank);
    SameDayTotals(dates, rows, byCategory.dayTotals, byBench.dayTotals);
    var quality := CountQuality(rows);
    r := Report(dates, |rows|, prevTotal, byCategory, byBench, quality);
  }

  // ----- adjacent windows -----

  /** Two windows count no article in common if their starts are no further apart than the later one looks back. */
  lemma CountedAtMostOnce(table: seq<Capture>, start: int, end: int, laterStart: int, laterEnd: int)
    requires start <= end <= laterStart <= laterEnd
    requires laterStart - start <= RECAPTURE_LOOKBACK_MS + (laterEnd - laterStart)
    ensures NewKeys(table, start, end) !! NewKeys(table, laterStart, laterEnd)
  {
    forall k | k in NewKeys(table, start, end)
      ensures k !in NewKeys(table, laterStart, laterEnd)
    {
      var c :| c in table && c.isArticle && IsCapturedIn(c, start, end) && c.key == k;
      assert IsCapturedIn(c, laterStart - (laterEnd - laterStart) - RECAPTURE_LOOKBACK_MS, laterStart);
    }
  }

  /** So across adjacent windows spanning at most 90 days each article is counted at most once. */
  lemma AdjacentWindows(table: seq<Capture>, bounds: seq<int>, i: nat, j: nat)
    requires forall a, b :: 0 <= a < b < |bounds| ==> bounds[a] <= bounds[b]
    requires i < j < |bounds| - 1 && bounds[|bounds| - 1] - bounds[0] <= RECAPTURE_LOOKBACK_MS
    ensures NewKeys(table, bounds[i], bounds[i + 1]) !! NewKeys(table, bounds[j], bounds[j + 1])
  {
    assert bounds[0] <= bounds[i] && bounds[j] <= bounds[|bounds| - 1];
    assert bounds[i + 1] <= bounds[j] || i + 1 == j;
    CountedAtMostOnce(table, bounds[i], bounds[i + 1], bounds[j], bounds[j + 1]);
  }

  /**
   * The trend compares like with like only up to a point: `prevTotal` looks back 90 days, while the report of the
   * previous window itself looks back 90 days plus its own length. The two agree if and only if no article of the
   * previous window was last seen in that extra stretch.
   */
  lemma PrevTotalAgreesIff(table: seq<Capture>, start: int, end: int)
    requires start <= end
    ensures var span := end - start;
            var prevStart := start - span;
            var edge := prevStart - RECAPTURE_LOOKBACK_MS;
            && NewKeys(table, prevStart, start) <= PrevKeys(table, start, end)
            && (NewKeys(table, prevStart, start) == PrevKeys(table, start, end) <==>
                  KeysIn(table, prevStart, start) * KeysIn(table, edge - span, edge) <= KeysIn(table, edge, prevStart))
  {
    var span := end - start;
    var prevStart := start - span;
    var edge := prevStart - RECAPTURE_LOOKBACK_MS;
    forall k
      ensures k in KeysIn(table, edge - span, prevStart)
         <==> k in KeysIn(table, edge - span, edge) || k in KeysIn(table, edge, prevStart)
    {
      SplitKeys(table, edge - span, edge, prevStart, k);
    }
  }

  /**
   * An article captured a day before the midnight `start`, and before that 90 days and a millisecond earlier: the
   * report of that day has seen it before, the trend of the next day's report has not.
   */
  lemma TrendCountsOldArticle(start: int) returns (table: seq<Capture>)
    ensures |table| == 2 && table[0].key == table[1].key && table[0].createdAt == start - 91 * DAY_MS - 1
    ensures NewKeys(table, start - DAY_MS, start) == {}
    ensures PrevKeys(table, start, start + DAY_MS) == {table[1].key}
  {
    var early := Capture(0, 7, true, "", [], start - 91 * DAY_MS - 1, Unqueued);
    var again := Capture(1, 7, true, "", [], start - DAY_MS, Unqueued);
    table := [early, again];
    assert early in table && again in table;
    assert IsCapturedIn(again, start - DAY_MS, start);
    assert IsCapturedIn(early, start - DAY_MS - DAY_MS - RECAPTURE_LOOKBACK_MS, start - DAY_MS);
  }

  lemma SplitKeys(table: seq<Capture>, a: int, b: int, c: int, k: Key)
    requires a <= b <= c
    ensures k in KeysIn(table, a, c) <==> k in KeysIn(table, a, b) || k in KeysIn(table, b, c)
  {
    if k in KeysIn(table, a, c) {
      var x :| x in table && x.isArticle && IsCapturedIn(x, a, c) && x.key == k;
      assert IsCapturedIn(x, a, b) || IsCapturedIn(x, b, c);
    }
    if k in KeysIn(table, a, b) {
      var x :| x in table && x.isArticle && IsCapturedIn(x, a, b) && x.key == k;
      assert IsCapturedIn(x, a, c);
    }
    if k in KeysIn(table, b, c) {
      var x :| x in table && x.isArticle && IsCapturedIn(x, b, c) && x.key == k;
      assert IsCapturedIn(x, a, c);
    }
  }
}
