/** The order in which the pacer drains its queue (src/services/pacer.ts). */
module QueueOrder {
  import opened Prelude
  import opened Campaigns
  import opened Articles
  import opened StableSort
  import opened IstClock

  /** Newer IST day first, then authority, then oldest first. */
  function RankQualified(a: Article, b: Article): int {
    var dk := StartOfTodayIST(b.createdAt) - StartOfTodayIST(a.createdAt);
    if dk != 0 then dk
    else
      var ta, tb := AuthorityTier(a.authority), AuthorityTier(b.authority);
      if ta != tb then ta - tb else a.createdAt - b.createdAt
  }

  function NewestFirst(a: Article, b: Article): int {
    b.createdAt - a.createdAt
  }

  predicate IsPending(a: Article, queue: Queue) {
    a.status == Draft && a.queue == queue
  }

  function PendingIn(queue: Queue): Article -> bool {
    a => IsPending(a, queue)
  }

  function PendingSince(since: int): Article -> bool {
    (a: Article) => IsPending(a, Qualified) && a.createdAt >= since
  }

  /** The Queue screen: `fallback` is a read sorted newest first. */
  function PendingQueue(qualified: seq<Article>, fallback: seq<Article>): seq<Article> {
    Sort(RankQualified, qualified) + fallback
  }

  /** The pacer's pick when the morning backfill does not apply: what its three reads lead to. */
  function SelectNormal(todayQ: seq<Article>, qualified: seq<Article>, fallback: Option<Article>): Option<Article> {
    if todayQ != [] then Some(Sort(RankQualified, todayQ)[0])
    else if qualified != [] then Some(Sort(RankQualified, qualified)[0])
    else fallback
  }

  /** A row `findFirst` with `orderBy: createdAt desc` may return. */
  ghost predicate IsNewest(a: Option<Article>, table: set<Article>, p: Article -> bool) {
    match a
    case None => forall b :: b in table ==> !p(b)
    case Some(x) => x in table && p(x) && forall b :: b in table && p(b) ==> NewestFirst(x, b) <= 0
  }

  /** `x` can be the pick at `now`, whatever order the rows are read in. */
  ghost predicate CanPick(table: set<Article>, now: int, x: Option<Article>) {
    exists todayQ, qualified, fallback ::
      && IsRead(todayQ, table, PendingSince(StartOfTodayIST(now))) && IsRead(qualified, table, PendingIn(Qualified))
      && IsNewest(fallback, table, PendingIn(Fallback))
      && x == SelectNormal(todayQ, qualified, fallback)
  }

  /** `queue` can be what the Queue screen shows. */
  ghost predicate CanShow(table: set<Article>, queue: seq<Article>) {
    exists qualified, fallback ::
      && IsRead(qualified, table, PendingIn(Qualified)) && IsRead(fallback, table, PendingIn(Fallback))
      && Sorted(NewestFirst, fallback)
      && queue == PendingQueue(qualified, fallback)
  }

  // ----- the ranking -----

  lemma RankQualifiedTransitive(a: Article, b: Article, c: Article)
    ensures RankQualified(a, b) <= 0 || RankQualified(b, a) <= 0
    ensures RankQualified(a, b) <= 0 && RankQualified(b, c) <= 0 ==> RankQualified(a, c) <= 0
  {
  }

  lemma RankIsTotalPreorder()
    ensures TotalPreorder(RankQualified)
  {
    forall a, b
      ensures RankQualified(a, b) <= 0 || RankQualified(b, a) <= 0
    {
      RankQualifiedTransitive(a, b, a);
    }
    forall a, b, c | RankQualified(a, b) <= 0 && RankQualified(b, c) <= 0
      ensures RankQualified(a, c) <= 0
    {
      RankQualifiedTransitive(a, b, c);
    }
  }

  /** The order of release over both queues: everything qualified, by rank, then fallback, newest first. */
  function ReleaseRank(a: Article, b: Article): int {
    if a.queue == Qualified && b.queue == Qualified then RankQualified(a, b)
    else if a.queue == Qualified then -1
    else if b.queue == Qualified then 1
    else NewestFirst(a, b)
  }

  lemma ReleaseRankTransitive(a: Article, b: Article, c: Article)
    ensures ReleaseRank(a, b) <= 0 || ReleaseRank(b, a) <= 0
    ensures ReleaseRank(a, b) <= 0 && ReleaseRank(b, c) <= 0 ==> ReleaseRank(a, c) <= 0
  {
  }

  lemma ReleaseRankIsTotalPreorder()
    ensures TotalPreorder(ReleaseRank)
  {
    forall a, b
      ensures ReleaseRank(a, b) <= 0 || ReleaseRank(b, a) <= 0
    {
      ReleaseRankTransitive(a, b, a);
    }
    forall a, b, c | ReleaseRank(a, b) <= 0 && ReleaseRank(b, c) <= 0
      ensures ReleaseRank(a, c) <= 0
    {
      ReleaseRankTransitive(a, b, c);
    }
  }

  predicate Tied(a: Article, b: Article) {
    ReleaseRank(a, b) <= 0 && ReleaseRank(b, a) <= 0
  }

  /** What a tie leaves open: neither the queue, nor the day, nor the tier, nor the time of capture. */
  lemma TiedMeans(a: Article, b: Article)
    requires a.queue in {Qualified, Fallback} && b.queue in {Qualified, Fallback}
    ensures Tied(a, b) <==> (a.queue == b.queue && a.createdAt == b.createdAt
                             && (a.queue == Qualified ==> AuthorityTier(a.authority) == AuthorityTier(b.authority)))
  {
  }

  predicate IsQueued(a: Article) {
    IsPending(a, Qualified) || IsPending(a, Fallback)
  }

  /** `x` goes out no later than any other pending row. */
  ghost predicate GoesFirst(table: set<Article>, x: Article) {
    x in table && IsQueued(x) && forall b :: b in table && IsQueued(b) ==> ReleaseRank(x, b) <= 0
  }

  lemma SortHeadIsLeast(rows: seq<Article>)
    requires rows != []
    ensures var head := Sort(RankQualified, rows)[0];
            head in rows && forall b :: b in rows ==> RankQualified(head, b) <= 0
  {
    RankIsTotalPreorder();
    SortPermutes(RankQualified, rows);
    SortSorts(RankQualified, rows);
    var sorted := Sort(RankQualified, rows);
    assert sorted[0] in multiset(rows);
    forall b | b in rows
      ensures RankQualified(sorted[0], b) <= 0
    {
      assert b in multiset(sorted);
      var i :| 0 <= i < |sorted| && sorted[i] == b;
      RankQualifiedTransitive(b, b, b);
    }
  }

  /** For every clock value the pick goes first among everything pending, and there is one unless nothing pends. */
  lemma PickGoesFirst(table: set<Article>, now: int, x: Option<Article>)
    requires CanPick(table, now, x)
    ensures x.None? <==> forall b :: b in table ==> !IsQueued(b)
    ensures x.Some? ==> GoesFirst(table, x.value)
  {
    var since := StartOfTodayIST(now);
    var todayQ, qualified, fallback :|
      && IsRead(todayQ, table, PendingSince(since)) && IsRead(qualified, table, PendingIn(Qualified))
      && IsNewest(fallback, table, PendingIn(Fallback))
      && x == SelectNormal(todayQ, qualified, fallback);
    if todayQ != [] {
      SortHeadIsLeast(todayQ);
      var head := x.value;
      assert head in todayQ;
      forall b | b in table && IsPending(b, Qualified)
        ensures RankQualified(head, b) <= 0
      {
        TodayBeats(head, b, now);
        assert b.createdAt >= since ==> b in todayQ;
      }
    } else if qualified != [] {
      SortHeadIsLeast(qualified);
      assert x.value in qualified;
      forall b | b in table && IsPending(b, Qualified)
        ensures b in qualified
      {
      }
    } else {
      forall b | b in table
        ensures !IsPending(b, Qualified)
      {
        assert b !in qualified;
      }
    }
  }

  lemma TodayBeats(a: Article, b: Article, now: int)
    requires a.createdAt >= StartOfTodayIST(now)
    ensures b.createdAt >= StartOfTodayIST(now) || RankQualified(a, b) <= 0
  {
    if b.createdAt < StartOfTodayIST(now) {
      SameDayIff(a.createdAt, now);
      SameDayIff(b.createdAt, now);
      assert IstDay(b.createdAt) < IstDay(a.createdAt);
    }
  }

  // ----- the Queue screen tells the truth -----

  /** The screen shows every pending row once, in the order of release. */
  lemma ShownInReleaseOrder(table: set<Article>, queue: seq<Article>)
    requires CanShow(table, queue)
    ensures Sorted(ReleaseRank, queue) && Distinct(queue)
    ensures forall a :: a in queue <==> a in table && IsQueued(a)
  {
    var qualified, fallback :|
      && IsRead(qualified, table, PendingIn(Qualified)) && IsRead(fallback, table, PendingIn(Fallback))
      && Sorted(NewestFirst, fallback)
      && queue == PendingQueue(qualified, fallback);
    RankIsTotalPreorder();
    var sorted := Sort(RankQualified, qualified);
    SortPermutes(RankQualified, qualified);
    SortSorts(RankQualified, qualified);
    SameElements(sorted, qualified);
    forall i, j | 0 <= i < j < |queue|
      ensures ReleaseRank(queue[i], queue[j]) <= 0 && queue[i] != queue[j]
    {
      assert i < |sorted| ==> queue[i] in sorted;
      assert j < |sorted| ==> queue[j] in sorted;
      assert i >= |sorted| ==> queue[i] in fallback;
      assert j >= |sorted| ==> queue[j] in fallback;
    }
    forall a
      ensures a in queue <==> a in table && IsQueued(a)
    {
      assert a in queue <==> a in sorted || a in fallback;
    }
  }

  /**
   * The pick is tied with the head of what the screen shows, at every clock value; and an empty screen means there is
   * nothing to pick.
   */
  lemma PickTiesWithHead(table: set<Article>, now: int, x: Option<Article>, queue: seq<Article>)
    requires CanPick(table, now, x) && CanShow(table, queue)
    ensures x.None? <==> queue == []
    ensures x.Some? ==> Tied(x.value, queue[0])
  {
    PickGoesFirst(table, now, x);
    ShownInReleaseOrder(table, queue);
    ReleaseRankIsTotalPreorder();
    if queue != [] {
      assert queue[0] in queue;
    }
    if x.Some? {
      assert x.value in queue;
      var i :| 0 <= i < |queue| && queue[i] == x.value;
      assert ReleaseRank(x.value, x.value) <= 0;
      assert i > 0 ==> ReleaseRank(queue[0], queue[i]) <= 0;
    }
  }

  /** The row once it is claimed. */
  function Released(a: Article, now: int): Article {
    a.(status := Scheduled, claimedAt := Some(now))
  }

  /** Release after release with no arrivals, at any clock values, until a tick finds nothing. */
  ghost predicate IsDrain(table: set<Article>, clocks: seq<int>, out: seq<Article>)
    decreases |out|
  {
    && |clocks| == |out| + 1
    && (out == [] ==> CanPick(table, clocks[0], None))
    && (out != [] ==>
          && CanPick(table, clocks[0], Some(out[0]))
          && IsDrain(table - {out[0]} + {Released(out[0], clocks[0])}, clocks[1..], out[1..]))
  }

  lemma {:induction false} DrainIsSorted(table: set<Article>, clocks: seq<int>, out: seq<Article>)
    requires IsDrain(table, clocks, out)
    ensures Sorted(ReleaseRank, out) && Distinct(out)
    ensures forall a :: a in out <==> a in table && IsQueued(a)
    decreases |out|
  {
    if out == [] {
      PickGoesFirst(table, clocks[0], None);
    } else {
      PickGoesFirst(table, clocks[0], Some(out[0]));
      var rest := table - {out[0]} + {Released(out[0], clocks[0])};
      DrainIsSorted(rest, clocks[1..], out[1..]);
      assert out == [out[0]] + out[1..];
      assert forall a :: a in out[1..] <==> a in table && a != out[0] && IsQueued(a);
      SortedCons(out[0], out[1..]);
    }
  }

  lemma SortedCons(x: Article, s: seq<Article>)
    requires Sorted(ReleaseRank, s) && Distinct(s) && forall y :: y in s ==> y != x && ReleaseRank(x, y) <= 0
    ensures Sorted(ReleaseRank, [x] + s) && Distinct([x] + s)
  {
    var r := [x] + s;
    forall i, j | 0 <= i < j < |r|
      ensures ReleaseRank(r[i], r[j]) <= 0 && r[i] != r[j]
    {
      assert r[j] == s[j - 1] && r[j] in s;
      assert i > 0 ==> r[i] == s[i - 1];
    }
  }

  /** Repeated release with no arrivals drains exactly what the screen shows, in that order up to ties. */
  lemma DrainsInQueueOrder(table: set<Article>, clocks: seq<int>, out: seq<Article>, queue: seq<Article>)
    requires CanShow(table, queue) && IsDrain(table, clocks, out)
    ensures multiset(out) == multiset(queue) && |out| == |queue|
    ensures forall i :: 0 <= i < |out| ==> Tied(out[i], queue[i])
  {
    ShownInReleaseOrder(table, queue);
    DrainIsSorted(table, clocks, out);
    SameMembersSameMultiset(out, queue);
    assert |out| == |multiset(out)| == |multiset(queue)| == |queue|;
    ReleaseRankIsTotalPreorder();
    forall i | 0 <= i < |out|
      ensures Tied(out[i], queue[i])
    {
      NotBehind(ReleaseRank, out, queue, i);
      NotBehind(ReleaseRank, queue, out, i);
    }
  }

  // ----- what the order is, in the words of the newsroom -----

  /** `a` may go out before `b`: said without the ranking. */
  predicate MayPrecede(a: Article, b: Article) {
    if a.queue == Qualified && b.queue == Qualified then
      || IstDay(a.createdAt) > IstDay(b.createdAt)
      || (IstDay(a.createdAt) == IstDay(b.createdAt)
          && (|| AuthorityTier(a.authority) < AuthorityTier(b.authority)
              || (AuthorityTier(a.authority) == AuthorityTier(b.authority) && a.createdAt <= b.createdAt)))
    else if a.queue == Qualified then true
    else b.queue != Qualified && a.createdAt >= b.createdAt
  }

  lemma RankMeans(a: Article, b: Article)
    ensures ReleaseRank(a, b) <= 0 <==> MayPrecede(a, b)
  {
    DaysOrder(a.createdAt, b.createdAt);
  }

  lemma DaysOrder(s: int, t: int)
    ensures StartOfTodayIST(s) < StartOfTodayIST(t) <==> IstDay(s) < IstDay(t)
    ensures StartOfTodayIST(s) == StartOfTodayIST(t) <==> IstDay(s) == IstDay(t)
  {
  }

  /**
   * The screen in plain words: of two rows shown, both qualified, the earlier is of a later IST day, or of the same day
   * and a higher authority, or of the same day and authority and captured no later; the qualified stand before the
   * fallback rows, and those run newest first.
   */
  lemma ShownInPlainOrder(table: set<Article>, queue: seq<Article>, i: nat, j: nat)
    requires CanShow(table, queue) && i < j < |queue|
    ensures MayPrecede(queue[i], queue[j])
    ensures queue[j].queue == Qualified ==> queue[i].queue == Qualified
  {
    ShownInReleaseOrder(table, queue);
    RankMeans(queue[i], queue[j]);
    assert queue[i] in queue && queue[j] in queue;
  }

  /** And there is no pending row, at any clock value, that the pick may not precede. */
  lemma PickIsBest(table: set<Article>, now: int, x: Article, b: Article)
    requires CanPick(table, now, Some(x)) && b in table && b.status == Draft && b.queue in {Qualified, Fallback}
    ensures x in table && x.status == Draft && x.queue in {Qualified, Fallback} && MayPrecede(x, b)
  {
    PickGoesFirst(table, now, Some(x));
    RankMeans(x, b);
  }

  /** The authorities in order: the Supreme Court, the Bombay High Court, the other High Courts, everybody else. */
  lemma AuthoritiesInOrder(a: Article, b: Article)
    requires a.queue == Qualified && b.queue == Qualified && IstDay(a.createdAt) == IstDay(b.createdAt)
    requires a.authority != b.authority
    ensures a.authority == Some("Supreme Court") ==> !MayPrecede(b, a)
    ensures a.authority == Some("Bombay High Court") && b.authority != Some("Supreme Court") ==> !MayPrecede(b, a)
    ensures (a.authority == Some("High Court")
             && b.authority !in {Some("Supreme Court"), Some("Bombay High Court")}) ==> !MayPrecede(b, a)
    ensures ({a.authority, b.authority}
             !! {Some("Supreme Court"), Some("Bombay High Court"), Some("High Court")})
            ==> (MayPrecede(a, b) <==> a.createdAt <= b.createdAt)
  {
    Differ("Supreme Court", "High Court");
    Differ("Bombay High Court", "High Court");
  }

  lemma Differ(s: string, t: string)
    requires |s| != |t|
    ensures s != t
  {
  }
}
