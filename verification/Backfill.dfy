/**
 * The morning backfill (src/services/pacer.ts): which of yesterday's articles fills an empty slot, and why no URL is
 * used twice in one IST day even when a send crashes before it has written anything.
 */
module Backfill {
  import opened Prelude
  import opened Campaigns
  import opened Articles
  import opened StableSort
  import opened IstClock
  import opened Events

  // ----- the queries -----

  function IsSentOf(id: Id, since: int): Event -> bool {
    (e: Event) => e.typ == SENT && e.campaign == Some(id) && e.createdAt >= since
  }

  function IsClickOf(id: Id): Event -> bool {
    (e: Event) => e.typ == CLICKED && e.campaign == Some(id)
  }

  /** The row went out since `since`, or its send started then. */
  predicate IsUsed(a: Article, events: EventTable, since: int) {
    Where(events, IsSentOf(a.id, since)) != {} || (a.claimedAt.Some? && a.claimedAt.value >= since)
  }

  function SentUrlsToday(rows: map<Id, Article>, events: EventTable, now: int): set<Url> {
    set id | id in rows && IsUsed(rows[id], events, StartOfTodayIST(now)) :: rows[id].url
  }

  predicate IsYesterdays(a: Article, now: int) {
    (a.queue == Qualified || a.queue == Fallback)
    && StartOfTodayIST(now) - DAY_MS <= a.createdAt < StartOfTodayIST(now)
  }

  function Yesterdays(now: int): Article -> bool {
    a => IsYesterdays(a, now)
  }

  // ----- the choice -----

  predicate IsCourt(a: Article) {
    a.queue == Qualified && AuthorityTier(a.authority) <= 3
  }

  predicate IsOtherUnsent(a: Article) {
    !IsCourt(a) && a.status == Draft
  }

  predicate IsOtherSent(a: Article) {
    !IsCourt(a) && a.status != Draft
  }

  function Clk(clicks: map<Id, nat>, a: Article): nat {
    if a.id in clicks then clicks[a.id] else 0
  }

  function CompareCourt(clicks: map<Id, nat>, a: Article, b: Article): int {
    var tier := AuthorityTier(a.authority) - AuthorityTier(b.authority);
    if tier != 0 then tier else CompareClicks(clicks, a, b)
  }

  function CompareClicks(clicks: map<Id, nat>, a: Article, b: Article): int {
    var c := Clk(clicks, b) - Clk(clicks, a);
    if c != 0 then c else b.createdAt - a.createdAt
  }

  function CompareUnsent(a: Article, b: Article): int {
    var q := (if a.queue == Qualified then 0 else 1) - (if b.queue == Qualified then 0 else 1);
    if q != 0 then q else b.createdAt - a.createdAt
  }

  function ByCourt(clicks: map<Id, nat>): (Article, Article) -> int {
    (a, b) => CompareCourt(clicks, a, b)
  }

  function ByClicks(clicks: map<Id, nat>): (Article, Article) -> int {
    (a, b) => CompareClicks(clicks, a, b)
  }

  function IsFresh(sentUrls: set<Url>): Article -> bool {
    (a: Article) => a.url !in sentUrls
  }

  /** Court rulings, else the unsent of the other categories, else the others by clicks. */
  function Pick(unused: seq<Article>, clicks: map<Id, nat>): Option<Article> {
    var court := Sort(ByCourt(clicks), Filter(IsCourt, unused));
    var otherUnsent := Sort(CompareUnsent, Filter(IsOtherUnsent, unused));
    var otherByClicks := Sort(ByClicks(clicks), Filter(IsOtherSent, unused));
    if court != [] then Some(court[0])
    else if otherUnsent != [] then Some(otherUnsent[0])
    else if otherByClicks != [] then Some(otherByClicks[0])
    else None
  }

  lemma CourtTransitive(clicks: map<Id, nat>)
    ensures TotalPreorder(ByCourt(clicks))
  {
  }

  lemma ClicksTransitive(clicks: map<Id, nat>)
    ensures TotalPreorder(ByClicks(clicks))
  {
  }

  lemma UnsentTransitive()
    ensures TotalPreorder(CompareUnsent)
  {
  }

  /** The head of a sorted selection is a selected row that no other selected row precedes. */
  lemma HeadOfSorted(cmp: (Article, Article) -> int, p: Article -> bool, rows: seq<Article>)
    requires TotalPreorder(cmp)
    ensures var sorted := Sort(cmp, Filter(p, rows));
            && (sorted == [] <==> forall a :: a in rows ==> !p(a))
            && (sorted != [] ==> sorted[0] in rows && p(sorted[0]))
            && (sorted != [] ==> forall a :: a in rows && p(a) ==> cmp(sorted[0], a) <= 0)
  {
    var selected := Filter(p, rows);
    var sorted := Sort(cmp, selected);
    SortPermutes(cmp, selected);
    SortSorts(cmp, selected);
    forall a
      ensures a in sorted <==> a in rows && p(a)
    {
      FilterMember(p, rows, a);
      assert a in sorted <==> a in multiset(sorted);
      assert a in selected <==> a in multiset(selected);
    }
    if sorted != [] {
      assert sorted[0] in sorted;
      forall a | a in rows && p(a)
        ensures cmp(sorted[0], a) <= 0
      {
        assert a in sorted;
        var i :| 0 <= i < |sorted| && sorted[i] == a;
        assert cmp(a, a) <= 0;
      }
    }
  }

  /**
   * Something is picked as long as anything is unused. A court ruling is never passed over for another category, and
   * among rulings none of a higher court, or of the same with more clicks, or as many and newer, is passed over; an
   * unsent item is never passed over for a re-send of another category.
   */
  lemma NothingBetterPassedOver(unused: seq<Article>, clicks: map<Id, nat>)
    ensures Pick(unused, clicks).None? <==> unused == []
    ensures Pick(unused, clicks).Some? ==>
              var x := Pick(unused, clicks).value;
              && x in unused
              && (forall a :: a in unused && IsCourt(a) ==> IsCourt(x) && CompareCourt(clicks, x, a) <= 0)
              && (!IsCourt(x) ==> forall a :: a in unused && a.status == Draft
                                              ==> x.status == Draft && CompareUnsent(x, a) <= 0)
              && (!IsCourt(x) && x.status != Draft ==> forall a :: a in unused ==> CompareClicks(clicks, x, a) <= 0)
  {
    CourtTransitive(clicks);
    ClicksTransitive(clicks);
    UnsentTransitive();
    HeadOfSorted(ByCourt(clicks), IsCourt, unused);
    HeadOfSorted(CompareUnsent, IsOtherUnsent, unused);
    HeadOfSorted(ByClicks(clicks), IsOtherSent, unused);
    if unused != [] {
      assert unused[0] in unused;
    }
  }

  /** The copy that re-sends an article: a draft of its own, with the original's URL, queue and date. */
  function Clone(a: Article, id: Id): Article {
    a.(id := id, status := Draft, claimedAt := None)
  }

  // ----- rotation, over whole runs -----

  /** One backfill tick at a time, between its database calls. */
  datatype Tick =
    | Idle
    | Excluding(now: int, urls: set<Url>)
    | Chosen(now: int, article: Article)
    | Ready(now: int, id: Id)

  /** A row the backfill has claimed. */
  datatype Claim = Claim(id: Id, url: Url, now: int)

  datatype State = State(rows: map<Id, Article>, events: EventTable, clock: int, tick: Tick, claims: seq<Claim>)

  datatype Step =
    | Others(rows: map<Id, Article>, events: EventTable, clock: int)
    | ReadSent(now: int)
    | ReadYesterday(yesterday: seq<Article>, clicks: map<Id, nat>)
    | Prepare(cloneId: Id)
    | ClaimRow
    | Crash

  /** What everybody else may do: anything, except delete a row, change its URL, or take back a claim. */
  ghost predicate Persists(rows: map<Id, Article>, rows': map<Id, Article>) {
    && (forall id :: id in rows' ==> rows'[id].id == id)
    && forall id :: id in rows ==>
         && id in rows' && rows'[id].url == rows[id].url
         && (rows[id].claimedAt.Some? ==>
               rows'[id].claimedAt.Some? && rows'[id].claimedAt.value >= rows[id].claimedAt.value)
  }

  ghost predicate Enabled(s: State, e: Step) {
    match e
    case Others(rows, _, clock) => Persists(s.rows, rows) && s.clock <= clock
    case ReadSent(now) => s.tick.Idle? && s.clock <= now
    case ReadYesterday(yesterday, _) => s.tick.Excluding? && IsRead(yesterday, s.rows.Values, Yesterdays(s.tick.now))
    case Prepare(cloneId) => s.tick.Chosen? && cloneId !in s.rows
    case ClaimRow => s.tick.Ready? && s.tick.id in s.rows
    case Crash => true
  }

  ghost function Next(s: State, e: Step): State
    requires Enabled(s, e)
  {
    match e
    case Others(rows, events, clock) => s.(rows := rows, events := events, clock := clock)
    case ReadSent(now) => s.(tick := Excluding(now, SentUrlsToday(s.rows, s.events, now)), clock := now)
    case ReadYesterday(yesterday, clicks) =>
      var x := Pick(Filter(IsFresh(s.tick.urls), yesterday), clicks);
      s.(tick := if x.None? then Idle else Chosen(s.tick.now, x.value))
    case Prepare(cloneId) =>
      var a := s.tick.article;
      if a.status == Draft then s.(tick := Ready(s.tick.now, a.id))
      else s.(rows := s.rows[cloneId := Clone(a, cloneId)], tick := Ready(s.tick.now, cloneId))
    case ClaimRow =>
      var a, now := s.rows[s.tick.id], s.tick.now;
      if a.status == Draft
      then s.(rows := s.rows[a.id := a.(status := Scheduled, claimedAt := Some(now))],
              claims := s.claims + [Claim(a.id, a.url, now)], tick := Idle)
      else s.(tick := Idle)
    case Crash => s.(tick := Idle)
  }

  /** `c` used its URL on the IST day of `now`. */
  predicate OnDayOf(c: Claim, now: int) {
    IstDay(c.now) == IstDay(now)
  }

  /** The claimed row is still there, with its URL, and still shows a claim at least that late. */
  predicate Witnessed(rows: map<Id, Article>, c: Claim) {
    c.id in rows && rows[c.id].url == c.url && rows[c.id].claimedAt.Some? && rows[c.id].claimedAt.value >= c.now
  }

  ghost predicate NeverTwice(claims: seq<Claim>) {
    forall i, j :: 0 <= i < j < |claims| && OnDayOf(claims[i], claims[j].now) ==> claims[i].url != claims[j].url
  }

  ghost predicate UnusedOn(claims: seq<Claim>, url: Url, now: int) {
    forall c :: c in claims && OnDayOf(c, now) ==> c.url != url
  }

  ghost predicate TickOk(s: State) {
    match s.tick
    case Idle => true
    case Excluding(now, urls) =>
      now <= s.clock && (forall c :: c in s.claims ==> c.now <= now)
      && forall c :: c in s.claims && OnDayOf(c, now) ==> c.url in urls
    case Chosen(now, a) =>
      now <= s.clock && (forall c :: c in s.claims ==> c.now <= now) && UnusedOn(s.claims, a.url, now)
      && a.id in s.rows && s.rows[a.id].url == a.url
    case Ready(now, id) =>
      now <= s.clock && (forall c :: c in s.claims ==> c.now <= now)
      && id in s.rows && UnusedOn(s.claims, s.rows[id].url, now)
  }

  ghost predicate Inv(s: State) {
    && (forall id :: id in s.rows ==> s.rows[id].id == id)
    && (forall c :: c in s.claims ==> Witnessed(s.rows, c) && c.now <= s.clock)
    && NeverTwice(s.claims)
    && TickOk(s)
  }

  /** A claim made earlier the same day excludes its URL, whether or not its send has recorded anything. */
  lemma ClaimExcludes(s: State, c: Claim, now: int)
    requires Inv(s) && c in s.claims && OnDayOf(c, now) && c.now <= now
    ensures c.url in SentUrlsToday(s.rows, s.events, now)
  {
    assert Witnessed(s.rows, c);
    SameDayIff(c.now, now);
    assert IsUsed(s.rows[c.id], s.events, StartOfTodayIST(now));
  }

  lemma StepKeepsInv(s: State, e: Step)
    requires Inv(s) && Enabled(s, e)
    ensures Inv(Next(s, e))
  {
    match e
    case Others(_, _, _) =>
    case ReadSent(now) =>
      forall c | c in s.claims && OnDayOf(c, now)
        ensures c.url in SentUrlsToday(s.rows, s.events, now)
      {
        ClaimExcludes(s, c, now);
      }
    case ReadYesterday(yesterday, clicks) => ReadKeepsInv(s, yesterday, clicks);
    case Prepare(cloneId) =>
      var n := Next(s, e);
      assert forall c :: c in s.claims ==> c.id in s.rows;
    case ClaimRow => ClaimKeepsInv(s);
    case Crash =>
  }

  lemma ReadKeepsInv(s: State, yesterday: seq<Article>, clicks: map<Id, nat>)
    requires Inv(s) && Enabled(s, ReadYesterday(yesterday, clicks))
    ensures Inv(Next(s, ReadYesterday(yesterday, clicks)))
  {
    var unused := Filter(IsFresh(s.tick.urls), yesterday);
    NothingBetterPassedOver(unused, clicks);
    if Pick(unused, clicks).Some? {
      var x := Pick(unused, clicks).value;
      FilterMember(IsFresh(s.tick.urls), yesterday, x);
      assert x in s.rows.Values;
      assert IsFresh(s.tick.urls)(x);
    }
  }

  lemma ClaimKeepsInv(s: State)
    requires Inv(s) && Enabled(s, ClaimRow)
    ensures Inv(Next(s, ClaimRow))
  {
    var n := Next(s, ClaimRow);
    if n.claims != s.claims {
      var url, now := s.rows[s.tick.id].url, s.tick.now;
      forall i, j | 0 <= i < j < |n.claims| && OnDayOf(n.claims[i], n.claims[j].now)
        ensures n.claims[i].url != n.claims[j].url
      {
        assert n.claims[i] == s.claims[i] && s.claims[i] in s.claims;
        assert UnusedOn(s.claims, url, now);
      }
      forall c | c in n.claims
        ensures Witnessed(n.rows, c) && c.now <= n.clock
      {
        assert c in s.claims ==> Witnessed(s.rows, c) && c.now <= now;
      }
    }
  }

  ghost predicate IsRun(s: State, steps: seq<Step>, end: State)
    decreases |steps|
  {
    if steps == [] then end == s
    else Enabled(s, steps[0]) && IsRun(Next(s, steps[0]), steps[1..], end)
  }

  lemma {:induction false} RunKeepsInv(s: State, steps: seq<Step>, end: State)
    requires Inv(s) && IsRun(s, steps, end)
    ensures Inv(end)
    decreases |steps|
  {
    if steps != [] {
      StepKeepsInv(s, steps[0]);
      RunKeepsInv(Next(s, steps[0]), steps[1..], end);
    }
  }

  /**
   * The backfill never claims two rows with one URL on one IST day, whatever everybody else does to the tables between
   * its database calls, and whether its sends finish, crash, or never record a delivery.
   */
  lemma NeverTwiceADay(rows: map<Id, Article>, events: EventTable, clock: int, steps: seq<Step>, end: State)
    requires forall id :: id in rows ==> rows[id].id == id
    requires IsRun(State(rows, events, clock, Idle, []), steps, end)
    ensures forall i, j :: 0 <= i < j < |end.claims| && IstDay(end.claims[i].now) == IstDay(end.claims[j].now)
              ==> end.claims[i].url != end.claims[j].url
  {
    RunKeepsInv(State(rows, events, clock, Idle, []), steps, end);
    forall i, j | 0 <= i < j < |end.claims| && IstDay(end.claims[i].now) == IstDay(end.claims[j].now)
      ensures end.claims[i].url != end.claims[j].url
    {
      assert OnDayOf(end.claims[i], end.claims[j].now);
    }
  }

  // ----- what is left to use -----

  function YesterdaysUrls(rows: map<Id, Article>, now: int): set<Url> {
    set id | id in rows && IsYesterdays(rows[id], now) :: rows[id].url
  }

  /** Yesterday's URLs that a backfill at `now` may still use. */
  function UsableUrls(rows: map<Id, Article>, events: EventTable, now: int): set<Url> {
    YesterdaysUrls(rows, now) - SentUrlsToday(rows, events, now)
  }

  /** Whether today has produced a qualified article yet, sent or pending. */
  predicate TodayHasQualified(rows: map<Id, Article>, now: int) {
    exists id :: id in rows && rows[id].queue == Qualified && rows[id].createdAt >= StartOfTodayIST(now)
  }

  /**
   * Copying one of yesterday's articles for a re-send is seen by nobody before the claim: the copy makes no URL usable
   * or used, and it does not count as an article of today. A tick that crashes right after it has cost nothing.
   */
  lemma CloneIsNeutral(rows: map<Id, Article>, events: EventTable, now: int, original: Id, id: Id)
    requires forall i :: i in rows ==> rows[i].id == i
    requires original in rows && IsYesterdays(rows[original], now) && id !in rows
    requires forall e :: e in events ==> events[e].campaign != Some(id)
    ensures var cloned := rows[id := Clone(rows[original], id)];
            && UsableUrls(cloned, events, now) == UsableUrls(rows, events, now)
            && (TodayHasQualified(cloned, now) <==> TodayHasQualified(rows, now))
  {
    CloneUsesNothing(rows, events, now, original, id);
    var cloned := rows[id := Clone(rows[original], id)];
    forall url
      ensures url in YesterdaysUrls(cloned, now) <==> url in YesterdaysUrls(rows, now)
    {
      if i :| i in rows && IsYesterdays(rows[i], now) && rows[i].url == url {
        assert cloned[i] == rows[i];
      }
    }
    if i :| i in rows && rows[i].queue == Qualified && rows[i].createdAt >= StartOfTodayIST(now) {
      assert cloned[i] == rows[i];
    }
  }

  lemma CloneUsesNothing(rows: map<Id, Article>, events: EventTable, now: int, original: Id, id: Id)
    requires original in rows && id !in rows
    requires forall e :: e in events ==> events[e].campaign != Some(id)
    ensures SentUrlsToday(rows[id := Clone(rows[original], id)], events, now) == SentUrlsToday(rows, events, now)
  {
    var cloned := rows[id := Clone(rows[original], id)];
    assert Where(events, IsSentOf(id, StartOfTodayIST(now))) == {};
    assert !IsUsed(cloned[id], events, StartOfTodayIST(now));
    forall url | url in SentUrlsToday(rows, events, now)
      ensures url in SentUrlsToday(cloned, events, now)
    {
      var i :| i in rows && IsUsed(rows[i], events, StartOfTodayIST(now)) && rows[i].url == url;
      assert cloned[i] == rows[i];
    }
  }

  /** A claim takes exactly its own URL out of what is left for that day, so the set strictly shrinks. */
  lemma ClaimShrinks(rows: map<Id, Article>, events: EventTable, id: Id, now: int)
    requires forall i :: i in rows ==> rows[i].id == i
    requires id in rows
    ensures var claimed := rows[id := rows[id].(status := Scheduled, claimedAt := Some(now))];
            && UsableUrls(claimed, events, now) == UsableUrls(rows, events, now) - {rows[id].url}
            && (rows[id].url in UsableUrls(rows, events, now) ==>
                  UsableUrls(claimed, events, now) < UsableUrls(rows, events, now))
  {
    var claimed := rows[id := rows[id].(status := Scheduled, claimedAt := Some(now))];
    var since := StartOfTodayIST(now);
    var a, b := SentUrlsToday(rows, events, now), SentUrlsToday(claimed, events, now);
    assert IsUsed(claimed[id], events, since);
    forall url
      ensures url in b <==> url in a || url == rows[id].url
    {
      if url in a {
        var i :| i in rows && IsUsed(rows[i], events, since) && rows[i].url == url;
        assert IsUsed(claimed[i], events, since) && claimed[i].url == url;
      }
      if url == rows[id].url {
        assert claimed[id].url == url;
      }
      if url in b && url != rows[id].url {
        var i :| i in claimed && IsUsed(claimed[i], events, since) && claimed[i].url == url;
        assert IsUsed(rows[i], events, since) && rows[i].url == url;
      }
    }
    SameYesterdays(rows, claimed, now);
  }

  lemma SameYesterdays(rows: map<Id, Article>, rows': map<Id, Article>, now: int)
    requires rows'.Keys == rows.Keys
    requires forall i :: i in rows ==> rows'[i].url == rows[i].url && rows'[i].queue == rows[i].queue
                                       && rows'[i].createdAt == rows[i].createdAt
    ensures (set id | id in rows' && IsYesterdays(rows'[id], now) :: rows'[id].url)
         == (set id | id in rows && IsYesterdays(rows[id], now) :: rows[id].url)
  {
    forall id | id in rows
      ensures IsYesterdays(rows[id], now) == IsYesterdays(rows'[id], now) && rows[id].url == rows'[id].url
    {
    }
  }

  /** And it does not come back that day: a claimed URL is usable in no later state. */
  lemma ClaimedNotUsable(s: State, c: Claim, now: int)
    requires Inv(s) && c in s.claims && OnDayOf(c, now) && c.now <= now
    ensures c.url !in UsableUrls(s.rows, s.events, now)
  {
    ClaimExcludes(s, c, now);
  }

  /** The backfill finds something exactly while a usable URL is left, and what it finds is one of them. */
  lemma PicksWhileUsable(rows: map<Id, Article>, events: EventTable, now: int, yesterday: seq<Article>,
                         clicks: map<Id, nat>)
    requires forall i :: i in rows ==> rows[i].id == i
    requires IsRead(yesterday, rows.Values, Yesterdays(now))
    ensures var x := Pick(Filter(IsFresh(SentUrlsToday(rows, events, now)), yesterday), clicks);
            && (x.None? <==> UsableUrls(rows, events, now) == {})
            && (x.Some? ==> x.value.url in UsableUrls(rows, events, now))
  {
    var used := SentUrlsToday(rows, events, now);
    var unused := Filter(IsFresh(used), yesterday);
    NothingBetterPassedOver(unused, clicks);
    forall a
      ensures a in unused <==> a in rows.Values && IsYesterdays(a, now) && a.url !in used
    {
      FilterMember(IsFresh(used), yesterday, a);
      assert Yesterdays(now)(a) == IsYesterdays(a, now);
    }
    if unused != [] {
      assert unused[0] in unused;
      assert unused[0].url in UsableUrls(rows, events, now);
    } else {
      forall id | id in rows && IsYesterdays(rows[id], now)
        ensures rows[id].url in used
      {
        assert rows[id] in rows.Values && rows[id] !in unused;
      }
    }
  }

  // ----- which article that is, said of the tables themselves -----

  /** An article of the auto queue captured on the IST day before. */
  predicate IsCandidate(a: Article, now: int) {
    a.queue in {Qualified, Fallback} && IstDay(a.createdAt) == IstDay(now) - 1
  }

  /** Some row with the URL has a SENT row of today, or was claimed today. */
  ghost predicate WentOutToday(rows: map<Id, Article>, events: EventTable, url: Url, now: int) {
    exists id :: id in rows && rows[id].url == url &&
      (|| (rows[id].claimedAt.Some? && IstDay(rows[id].claimedAt.value) >= IstDay(now))
       || exists e :: e in events && events[e].typ == SENT && events[e].campaign == Some(id)
                      && IstDay(events[e].createdAt) >= IstDay(now))
  }

  function ClicksOf(events: EventTable, id: Id): nat {
    |set e | e in events && events[e].typ == CLICKED && events[e].campaign == Some(id)|
  }

  predicate IsRuling(a: Article) {
    a.queue == Qualified && a.authority in {Some("Supreme Court"), Some("Bombay High Court"), Some("High Court")}
  }

  /** More clicks first, then the newer one. */
  predicate IsReadNoLess(events: EventTable, a: Article, b: Article) {
    || ClicksOf(events, a.id) > ClicksOf(events, b.id)
    || (ClicksOf(events, a.id) == ClicksOf(events, b.id) && a.createdAt >= b.createdAt)
  }

  /** `a` may fill the slot before `b`: rulings by court and clicks, then the unsent, then re-sends by clicks. */
  predicate MayFillBefore(events: EventTable, a: Article, b: Article) {
    if IsRuling(a) && IsRuling(b) then
      || AuthorityTier(a.authority) < AuthorityTier(b.authority)
      || (AuthorityTier(a.authority) == AuthorityTier(b.authority) && IsReadNoLess(events, a, b))
    else if IsRuling(a) || IsRuling(b) then IsRuling(a)
    else if a.status == Draft && b.status == Draft then
      || (a.queue == Qualified && b.queue == Fallback)
      || (a.queue == b.queue && a.createdAt >= b.createdAt)
    else if a.status == Draft || b.status == Draft then a.status == Draft
    else IsReadNoLess(events, a, b)
  }

  lemma CandidateMeans(a: Article, now: int)
    ensures IsYesterdays(a, now) <==> IsCandidate(a, now)
  {
    var day := IstDay(now);
    assert StartOfTodayIST(now) == MakeIstInstant(day, 0);
    assert StartOfTodayIST(now) - DAY_MS == MakeIstInstant(day - 1, 0);
  }

  lemma UsedMeans(rows: map<Id, Article>, events: EventTable, url: Url, now: int)
    requires forall i :: i in rows ==> rows[i].id == i
    ensures url in SentUrlsToday(rows, events, now) <==> WentOutToday(rows, events, url, now)
  {
    var since := StartOfTodayIST(now);
    if url in SentUrlsToday(rows, events, now) {
      var i :| i in rows && IsUsed(rows[i], events, since) && rows[i].url == url;
      if rows[i].claimedAt.Some? && rows[i].claimedAt.value >= since {
        SameDayIff(rows[i].claimedAt.value, now);
      } else {
        var e :| e in Where(events, IsSentOf(i, since));
        SameDayIff(events[e].createdAt, now);
      }
    }
    if WentOutToday(rows, events, url, now) {
      var i :| i in rows && rows[i].url == url &&
        (|| (rows[i].claimedAt.Some? && IstDay(rows[i].claimedAt.value) >= IstDay(now))
         || exists e :: e in events && events[e].typ == SENT && events[e].campaign == Some(i)
                        && IstDay(events[e].createdAt) >= IstDay(now));
      if rows[i].claimedAt.Some? && IstDay(rows[i].claimedAt.value) >= IstDay(now) {
        SameDayIff(rows[i].claimedAt.value, now);
      } else {
        var e :| e in events && events[e].typ == SENT && events[e].campaign == Some(i)
                 && IstDay(events[e].createdAt) >= IstDay(now);
        SameDayIff(events[e].createdAt, now);
        assert e in Where(events, IsSentOf(i, since));
      }
      assert IsUsed(rows[i], events, since);
    }
  }

  /** One of yesterday's articles whose URL has not gone out today. */
  ghost predicate IsFree(rows: map<Id, Article>, events: EventTable, a: Article, now: int) {
    IsCandidate(a, now) && !WentOutToday(rows, events, a.url, now)
  }

  /** A free article that no other free one may fill the slot before. */
  ghost predicate IsBestFree(rows: map<Id, Article>, events: EventTable, now: int, id: Id)
    requires id in rows
  {
    && IsFree(rows, events, rows[id], now)
    && forall i :: i in rows && IsFree(rows, events, rows[i], now) ==> MayFillBefore(events, rows[id], rows[i])
  }

  /** The clicks the query found are those of the table. */
  ghost predicate AreClicks(events: EventTable, unused: seq<Article>, clicks: map<Id, nat>) {
    forall a :: a in unused ==> Clk(clicks, a) == ClicksOf(events, a.id)
  }

  lemma PickFillsFirst(events: EventTable, unused: seq<Article>, clicks: map<Id, nat>, a: Article)
    requires AreClicks(events, unused, clicks) && a in unused
    requires forall b :: b in unused ==> b.queue in {Qualified, Fallback}
    ensures Pick(unused, clicks).Some? && MayFillBefore(events, Pick(unused, clicks).value, a)
  {
    NothingBetterPassedOver(unused, clicks);
    var x := Pick(unused, clicks).value;
    RulingMeans(x);
    RulingMeans(a);
    assert Clk(clicks, x) == ClicksOf(events, x.id) && Clk(clicks, a) == ClicksOf(events, a.id);
  }

  lemma RulingMeans(a: Article)
    ensures IsCourt(a) <==> IsRuling(a)
  {
  }

  /**
   * The backfill in plain words: it finds something exactly while one of yesterday's articles has a URL that has not
   * gone out today; what it finds is such an article, and no other of them may fill the slot before it.
   */
  lemma FillsPlainly(rows: map<Id, Article>, events: EventTable, now: int, yesterday: seq<Article>,
                     clicks: map<Id, nat>)
    requires forall i :: i in rows ==> rows[i].id == i
    requires IsRead(yesterday, rows.Values, Yesterdays(now))
    requires AreClicks(events, Filter(IsFresh(SentUrlsToday(rows, events, now)), yesterday), clicks)
    ensures var x := Pick(Filter(IsFresh(SentUrlsToday(rows, events, now)), yesterday), clicks);
            && (x.None? <==> forall i :: i in rows ==> !IsFree(rows, events, rows[i], now))
            && (x.Some? ==> x.value.id in rows && IsBestFree(rows, events, now, x.value.id))
            && (x.Some? ==> rows[x.value.id] == x.value)
  {
    var unused := Filter(IsFresh(SentUrlsToday(rows, events, now)), yesterday);
    forall a
      ensures a in unused <==> a in rows.Values && IsFree(rows, events, a, now)
    {
      FilterMember(IsFresh(SentUrlsToday(rows, events, now)), yesterday, a);
      CandidateMeans(a, now);
      UsedMeans(rows, events, a.url, now);
    }
    NothingBetterPassedOver(unused, clicks);
    forall i | i in rows && IsFree(rows, events, rows[i], now)
      ensures Pick(unused, clicks).Some? && MayFillBefore(events, Pick(unused, clicks).value, rows[i])
    {
      assert rows[i] in unused;
      PickFillsFirst(events, unused, clicks, rows[i]);
    }
  }

  /** So the tick goes on with the best free article there is, as long as nothing changed since its first read. */
  lemma ChoosesWhatFills(s: State, yesterday: seq<Article>, clicks: map<Id, nat>)
    requires Enabled(s, ReadYesterday(yesterday, clicks))
    requires s.tick.urls == SentUrlsToday(s.rows, s.events, s.tick.now) && forall i :: i in s.rows ==> s.rows[i].id == i
    requires AreClicks(s.events, Filter(IsFresh(s.tick.urls), yesterday), clicks)
    ensures var now, n := s.tick.now, Next(s, ReadYesterday(yesterday, clicks));
            && n.rows == s.rows && n.claims == s.claims
            && (n.tick.Idle? <==> forall i :: i in s.rows ==> !IsFree(s.rows, s.events, s.rows[i], now))
            && (!n.tick.Idle? ==>
                  && n.tick.Chosen? && n.tick.now == now && n.tick.article.id in s.rows
                  && s.rows[n.tick.article.id] == n.tick.article
                  && IsBestFree(s.rows, s.events, now, n.tick.article.id))
  {
    FillsPlainly(s.rows, s.events, s.tick.now, yesterday, clicks);
  }

  /** What the last two steps of a backfill tick do to the rows: a draft is prepared, and claimed while it is one. */
  lemma PreparedAndClaimed(s: State, cloneId: Id)
    requires Enabled(s, Prepare(cloneId))
    requires s.tick.article.id in s.rows && s.rows[s.tick.article.id] == s.tick.article
    requires forall i :: i in s.rows ==> s.rows[i].id == i
    ensures var a, ready := s.tick.article, Next(s, Prepare(cloneId));
            && ready.tick.Ready? && ready.tick.id in ready.rows
            && ready.rows[ready.tick.id].status == Draft && ready.rows[ready.tick.id].url == a.url
            && (a.status == Draft ==> ready.rows == s.rows && ready.tick.id == a.id)
            && (a.status != Draft ==>
                  ready.tick.id == cloneId && forall i :: i in s.rows ==> ready.rows[i] == s.rows[i])
            && var claimed := Next(ready, ClaimRow);
               && claimed.rows[ready.tick.id].status == Scheduled
               && claimed.rows[ready.tick.id].claimedAt == Some(s.tick.now)
               && claimed.claims == s.claims + [Claim(ready.tick.id, a.url, s.tick.now)]
  {
  }

  /** A row that is no draft any more when its claim comes is not taken. */
  lemma TakenIsNotClaimed(s: State)
    requires Enabled(s, ClaimRow) && s.rows[s.tick.id].status != Draft
    ensures Next(s, ClaimRow).rows == s.rows && Next(s, ClaimRow).claims == s.claims
  {
  }
}
