/**
 * The event-retention sweep (src/sweepers/eventRetention.ts) and the statistics it must not change
 * (src/services/metrics.ts). Every statistic is "rolled up + live": the sweep moves rows from the live half to the
 * rolled half, one batch per transaction.
 */
module EventRetention {
  import opened Prelude
  import opened IstClock
  import opened Events

  /** A campaign's figures: the roll-up columns, a count of live rows, or the two combined. */
  datatype Counts = Counts(sent: nat, clicked: nat, failed: nat, firstSentAt: Option<int>)

  datatype Store = Store(events: EventTable, campaigns: map<CampaignId, Counts>, rollups: map<EventType, nat>)

  /** A row as `nextBatch` selected it. */
  datatype BatchRow = BatchRow(id: EventId, event: Event)

  // ----- the statistics -----

  predicate IsOf(e: Event, c: CampaignId, typ: EventType) {
    e.campaign == Some(c) && e.typ == typ
  }

  function OfCampaign(c: CampaignId, typ: EventType): Event -> bool {
    (e: Event) => IsOf(e, c, typ)
  }

  function OfType(typ: EventType): Event -> bool {
    (e: Event) => e.typ == typ
  }

  function Live(events: EventTable, c: CampaignId, typ: EventType): set<EventId> {
    Where(events, OfCampaign(c, typ))
  }

  function Earlier(a: Option<int>, b: Option<int>): Option<int> {
    if a.None? then b else if b.None? then a else Some(Min(a.value, b.value))
  }

  /** The earliest `createdAt` among some rows. */
  ghost function Earliest(events: EventTable, ids: set<EventId>): (r: Option<int>)
    requires ids <= events.Keys
    ensures r.None? <==> ids == {}
    ensures r.Some? ==> (exists i :: i in ids && events[i].createdAt == r.value)
    ensures r.Some? ==> forall i :: i in ids ==> r.value <= events[i].createdAt
  {
    if ids == {} then None
    else
      var i :| i in ids;
      assert forall j :: j in ids ==> j == i || j in ids - {i};
      Earlier(Some(events[i].createdAt), Earliest(events, ids - {i}))
  }

  function Combine(a: Counts, b: Counts): Counts {
    Counts(a.sent + b.sent, a.clicked + b.clicked, a.failed + b.failed, Earlier(a.firstSentAt, b.firstSentAt))
  }

  ghost function LiveCounts(events: EventTable, c: CampaignId): Counts {
    Counts(
      |Live(events, c, SENT)|, |Live(events, c, CLICKED)|, |Live(events, c, FAILED)|,
      Earliest(events, Live(events, c, SENT)))
  }

  /** What the Dashboard and the Campaigns list show for a campaign: rolled + live. */
  ghost function Stats(s: Store, c: CampaignId): Counts
    requires c in s.campaigns
  {
    Combine(s.campaigns[c], LiveCounts(s.events, c))
  }

  function RolledUp(s: Store, typ: EventType): nat {
    if typ in s.rollups then s.rollups[typ] else 0
  }

  /** The lifetime count of a type: rolled + live. */
  function Lifetime(s: Store, typ: EventType): nat {
    RolledUp(s, typ) + |Where(s.events, OfType(typ))|
  }

  ghost predicate SameStatistics(s: Store, t: Store) {
    && s.campaigns.Keys == t.campaigns.Keys
    && (forall c :: c in s.campaigns ==> Stats(s, c) == Stats(t, c))
    && (forall typ :: Lifetime(s, typ) == Lifetime(t, typ))
  }

  // ----- folding one row, the simplest thing that keeps every statistic -----

  function Bump(r: Counts, e: Event): Counts {
    match e.typ
    case SENT => r.(sent := r.sent + 1, firstSentAt := Earlier(r.firstSentAt, Some(e.createdAt)))
    case CLICKED => r.(clicked := r.clicked + 1)
    case FAILED => r.(failed := r.failed + 1)
    case _ => r
  }

  function FoldRow(s: Store, row: BatchRow): Store {
    var e := row.event;
    Store(
      s.events - {row.id},
      if e.campaign.Some? && e.campaign.value in s.campaigns
      then s.campaigns[e.campaign.value := Bump(s.campaigns[e.campaign.value], e)]
      else s.campaigns,
      s.rollups[e.typ := RolledUp(s, e.typ) + 1])
  }

  /** Row by row: the reference that the batched transaction must agree with. */
  function FoldRows(s: Store, batch: seq<BatchRow>): Store {
    if batch == [] then s else FoldRow(FoldRows(s, batch[..|batch| - 1]), batch[|batch| - 1])
  }

  function Ids(batch: seq<BatchRow>): set<EventId> {
    set r | r in batch :: r.id
  }

  /** The batch is of rows that are still in the table, each listed once. */
  ghost predicate AllLive(events: EventTable, batch: seq<BatchRow>) {
    && (forall i :: 0 <= i < |batch| ==> batch[i].id in events && events[batch[i].id] == batch[i].event)
    && (forall i, j :: 0 <= i < j < |batch| ==> batch[i].id != batch[j].id)
  }

  lemma EarliestUnique(events: EventTable, ids: set<EventId>, v: Option<int>)
    requires ids <= events.Keys
    requires v.None? <==> ids == {}
    requires v.Some? ==> (exists i :: i in ids && events[i].createdAt == v.value)
    requires v.Some? ==> forall i :: i in ids ==> v.value <= events[i].createdAt
    ensures Earliest(events, ids) == v
  {
  }

  /** Adding a row to a selection moves its earliest time by that row's time. */
  lemma EarliestInsert(events: EventTable, ids: set<EventId>, events': EventTable, id: EventId)
    requires ids <= events.Keys && id !in ids && id in events'
    requires forall i :: i in ids ==> i in events' && events'[i] == events[i]
    ensures Earliest(events', ids + {id}) == Earlier(Earliest(events, ids), Some(events'[id].createdAt))
  {
    var v := Earlier(Earliest(events, ids), Some(events'[id].createdAt));
    assert exists i :: i in ids + {id} && events'[i].createdAt == v.value;
    EarliestUnique(events', ids + {id}, v);
  }

  lemma InsertLive(events: EventTable, id: EventId, e: Event, c: CampaignId, typ: EventType)
    requires id !in events
    ensures |Live(events[id := e], c, typ)| == |Live(events, c, typ)| + (if IsOf(e, c, typ) then 1 else 0)
    ensures Earliest(events[id := e], Live(events[id := e], c, typ))
         == if IsOf(e, c, typ) then Earlier(Earliest(events, Live(events, c, typ)), Some(e.createdAt))
            else Earliest(events, Live(events, c, typ))
  {
    WhereInsert(events, id, e, OfCampaign(c, typ));
    if IsOf(e, c, typ) {
      EarliestInsert(events, Live(events, c, typ), events[id := e], id);
    } else {
      EarliestUnique(events[id := e], Live(events, c, typ), Earliest(events, Live(events, c, typ)));
    }
  }

  /** The live half of a campaign's figures grows by one row's worth when the row is inserted. */
  lemma InsertCounts(events: EventTable, id: EventId, e: Event, c: CampaignId)
    requires id !in events
    ensures LiveCounts(events[id := e], c)
         == if e.campaign == Some(c) then Bump(LiveCounts(events, c), e) else LiveCounts(events, c)
  {
    InsertLive(events, id, e, c, SENT);
    InsertLive(events, id, e, c, CLICKED);
    InsertLive(events, id, e, c, FAILED);
    CountsAfter(LiveCounts(events, c), e, c);
  }

  /** `Bump`, field by field. */
  lemma CountsAfter(live: Counts, e: Event, c: CampaignId)
    ensures (if e.campaign == Some(c) then Bump(live, e) else live)
         == Counts(live.sent + (if IsOf(e, c, SENT) then 1 else 0),
                   live.clicked + (if IsOf(e, c, CLICKED) then 1 else 0),
                   live.failed + (if IsOf(e, c, FAILED) then 1 else 0),
                   if IsOf(e, c, SENT) then Earlier(live.firstSentAt, Some(e.createdAt)) else live.firstSentAt)
  {
  }

  lemma BumpEitherHalf(rolled: Counts, live: Counts, e: Event)
    ensures Combine(Bump(rolled, e), live) == Combine(rolled, Bump(live, e)) == Bump(Combine(rolled, live), e)
  {
  }

  lemma FoldRowKeepsStats(s: Store, row: BatchRow, c: CampaignId)
    requires row.id in s.events && s.events[row.id] == row.event && c in s.campaigns
    ensures Stats(FoldRow(s, row), c) == Stats(s, c)
  {
    var rest := s.events - {row.id};
    assert s.events == rest[row.id := row.event];
    InsertCounts(rest, row.id, row.event, c);
    BumpEitherHalf(s.campaigns[c], LiveCounts(rest, c), row.event);
    assert FoldRow(s, row).events == rest;
  }

  lemma FoldRowKeepsStatistics(s: Store, row: BatchRow)
    requires row.id in s.events && s.events[row.id] == row.event
    ensures SameStatistics(FoldRow(s, row), s)
  {
    forall c | c in s.campaigns {
      FoldRowKeepsStats(s, row, c);
    }
    forall typ {
      FoldRowKeepsLifetime(s, row, typ);
    }
  }

  lemma FoldRowKeepsLifetime(s: Store, row: BatchRow, typ: EventType)
    requires row.id in s.events && s.events[row.id] == row.event
    ensures Lifetime(FoldRow(s, row), typ) == Lifetime(s, typ)
  {
    var rest := s.events - {row.id};
    assert s.events == rest[row.id := row.event];
    WhereInsert(rest, row.id, row.event, OfType(typ));
  }

  /** Folding a whole batch changes no statistic. */
  lemma {:induction false} FoldKeepsStatistics(s: Store, batch: seq<BatchRow>)
    requires AllLive(s.events, batch)
    ensures SameStatistics(FoldRows(s, batch), s)
    ensures FoldRows(s, batch).events == s.events - Ids(batch)
  {
    if batch != [] {
      var front, last := batch[..|batch| - 1], batch[|batch| - 1];
      FoldKeepsStatistics(s, front);
      var mid := FoldRows(s, front);
      assert batch == front + [last];
      assert last.id !in Ids(front);
      FoldRowKeepsStatistics(mid, last);
      assert Ids(batch) == Ids(front) + {last.id};
    }
  }

  // ----- one batch: tallies first, then one update per campaign and per type, then the delete -----

  const ZERO: Counts := Counts(0, 0, 0, None)

  function Tally(batch: seq<BatchRow>, c: CampaignId): Counts {
    if batch == [] then ZERO
    else
      var last := batch[|batch| - 1];
      var before := Tally(batch[..|batch| - 1], c);
      if last.event.campaign == Some(c) then Bump(before, last.event) else before
  }

  function TypeTally(batch: seq<BatchRow>, typ: EventType): nat {
    if batch == [] then 0
    else TypeTally(batch[..|batch| - 1], typ) + (if batch[|batch| - 1].event.typ == typ then 1 else 0)
  }

  function EntryOf(perCampaign: map<CampaignId, Counts>, c: CampaignId): Counts {
    if c in perCampaign then perCampaign[c] else ZERO
  }

  function CountOf(perType: map<EventType, nat>, typ: EventType): nat {
    if typ in perType then perType[typ] else 0
  }

  lemma {:induction false} FoldRowsCampaigns(s: Store, batch: seq<BatchRow>)
    ensures FoldRows(s, batch).campaigns == (map c | c in s.campaigns :: Combine(s.campaigns[c], Tally(batch, c)))
  {
    if batch != [] {
      var front, last := batch[..|batch| - 1], batch[|batch| - 1];
      FoldRowsCampaigns(s, front);
      forall c | c in s.campaigns
        ensures FoldRows(s, batch).campaigns[c] == Combine(s.campaigns[c], Tally(batch, c))
      {
        BumpEitherHalf(s.campaigns[c], Tally(front, c), last.event);
      }
    }
  }

  lemma {:induction false} FoldRowsRollups(s: Store, batch: seq<BatchRow>, typ: EventType)
    ensures RolledUp(FoldRows(s, batch), typ) == RolledUp(s, typ) + TypeTally(batch, typ)
    ensures typ in FoldRows(s, batch).rollups <==> typ in s.rollups || TypeTally(batch, typ) > 0
  {
    if batch != [] {
      FoldRowsRollups(s, batch[..|batch| - 1], typ);
    }
  }

  lemma {:induction false} FoldRowsEvents(s: Store, batch: seq<BatchRow>)
    ensures FoldRows(s, batch).events == s.events - Ids(batch)
  {
    if batch != [] {
      var front, last := batch[..|batch| - 1], batch[|batch| - 1];
      FoldRowsEvents(s, front);
      assert batch == front + [last];
      assert Ids(batch) == Ids(front) + {last.id};
    }
  }

  /** Row by row comes to the same as one update per campaign and per type. */
  lemma FoldRowsIsTally(s: Store, batch: seq<BatchRow>)
    ensures var f := FoldRows(s, batch);
            && f.events == s.events - Ids(batch)
            && f.campaigns == (map c | c in s.campaigns :: Combine(s.campaigns[c], Tally(batch, c)))
            && (forall typ :: RolledUp(f, typ) == RolledUp(s, typ) + TypeTally(batch, typ))
            && (forall typ :: typ in f.rollups <==> typ in s.rollups || TypeTally(batch, typ) > 0)
  {
    FoldRowsEvents(s, batch);
    FoldRowsCampaigns(s, batch);
    forall typ
      ensures RolledUp(FoldRows(s, batch), typ) == RolledUp(s, typ) + TypeTally(batch, typ)
      ensures typ in FoldRows(s, batch).rollups <==> typ in s.rollups || TypeTally(batch, typ) > 0
    {
      FoldRowsRollups(s, batch, typ);
    }
  }

  lemma {:induction false} TallyHasFirstSent(batch: seq<BatchRow>, c: CampaignId)
    ensures Tally(batch, c).firstSentAt.Some? ==> Tally(batch, c).sent > 0
  {
    if batch != [] {
      TallyHasFirstSent(batch[..|batch| - 1], c);
    }
  }

  lemma FirstSentIsSent(batch: seq<BatchRow>, perCampaign: map<CampaignId, Counts>)
    requires forall c :: EntryOf(perCampaign, c) == Tally(batch, c)
    ensures forall c :: c in perCampaign && perCampaign[c].firstSentAt.Some? ==> perCampaign[c].sent > 0
  {
    forall c | c in perCampaign
      ensures perCampaign[c].firstSentAt.Some? ==> perCampaign[c].sent > 0
    {
      assert perCampaign[c] == EntryOf(perCampaign, c);
      TallyHasFirstSent(batch, c);
    }
  }

  lemma RollupsAgree(s: Store, batch: seq<BatchRow>, perType: map<EventType, nat>, rollups: map<EventType, nat>)
    requires forall typ :: CountOf(perType, typ) == TypeTally(batch, typ)
    requires forall typ :: typ in perType <==> TypeTally(batch, typ) > 0
    requires rollups.Keys == s.rollups.Keys + perType.Keys
    requires forall typ :: typ in rollups ==> rollups[typ] == CountOf(s.rollups, typ) + CountOf(perType, typ)
    ensures rollups == FoldRows(s, batch).rollups
  {
    forall typ
      ensures typ in rollups <==> typ in FoldRows(s, batch).rollups
      ensures typ in rollups ==> rollups[typ] == RolledUp(FoldRows(s, batch), typ)
    {
      FoldRowsRollups(s, batch, typ);
    }
  }

  /** The first pass of a batch: increments per campaign, with its earliest SENT time, and per type. */
  method TallyBatch(batch: seq<BatchRow>) returns (perCampaign: map<CampaignId, Counts>, perType: map<EventType, nat>)
    ensures forall c :: EntryOf(perCampaign, c) == Tally(batch, c)
    ensures forall typ :: CountOf(perType, typ) == TypeTally(batch, typ)
    ensures forall typ :: typ in perType <==> TypeTally(batch, typ) > 0
  {
    perCampaign, perType := map[], map[];
    for n := 0 to |batch|
      invariant forall c :: EntryOf(perCampaign, c) == Tally(batch[..n], c)
      invariant forall typ :: CountOf(perType, typ) == TypeTally(batch[..n], typ)
      invariant forall typ :: typ in perType ==> perType[typ] > 0
    {
      var row := batch[n];
      assert batch[..n + 1][..n] == batch[..n];
      perType := perType[row.event.typ := CountOf(perType, row.event.typ) + 1];
      if row.event.campaign.Some? {
        var c := row.event.campaign.value;
        perCampaign := perCampaign[c := Bump(EntryOf(perCampaign, c), row.event)];
      }
    }
    assert batch[..|batch|] == batch;
  }

  class EventDb {
    var events: EventTable
    var campaigns: map<CampaignId, Counts>
    var rollups: map<EventType, nat>

    ghost function View(): Store
      reads this
    {
      Store(events, campaigns, rollups)
    }

    /** The transaction of one batch: the counts and the delete. */
    method FoldAndDelete(batch: seq<BatchRow>)
      modifies this
      ensures View() == FoldRows(old(View()), batch)
    {
      var perCampaign, perType := TallyBatch(batch);
      FirstSentIsSent(batch, perCampaign);
      UpdateCampaigns(perCampaign);
      UpdateRollups(perType);
      events := events - Ids(batch);
      FoldRowsEvents(old(View()), batch);
      FoldRowsCampaigns(old(View()), batch);
      RollupsAgree(old(View()), batch, perType, rollups);
    }

    method UpdateCampaigns(perCampaign: map<CampaignId, Counts>)
      requires forall c :: c in perCampaign && perCampaign[c].firstSentAt.Some? ==> perCampaign[c].sent > 0
      modifies this`campaigns
      ensures campaigns == map c | c in old(campaigns) :: Combine(old(campaigns)[c], EntryOf(perCampaign, c))
    {
      var todo := perCampaign.Keys;
      while todo != {}
        invariant todo <= perCampaign.Keys
        invariant campaigns == map c | c in old(campaigns) ::
          if c in todo then old(campaigns)[c] else Combine(old(campaigns)[c], EntryOf(perCampaign, c))
      {
        var c :| c in todo;
        todo := todo - {c};
        var t := perCampaign[c];
        if !(t.sent == 0 && t.clicked == 0 && t.failed == 0) && c in campaigns {
          var current := campaigns[c];
          var firstSent :=
            if t.firstSentAt.Some? && (current.firstSentAt.None? || t.firstSentAt.value < current.firstSentAt.value)
            then t.firstSentAt else current.firstSentAt;
          campaigns := campaigns[c := Counts(current.sent + t.sent, current.clicked + t.clicked,
                                             current.failed + t.failed, firstSent)];
        }
      }
    }

    method UpdateRollups(perType: map<EventType, nat>)
      modifies this`rollups
      ensures rollups.Keys == old(rollups).Keys + perType.Keys
      ensures forall typ :: typ in rollups ==> rollups[typ] == CountOf(old(rollups), typ) + CountOf(perType, typ)
    {
      var todo := perType.Keys;
      while todo != {}
        invariant todo <= perType.Keys
        invariant rollups.Keys == old(rollups).Keys + (perType.Keys - todo)
        invariant forall typ :: typ in rollups ==>
          rollups[typ] == CountOf(old(rollups), typ) + (if typ in todo then 0 else CountOf(perType, typ))
      {
        var typ :| typ in todo;
        todo := todo - {typ};
        rollups := rollups[typ := (if typ in rollups then rollups[typ] else 0) + perType[typ]];
      }
    }

    method OldestOf(ids: set<EventId>) returns (oldest: EventId)
      requires ids != {} && ids <= events.Keys
      ensures oldest in ids && forall i :: i in ids ==> events[oldest].createdAt <= events[i].createdAt
    {
      oldest :| oldest in ids;
      var others := ids - {oldest};
      while others != {}
        invariant others <= ids && oldest in ids
        invariant forall i :: i in ids - others ==> events[oldest].createdAt <= events[i].createdAt
      {
        var i :| i in others;
        others := others - {i};
        if events[i].createdAt < events[oldest].createdAt {
          oldest := i;
        }
      }
    }

    /** `findMany` with `orderBy: createdAt asc` and `take`: the oldest rows a query selects. */
    method Oldest(ids: set<EventId>, take: nat) returns (rows: seq<BatchRow>)
      requires ids <= events.Keys
      ensures IsOldest(events, ids, take, rows)
    {
      rows := [];
      while |rows| < Min(take, |ids|)
        invariant |rows| <= take && IsOldest(events, ids, |rows|, rows)
      {
        IdsAtMost(rows, ids);
        var oldest := OldestOf(ids - Ids(rows));
        ExtendOldest(events, ids, rows, oldest);
        rows := rows + [BatchRow(oldest, events[oldest])];
      }
    }

    /** The next slice of purgeable rows: windowed types first, oldest first, then DISMISSED. */
    method NextBatch(cutoff: int, take: nat) returns (batch: seq<BatchRow>)
      ensures IsNextBatch(events, cutoff, take, batch)
    {
      var aged := Oldest(Where(events, IsAged(cutoff)), take);
      if |aged| == take {
        JoinBatch(events, cutoff, take, aged, []);
        assert aged + [] == aged;
        return aged;
      }
      var rest := Oldest(Where(events, OfType(DISMISSED)), take - |aged|);
      JoinBatch(events, cutoff, take, aged, rest);
      batch := aged + rest;
    }
  }

  lemma IdsAppend(rows: seq<BatchRow>, more: seq<BatchRow>)
    ensures Ids(rows + more) == Ids(rows) + Ids(more)
  {
  }

  lemma {:induction false} IdsAtMost(rows: seq<BatchRow>, ids: set<EventId>)
    ensures |Ids(rows)| <= |rows|
    ensures Ids(rows) <= ids && |rows| < |ids| ==> ids - Ids(rows) != {}
  {
    if rows != [] {
      IdsAtMost(rows[1..], ids);
      IdsAppend([rows[0]], rows[1..]);
      assert [rows[0]] + rows[1..] == rows;
      assert Ids([rows[0]]) == {rows[0].id};
    }
    if Ids(rows) <= ids && ids - Ids(rows) == {} {
      assert forall x :: x in ids ==> x !in ids - Ids(rows);
      assert ids == Ids(rows);
    }
  }

  lemma ExtendOldest(events: EventTable, ids: set<EventId>, rows: seq<BatchRow>, oldest: EventId)
    requires ids <= events.Keys && oldest in ids - Ids(rows)
    requires IsOldest(events, ids, |rows|, rows)
    requires forall i :: i in ids - Ids(rows) ==> events[oldest].createdAt <= events[i].createdAt
    requires |rows| < |ids|
    ensures IsOldest(events, ids, |rows| + 1, rows + [BatchRow(oldest, events[oldest])])
  {
    IdsAppend(rows, [BatchRow(oldest, events[oldest])]);
    assert forall n :: 0 <= n < |rows| ==> rows[n].id in Ids(rows);
  }

  lemma JoinBatch(events: EventTable, cutoff: int, take: nat, aged: seq<BatchRow>, rest: seq<BatchRow>)
    requires IsOldest(events, Where(events, IsAged(cutoff)), take, aged)
    requires IsOldest(events, Where(events, OfType(DISMISSED)), take - |aged|, rest)
    ensures IsNextBatch(events, cutoff, take, aged + rest)
  {
    PurgeableSplits(events, cutoff);
    IdsAppend(aged, rest);
    JoinLive(events, aged, rest, Where(events, IsAged(cutoff)), Where(events, OfType(DISMISSED)));
    var batch := aged + rest;
    assert batch[..|aged|] == aged && batch[|aged|..] == rest;
  }

  lemma JoinLive(events: EventTable, a: seq<BatchRow>, b: seq<BatchRow>, x: set<EventId>, y: set<EventId>)
    requires AllLive(events, a) && AllLive(events, b) && Ids(a) <= x && Ids(b) <= y && x !! y
    ensures AllLive(events, a + b)
  {
    var both := a + b;
    forall i, j | 0 <= i < j < |both|
      ensures both[i].id != both[j].id
    {
      assert i < |a| ==> both[i].id in Ids(a);
      assert j >= |a| ==> both[j].id in Ids(b);
    }
  }

  lemma PurgeableSplits(events: EventTable, cutoff: int)
    ensures Where(events, IsPurgeable(cutoff)) == Where(events, IsAged(cutoff)) + Where(events, OfType(DISMISSED))
    ensures Where(events, IsAged(cutoff)) !! Where(events, OfType(DISMISSED))
    ensures |Where(events, IsPurgeable(cutoff))|
         == |Where(events, IsAged(cutoff))| + |Where(events, OfType(DISMISSED))|
  {
  }

  // ----- what is purged -----

  predicate Windowed(typ: EventType) {
    typ == SENT || typ == CLICKED || typ == FAILED
  }

  function IsAged(cutoff: int): Event -> bool {
    (e: Event) => Windowed(e.typ) && e.createdAt < cutoff
  }

  /** SENT, CLICKED and FAILED older than the cutoff, and DISMISSED at any age. */
  predicate Purgeable(e: Event, cutoff: int) {
    (Windowed(e.typ) && e.createdAt < cutoff) || e.typ == DISMISSED
  }

  function IsPurgeable(cutoff: int): Event -> bool {
    (e: Event) => Purgeable(e, cutoff)
  }

  ghost predicate SortedByTime(rows: seq<BatchRow>) {
    forall i, j :: 0 <= i < j < |rows| ==> rows[i].event.createdAt <= rows[j].event.createdAt
  }

  ghost predicate IsOldest(events: EventTable, ids: set<EventId>, take: nat, rows: seq<BatchRow>)
    requires ids <= events.Keys
  {
    && AllLive(events, rows) && Ids(rows) <= ids
    && |rows| == Min(take, |ids|)
    && SortedByTime(rows)
    && forall n, i :: 0 <= n < |rows| && i in ids - Ids(rows) ==> rows[n].event.createdAt <= events[i].createdAt
  }

  ghost predicate IsNextBatch(events: EventTable, cutoff: int, take: nat, batch: seq<BatchRow>) {
    && AllLive(events, batch)
    && Ids(batch) <= Where(events, IsPurgeable(cutoff))
    && |batch| == Min(take, |Where(events, IsPurgeable(cutoff))|)
    && exists aged :: 0 <= aged <= |batch|
        && IsOldest(events, Where(events, IsAged(cutoff)), take, batch[..aged])
        && IsOldest(events, Where(events, OfType(DISMISSED)), take - aged, batch[aged..])
  }

  // ----- the sweep -----

  datatype SweepResult = SweepResult(deleted: map<EventType, nat>, batches: nat, more: bool)

  /** Rows of a type that went from `before` to `after`. */
  function Gone(before: EventTable, after: EventTable, typ: EventType): int {
    |Where(before, OfType(typ))| - |Where(after, OfType(typ))|
  }

  function IsPurgeableOf(cutoff: int, typ: EventType): Event -> bool {
    (e: Event) => e.typ == typ && Purgeable(e, cutoff)
  }

  /** What a sweep may do to the store: only purgeable rows go, and every statistic stays. */
  ghost predicate SweptFrom(before: Store, after: Store, cutoff: int) {
    && SameStatistics(after, before)
    && after.events == before.events - (before.events.Keys - after.events.Keys)
    && before.events.Keys - after.events.Keys <= Where(before.events, IsPurgeable(cutoff))
  }

  lemma BatchSweeps(before: Store, s: Store, cutoff: int, take: nat, batch: seq<BatchRow>)
    requires SweptFrom(before, s, cutoff) && IsNextBatch(s.events, cutoff, take, batch)
    ensures SweptFrom(before, FoldRows(s, batch), cutoff)
    ensures |Where(FoldRows(s, batch).events, IsPurgeable(cutoff))|
         == |Where(s.events, IsPurgeable(cutoff))| - |batch|
  {
    var after := FoldRows(s, batch);
    FoldKeepsStatistics(s, batch);
    StatisticsChain(after, s, before);
    GonePurgeable(before, s, after, cutoff, batch);
    WhereDelete(s.events, Ids(batch), IsPurgeable(cutoff));
    IdsExactly(batch);
    assert Where(s.events, IsPurgeable(cutoff)) - Ids(batch) == Where(after.events, IsPurgeable(cutoff));
  }

  lemma StatisticsChain(a: Store, b: Store, c: Store)
    requires SameStatistics(a, b) && SameStatistics(b, c)
    ensures SameStatistics(a, c)
  {
    forall id | id in a.campaigns
      ensures Stats(a, id) == Stats(c, id)
    {
      assert Stats(b, id) == Stats(c, id);
    }
    forall typ
      ensures Lifetime(a, typ) == Lifetime(c, typ)
    {
      assert Lifetime(b, typ) == Lifetime(c, typ);
    }
  }

  lemma GonePurgeable(before: Store, s: Store, after: Store, cutoff: int, batch: seq<BatchRow>)
    requires s.events == before.events - (before.events.Keys - s.events.Keys)
    requires before.events.Keys - s.events.Keys <= Where(before.events, IsPurgeable(cutoff))
    requires after.events == s.events - Ids(batch) && Ids(batch) <= Where(s.events, IsPurgeable(cutoff))
    ensures after.events == before.events - (before.events.Keys - after.events.Keys)
    ensures before.events.Keys - after.events.Keys <= Where(before.events, IsPurgeable(cutoff))
  {
    forall i | i in before.events.Keys - after.events.Keys
      ensures i in Where(before.events, IsPurgeable(cutoff))
    {
      if i in s.events {
        assert i in Where(s.events, IsPurgeable(cutoff));
      }
    }
  }

  lemma {:induction false} IdsExactly(batch: seq<BatchRow>)
    requires forall i, j :: 0 <= i < j < |batch| ==> batch[i].id != batch[j].id
    ensures |Ids(batch)| == |batch|
  {
    if batch != [] {
      var front, last := batch[..|batch| - 1], batch[|batch| - 1];
      IdsExactly(front);
      assert batch == front + [last];
      IdsAppend(front, [last]);
      assert Ids([last]) == {last.id};
      assert last.id !in Ids(front);
    }
  }

  /** Deleting a batch lowers the count of each type by the batch's tally of that type. */
  lemma BatchGone(events: EventTable, batch: seq<BatchRow>, typ: EventType)
    requires AllLive(events, batch)
    ensures Gone(events, events - Ids(batch), typ) == TypeTally(batch, typ)
  {
    var s := Store(events, map[], map[]);
    FoldKeepsStatistics(s, batch);
    FoldRowsEvents(s, batch);
    FoldRowsRollups(s, batch, typ);
    assert Lifetime(FoldRows(s, batch), typ) == Lifetime(s, typ);
  }

  /**
   * One run of the sweep over `db`, any cutoff, batch size and batch limit (0 = no limit). It deletes purgeable rows
   * only, changes no statistic, and says how many rows of each type went; a run that ends with `more == false` has
   * left none.
   */
  method SweepEventRetention(db: EventDb, now: int, retentionDays: int, batchSize: nat, maxBatches: nat)
    returns (r: SweepResult)
    modifies db
    ensures SweptFrom(old(db.View()), db.View(), now - retentionDays * DAY_MS)
    ensures forall typ :: CountOf(r.deleted, typ) == Gone(old(db.events), db.events, typ)
    ensures !r.more && batchSize > 0 ==> Where(db.events, IsPurgeable(now - retentionDays * DAY_MS)) == {}
    ensures maxBatches > 0 ==> r.batches <= maxBatches
    ensures r.more ==> maxBatches > 0 && r.batches == maxBatches
  {
    var cutoff := now - retentionDays * DAY_MS;
    var deleted: map<EventType, nat> := map[];
    var batches := 0;
    ghost var before := db.View();
    while true
      invariant SweptFrom(before, db.View(), cutoff)
      invariant forall typ :: CountOf(deleted, typ) == Gone(before.events, db.events, typ)
      invariant maxBatches > 0 ==> batches <= maxBatches
      decreases |Where(db.events, IsPurgeable(cutoff))|
    {
      if maxBatches > 0 && batches >= maxBatches {
        return SweepResult(deleted, batches, true);
      }
      var batch := db.NextBatch(cutoff, batchSize);
      if |batch| == 0 {
        break;
      }
      ghost var s := db.View();
      BatchSweeps(before, s, cutoff, batchSize, batch);
      FoldRowsIsTally(s, batch);
      db.FoldAndDelete(batch);
      forall typ {
        BatchGone(s.events, batch, typ);
      }
      deleted := BumpDeleted(deleted, batch);
      batches := batches + 1;
      if |batch| < batchSize {
        break;
      }
    }
    r := SweepResult(deleted, batches, false);
  }

  /** `for (const row of batch) bump(row.type, 1)`. */
  method BumpDeleted(deleted: map<EventType, nat>, batch: seq<BatchRow>) returns (r: map<EventType, nat>)
    ensures forall typ :: CountOf(r, typ) == CountOf(deleted, typ) + TypeTally(batch, typ)
  {
    r := deleted;
    for n := 0 to |batch|
      invariant forall typ :: CountOf(r, typ) == CountOf(deleted, typ) + TypeTally(batch[..n], typ)
    {
      assert batch[..n + 1][..n] == batch[..n];
      r := r[batch[n].event.typ := CountOf(r, batch[n].event.typ) + 1];
    }
    assert batch[..|batch|] == batch;
  }

  /**
   * A dry run counts the purgeable rows of each type: exactly what a real run that clears the backlog would delete.
   */
  lemma DryRunPredicts(before: Store, after: Store, cutoff: int, typ: EventType)
    requires SweptFrom(before, after, cutoff) && Where(after.events, IsPurgeable(cutoff)) == {}
    ensures |Where(before.events, IsPurgeableOf(cutoff, typ))| == Gone(before.events, after.events, typ)
  {
    var gone := before.events.Keys - after.events.Keys;
    var were := Where(before.events, OfType(typ));
    WhereDelete(before.events, gone, OfType(typ));
    GoneExactly(before, after, cutoff, typ, gone);
    SplitSize(were, gone);
  }

  lemma GoneExactly(before: Store, after: Store, cutoff: int, typ: EventType, gone: set<EventId>)
    requires gone <= Where(before.events, IsPurgeable(cutoff))
    requires after.events == before.events - gone && Where(after.events, IsPurgeable(cutoff)) == {}
    ensures Where(before.events, OfType(typ)) * gone == Where(before.events, IsPurgeableOf(cutoff, typ))
  {
    forall i | i in Where(before.events, IsPurgeableOf(cutoff, typ))
      ensures i in gone
    {
      assert i !in Where(after.events, IsPurgeable(cutoff));
    }
  }

  lemma SplitSize<T>(a: set<T>, b: set<T>)
    ensures |a| == |a - b| + |a * b|
  {
    assert a == (a - b) + (a * b);
  }

  // ----- with and without retention -----

  datatype Step =
    | Write(id: EventId, event: Event)      // a new delivery-log row
    | NewCampaign(campaign: CampaignId)     // its roll-ups start at zero
    | Fold(batch: seq<BatchRow>)            // one committed batch; a batch that crashes or rolls back is no step

  /** The store with the sweep running, beside the store of the same run with every sweep left out. */
  datatype Pair = Pair(swept: Store, unswept: Store)

  ghost predicate Enabled(p: Pair, s: Step) {
    match s
    case Write(id, e) =>                           // row ids are never reused, and campaignId is a foreign key
      id !in p.unswept.events && (e.campaign.Some? ==> e.campaign.value in p.unswept.campaigns)
    case NewCampaign(c) => c !in p.swept.campaigns && c !in p.unswept.campaigns
    case Fold(batch) => AllLive(p.swept.events, batch)
  }

  function Apply(s: Store, step: Step): Store {
    match step
    case Write(id, e) => s.(events := s.events[id := e])
    case NewCampaign(c) => s.(campaigns := s.campaigns[c := ZERO])
    case Fold(batch) => FoldRows(s, batch)
  }

  function Next(p: Pair, s: Step): Pair {
    Pair(Apply(p.swept, s), if s.Fold? then p.unswept else Apply(p.unswept, s))
  }

  ghost predicate IsRun(p: Pair, steps: seq<Step>, end: Pair)
    decreases |steps|
  {
    if steps == [] then end == p
    else Enabled(p, steps[0]) && IsRun(Next(p, steps[0]), steps[1..], end)
  }

  ghost predicate Agree(p: Pair) {
    && SameStatistics(p.swept, p.unswept)
    && (forall i :: i in p.swept.events ==> i in p.unswept.events && p.unswept.events[i] == p.swept.events[i])
    && (forall i :: i in p.unswept.events && p.unswept.events[i].campaign.Some? ==>
          p.unswept.events[i].campaign.value in p.unswept.campaigns)
  }

  lemma WriteKeepsAgreement(p: Pair, id: EventId, e: Event)
    requires Agree(p) && Enabled(p, Write(id, e))
    ensures Agree(Next(p, Write(id, e)))
  {
    var n := Next(p, Write(id, e));
    forall c | c in n.swept.campaigns
      ensures Stats(n.swept, c) == Stats(n.unswept, c)
    {
      assert Stats(p.swept, c) == Stats(p.unswept, c);
      WriteStats(p.swept, id, e, c);
      WriteStats(p.unswept, id, e, c);
    }
    forall typ
      ensures Lifetime(n.swept, typ) == Lifetime(n.unswept, typ)
    {
      assert Lifetime(p.swept, typ) == Lifetime(p.unswept, typ);
      WriteLifetime(p.swept, id, e, typ);
      WriteLifetime(p.unswept, id, e, typ);
    }
  }

  lemma WriteLifetime(s: Store, id: EventId, e: Event, typ: EventType)
    requires id !in s.events
    ensures Lifetime(s.(events := s.events[id := e]), typ) == Lifetime(s, typ) + (if e.typ == typ then 1 else 0)
  {
    WhereInsert(s.events, id, e, OfType(typ));
  }

  lemma WriteStats(s: Store, id: EventId, e: Event, c: CampaignId)
    requires id !in s.events && c in s.campaigns
    ensures Stats(s.(events := s.events[id := e]), c)
         == if e.campaign == Some(c) then Bump(Stats(s, c), e) else Stats(s, c)
  {
    InsertCounts(s.events, id, e, c);
    BumpEitherHalf(s.campaigns[c], LiveCounts(s.events, c), e);
  }

  lemma StepKeepsAgreement(p: Pair, s: Step)
    requires Agree(p) && Enabled(p, s)
    ensures Agree(Next(p, s))
  {
    match s
    case Write(id, e) => WriteKeepsAgreement(p, id, e);
    case NewCampaign(c) =>
      var n := Next(p, s);
      forall d | d in n.swept.campaigns
        ensures Stats(n.swept, d) == Stats(n.unswept, d)
      {
        if d == c {
          assert forall typ :: Live(p.swept.events, c, typ) == {} && Live(p.unswept.events, c, typ) == {};
        } else {
          assert Stats(p.swept, d) == Stats(p.unswept, d);
        }
      }
      assert forall typ :: Lifetime(n.swept, typ) == Lifetime(p.swept, typ)
                        && Lifetime(n.unswept, typ) == Lifetime(p.unswept, typ);
    case Fold(batch) =>
      FoldKeepsStatistics(p.swept, batch);
      var n := Next(p, s);
      forall d | d in n.swept.campaigns
        ensures Stats(n.swept, d) == Stats(n.unswept, d)
      {
        assert Stats(n.swept, d) == Stats(p.swept, d);
      }
  }

  /**
   * Over any run that interleaves new rows and new campaigns with retention batches — any cutoffs, batch sizes, stops
   * or crashes between batches — every campaign's figures and every lifetime count equal those of the same run with
   * no retention.
   */
  lemma {:induction false} RetentionIsInvisible(p: Pair, steps: seq<Step>, end: Pair)
    requires Agree(p) && IsRun(p, steps, end)
    ensures SameStatistics(end.swept, end.unswept)
    ensures Agree(end)
    decreases |steps|
  {
    if steps != [] {
      StepKeepsAgreement(p, steps[0]);
      RetentionIsInvisible(Next(p, steps[0]), steps[1..], end);
    }
  }

  // ----- a batch folded twice -----

  predicate IsFigureRow(e: Event, c: CampaignId) {
    e.campaign == Some(c) && Windowed(e.typ)
  }

  lemma CombineAssociates(a: Counts, b: Counts, c: Counts)
    ensures Combine(Combine(a, b), c) == Combine(a, Combine(b, c))
  {
  }

  lemma CombineCommutes(a: Counts, b: Counts, c: Counts)
    ensures Combine(Combine(a, b), c) == Combine(Combine(a, c), b)
  {
  }

  lemma CombineZero(a: Counts)
    ensures Combine(a, ZERO) == a == Combine(ZERO, a)
  {
  }

  lemma {:induction false} TallyZeroIff(rows: seq<BatchRow>, c: CampaignId)
    ensures Tally(rows, c) == ZERO <==> forall r :: r in rows ==> !IsFigureRow(r.event, c)
    ensures var t := Tally(rows, c); t.sent == 0 && t.clicked == 0 && t.failed == 0 ==> t == ZERO
  {
    if rows != [] {
      TallyZeroIff(rows[..|rows| - 1], c);
      assert rows == rows[..|rows| - 1] + [rows[|rows| - 1]];
    }
  }

  lemma {:induction false} TypeTallyZeroIff(rows: seq<BatchRow>, typ: EventType)
    ensures TypeTally(rows, typ) == 0 <==> forall r :: r in rows ==> r.event.typ != typ
  {
    if rows != [] {
      TypeTallyZeroIff(rows[..|rows| - 1], typ);
      assert rows == rows[..|rows| - 1] + [rows[|rows| - 1]];
    }
  }

  predicate NotBefore(a: Option<int>, b: Option<int>) {
    a.None? || (b.Some? && b.value <= a.value)
  }

  /** Figures without the rows `part` agree with those with them exactly when `part` is of no rows. */
  lemma PartMatters(a: Counts, part: Counts)
    requires part.sent == 0 && part.clicked == 0 && part.failed == 0 ==> part == ZERO
    ensures Combine(a, part) == a <==> part == ZERO
    ensures Combine(a, part).firstSentAt == a.firstSentAt <==> NotBefore(part.firstSentAt, a.firstSentAt)
  {
    var both := Combine(a, part);
    if part == ZERO {
      CombineZero(a);
    } else {
      assert both.sent != a.sent || both.clicked != a.clicked || both.failed != a.failed;
    }
  }

  lemma RefoldedStats(s: Store, batch: seq<BatchRow>, c: CampaignId)
    requires AllLive(s.events, batch) && c in s.campaigns
    ensures var again := FoldRows(FoldRows(s, batch), batch);
            c in again.campaigns && Stats(again, c) == Combine(Stats(s, c), Tally(batch, c))
  {
    var once := FoldRows(s, batch);
    var live := LiveCounts(once.events, c);
    assert c in once.campaigns && Combine(once.campaigns[c], live) == Stats(s, c) by {
      FoldKeepsStatistics(s, batch);
      assert Stats(once, c) == Stats(s, c);
    }
    FoldRowsEvents(s, batch);
    FoldAgain(once, batch, c);
    CombineCommutes(once.campaigns[c], Tally(batch, c), live);
  }

  /** Folding rows that are gone already only adds to the roll-ups. */
  lemma FoldAgain(once: Store, batch: seq<BatchRow>, c: CampaignId)
    requires once.events - Ids(batch) == once.events && c in once.campaigns
    ensures var again := FoldRows(once, batch);
            && again.events == once.events && c in again.campaigns
            && again.campaigns[c] == Combine(once.campaigns[c], Tally(batch, c))
  {
    FoldRowsCampaigns(once, batch);
    FoldRowsEvents(once, batch);
  }

  /**
   * The fold is exact only for rows that are still live: a batch folded a second time — two sweeps over one table — is
   * counted again although nothing is left to delete. A campaign's figures are off by exactly the batch's rows of it,
   * so they are wrong if and only if the batch has one; lifetime counts likewise. The in-process `isSweeping` flag is
   * what rules this out.
   */
  lemma RefoldingCountsTwice(s: Store, batch: seq<BatchRow>, c: CampaignId)
    requires AllLive(s.events, batch) && c in s.campaigns
    ensures var again := FoldRows(FoldRows(s, batch), batch);
            && c in again.campaigns && Stats(again, c) == Combine(Stats(s, c), Tally(batch, c))
            && (Stats(again, c) == Stats(s, c) <==> forall r :: r in batch ==> !IsFigureRow(r.event, c))
  {
    RefoldedStats(s, batch, c);
    TallyZeroIff(batch, c);
    PartMatters(Stats(s, c), Tally(batch, c));
  }

  lemma RefoldingCountsTypeTwice(s: Store, batch: seq<BatchRow>, typ: EventType)
    requires AllLive(s.events, batch)
    ensures Lifetime(FoldRows(FoldRows(s, batch), batch), typ) == Lifetime(s, typ) + TypeTally(batch, typ)
    ensures Lifetime(FoldRows(FoldRows(s, batch), batch), typ) == Lifetime(s, typ) <==>
              forall r :: r in batch ==> r.event.typ != typ
  {
    var once := FoldRows(s, batch);
    FoldKeepsStatistics(s, batch);
    assert Lifetime(once, typ) == Lifetime(s, typ);
    FoldRowsRollups(once, batch, typ);
    FoldRowsEvents(once, batch);
    assert FoldRows(once, batch).events == once.events;
    TypeTallyZeroIff(batch, typ);
  }
}
