/** The read side of "rolled + live" (src/services/metrics.ts): per-campaign figures and lifetime counts. */
module Metrics {
  import opened Prelude
  import opened IstClock
  import opened Events
  import opened EventRetention

  /** One row of the `groupBy(campaignId, type)` query: the rows in the group and their least `createdAt`. */
  datatype Group = Group(count: nat, minCreatedAt: int)
  datatype Key = Key(campaign: CampaignId, typ: EventType)
  type Groups = map<Key, Group>

  /** What the database answers: one group per asked-for campaign and windowed type that has rows. */
  ghost predicate IsGroupBy(events: EventTable, ids: set<CampaignId>, groups: Groups) {
    && (forall k :: k in groups ==>
          k.campaign in ids && Windowed(k.typ) && IsGroup(events, k.campaign, k.typ, groups[k]))
    && (forall c, typ :: c in ids && Windowed(typ) && Key(c, typ) !in groups ==> Live(events, c, typ) == {})
  }

  ghost predicate IsGroup(events: EventTable, c: CampaignId, typ: EventType, g: Group) {
    g.count == |Live(events, c, typ)| && Earliest(events, Live(events, c, typ)) == Some(g.minCreatedAt)
  }

  function CountIn(groups: Groups, seen: set<Key>, c: CampaignId, typ: EventType): nat {
    if Key(c, typ) in seen && Key(c, typ) in groups then groups[Key(c, typ)].count else 0
  }

  /** The rolled half of `c` plus those of its groups that have been seen. */
  function Partial(rolled: Counts, groups: Groups, seen: set<Key>, c: CampaignId): Counts {
    Counts(
      rolled.sent + CountIn(groups, seen, c, SENT),
      rolled.clicked + CountIn(groups, seen, c, CLICKED),
      rolled.failed + CountIn(groups, seen, c, FAILED),
      Earlier(rolled.firstSentAt,
              if Key(c, SENT) in seen && Key(c, SENT) in groups then Some(groups[Key(c, SENT)].minCreatedAt) else None))
  }

  lemma GroupIsLive(events: EventTable, ids: set<CampaignId>, groups: Groups, c: CampaignId, typ: EventType)
    requires IsGroupBy(events, ids, groups) && c in ids && Windowed(typ)
    ensures CountIn(groups, groups.Keys, c, typ) == |Live(events, c, typ)|
    ensures (if Key(c, typ) in groups then Some(groups[Key(c, typ)].minCreatedAt) else None)
         == Earliest(events, Live(events, c, typ))
  {
    if Key(c, typ) in groups {
      assert IsGroup(events, c, typ, groups[Key(c, typ)]);
    }
  }

  /** A response's figures for a campaign: the rolled half as one query found it, the live half as the other did. */
  ghost function Read(rolledFrom: Store, liveFrom: Store, c: CampaignId): Counts {
    Combine(EntryOf(rolledFrom.campaigns, c), LiveCounts(liveFrom.events, c))
  }

  lemma AllGroupsGiveLive(rolled: Counts, events: EventTable, ids: set<CampaignId>, groups: Groups, c: CampaignId)
    requires IsGroupBy(events, ids, groups) && c in ids
    ensures Partial(rolled, groups, groups.Keys, c) == Combine(rolled, LiveCounts(events, c))
  {
    GroupIsLive(events, ids, groups, c, SENT);
    GroupIsLive(events, ids, groups, c, CLICKED);
    GroupIsLive(events, ids, groups, c, FAILED);
  }

  function AddGroup(c: Counts, typ: EventType, row: Group): Counts {
    if typ == SENT then
      var earlier := c.firstSentAt.None? || row.minCreatedAt < c.firstSentAt.value;
      c.(sent := c.sent + row.count, firstSentAt := if earlier then Some(row.minCreatedAt) else c.firstSentAt)
    else if typ == CLICKED then c.(clicked := c.clicked + row.count)
    else if typ == FAILED then c.(failed := c.failed + row.count)
    else c
  }

  lemma SeeGroup(rolled: Counts, groups: Groups, seen: set<Key>, c: CampaignId,
                 key: Key)
    requires key in groups && key !in seen
    ensures Partial(rolled, groups, seen + {key}, c)
         == if key.campaign == c then AddGroup(Partial(rolled, groups, seen, c), key.typ, groups[key])
            else Partial(rolled, groups, seen, c)
  {
  }

  function CampaignsOf(keys: set<Key>): set<CampaignId> {
    set k | k in keys :: k.campaign
  }

  /** Every asked-for campaign stands at its rolled half plus its groups seen so far; one with neither has no entry. */
  ghost predicate Shows(out: map<CampaignId, Counts>, ids: set<CampaignId>, campaigns: map<CampaignId, Counts>,
                        groups: Groups, seen: set<Key>) {
    && (forall c :: c in ids ==> EntryOf(out, c) == Partial(EntryOf(campaigns, c), groups, seen, c))
    && (forall c :: c in out <==> c in ids && (c in campaigns || c in CampaignsOf(seen)))
  }

  lemma ShowsNext(out: map<CampaignId, Counts>, ids: set<CampaignId>, campaigns: map<CampaignId, Counts>,
                  groups: Groups, seen: set<Key>, key: Key)
    requires Shows(out, ids, campaigns, groups, seen) && key in groups && key !in seen && key.campaign in ids
    ensures Shows(out[key.campaign := AddGroup(EntryOf(out, key.campaign), key.typ, groups[key])], ids, campaigns,
                  groups, seen + {key})
  {
    forall c | c in ids {
      SeeGroup(EntryOf(campaigns, c), groups, seen, c, key);
    }
    assert CampaignsOf(seen + {key}) == CampaignsOf(seen) + {key.campaign};
  }

  lemma ShowsAtFirst(ids: set<CampaignId>, campaigns: map<CampaignId, Counts>, groups: Groups)
    ensures Shows(map c | c in ids && c in campaigns :: campaigns[c], ids, campaigns, groups, {})
  {
  }

  /** `campaignStats`: start from the rolled half, then add the live groups one by one. */
  method AddGroups(ids: set<CampaignId>, campaigns: map<CampaignId, Counts>, groups: Groups)
    returns (out: map<CampaignId, Counts>)
    requires forall k :: k in groups ==> k.campaign in ids
    ensures Shows(out, ids, campaigns, groups, groups.Keys)
  {
    out := map c | c in ids && c in campaigns :: campaigns[c];
    var todo := groups.Keys;
    ghost var seen := {};
    ShowsAtFirst(ids, campaigns, groups);
    while todo != {}
      invariant seen + todo == groups.Keys && seen !! todo
      invariant Shows(out, ids, campaigns, groups, seen)
    {
      var key :| key in todo;
      ShowsNext(out, ids, campaigns, groups, seen, key);
      out := out[key.campaign := AddGroup(EntryOf(out, key.campaign), key.typ, groups[key])];
      seen, todo := seen + {key}, todo - {key};
    }
  }

  /**
   * The two queries run side by side, so each may see its own state of the store. Every asked-for campaign gets the
   * rolled half of the one and the live half of the other; one that neither query found gets no entry.
   */
  method CampaignStats(ids: set<CampaignId>, campaigns: map<CampaignId, Counts>, groups: Groups,
                       ghost rolledFrom: Store, ghost liveFrom: Store)
    returns (out: map<CampaignId, Counts>)
    requires rolledFrom.campaigns == campaigns && IsGroupBy(liveFrom.events, ids, groups)
    ensures forall c :: c in ids ==> EntryOf(out, c) == Read(rolledFrom, liveFrom, c)
    ensures forall c :: c in ids && c in campaigns ==> c in out
    ensures out.Keys <= ids
  {
    out := AddGroups(ids, campaigns, groups);
    forall c | c in ids {
      AllGroupsGiveLive(EntryOf(campaigns, c), liveFrom.events, ids, groups, c);
    }
  }

  /** A response's lifetime count of a type, read in the same way. */
  function LifetimeRead(rolledFrom: Store, liveFrom: Store, typ: EventType): nat {
    RolledUp(rolledFrom, typ) + |Where(liveFrom.events, OfType(typ))|
  }

  /** Lifetime counts by type: the live `groupBy` plus every roll-up row, each as its query found it. */
  method ComputeHeavyAggregates(events: EventTable, rollups: map<EventType, nat>,
                                ghost rolledFrom: Store, ghost liveFrom: Store)
    returns (byType: map<EventType, nat>)
    requires liveFrom.events == events && rolledFrom.rollups == rollups
    ensures forall typ :: CountOf(byType, typ) == LifetimeRead(rolledFrom, liveFrom, typ)
  {
    byType := map t: EventType | Where(events, OfType(t)) != {} :: |Where(events, OfType(t))|;
    var todo := rollups.Keys;
    GroupsAreLive(byType, rollups, events);
    while todo != {}
      invariant todo <= rollups.Keys
      invariant AddedSoFar(byType, todo, rollups, events)
    {
      var t :| t in todo;
      AddRollup(byType, todo, rollups, events, t);
      todo := todo - {t};
      byType := byType[t := CountOf(byType, t) + rollups[t]];
    }
    AllAdded(byType, rollups, events);
  }

  lemma GroupsAreLive(byType: map<EventType, nat>, rollups: map<EventType, nat>, events: EventTable)
    requires byType == map t: EventType | Where(events, OfType(t)) != {} :: |Where(events, OfType(t))|
    ensures AddedSoFar(byType, rollups.Keys, rollups, events)
  {
    forall typ
      ensures CountOf(byType, typ) == |Where(events, OfType(typ))|
    {
      if Where(events, OfType(typ)) == {} {
        assert typ !in byType;
      }
    }
  }

  lemma AllAdded(byType: map<EventType, nat>, rollups: map<EventType, nat>, events: EventTable)
    requires AddedSoFar(byType, {}, rollups, events)
    ensures forall typ :: CountOf(byType, typ) == |Where(events, OfType(typ))| + CountOf(rollups, typ)
  {
  }

  /** The live count of a type, plus its roll-up unless that is still to be added. */
  ghost predicate AddedSoFar(byType: map<EventType, nat>, todo: set<EventType>, rollups: map<EventType, nat>,
                             events: EventTable)
  {
    forall typ ::
      CountOf(byType, typ) == |Where(events, OfType(typ))| + (if typ in todo then 0 else CountOf(rollups, typ))
  }

  lemma AddRollup(byType: map<EventType, nat>, todo: set<EventType>, rollups: map<EventType, nat>, events: EventTable,
                  t: EventType)
    requires AddedSoFar(byType, todo, rollups, events) && t in todo && t in rollups
    ensures AddedSoFar(byType[t := CountOf(byType, t) + rollups[t]], todo - {t}, rollups, events)
  {
    var more := byType[t := CountOf(byType, t) + rollups[t]];
    forall typ
      ensures CountOf(more, typ)
           == |Where(events, OfType(typ))| + (if typ in todo - {t} then 0 else CountOf(rollups, typ))
    {
      assert CountOf(byType, typ) == |Where(events, OfType(typ))| + (if typ in todo then 0 else CountOf(rollups, typ));
    }
  }

  // ----- what a retention batch between the two queries does to a response -----

  /** The rows folded in a stretch of a run, in order. */
  function Folded(steps: seq<Step>): seq<BatchRow> {
    if steps == [] then [] else FoldedBy(steps[0]) + Folded(steps[1..])
  }

  function FoldedBy(step: Step): seq<BatchRow> {
    if step.Fold? then step.batch else []
  }

  ghost predicate NoneFolded(steps: seq<Step>, c: CampaignId) {
    forall r :: r in Folded(steps) ==> !IsFigureRow(r.event, c)
  }

  lemma {:induction false} TallyConcat(a: seq<BatchRow>, b: seq<BatchRow>, c: CampaignId)
    ensures Tally(a + b, c) == Combine(Tally(a, c), Tally(b, c))
    decreases |b|
  {
    if b == [] {
      assert a + b == a;
      CombineZero(Tally(a, c));
    } else {
      var front, last := b[..|b| - 1], b[|b| - 1];
      assert (a + b)[..|a + b| - 1] == a + front;
      TallyConcat(a, front, c);
      BumpEitherHalf(Tally(a, c), Tally(front, c), last.event);
    }
  }

  lemma {:induction false} TypeTallyConcat(a: seq<BatchRow>, b: seq<BatchRow>, typ: EventType)
    ensures TypeTally(a + b, typ) == TypeTally(a, typ) + TypeTally(b, typ)
    decreases |b|
  {
    if b == [] {
      assert a + b == a;
    } else {
      assert (a + b)[..|a + b| - 1] == a + b[..|b| - 1];
      TypeTallyConcat(a, b[..|b| - 1], typ);
    }
  }

  /** A campaign that is not in the table has no rows that could be folded. */
  lemma NoRowsBefore(p: Pair, batch: seq<BatchRow>, c: CampaignId)
    requires Agree(p) && AllLive(p.swept.events, batch) && c !in p.swept.campaigns
    ensures Tally(batch, c) == ZERO
  {
    forall r | r in batch
      ensures r.event.campaign != Some(c)
    {
      assert p.unswept.events[r.id] == r.event;
    }
    TallyZeroIff(batch, c);
  }

  lemma FoldAddsToRolled(p: Pair, batch: seq<BatchRow>, c: CampaignId)
    requires Agree(p) && AllLive(p.swept.events, batch)
    ensures EntryOf(FoldRows(p.swept, batch).campaigns, c) == Combine(EntryOf(p.swept.campaigns, c), Tally(batch, c))
  {
    FoldRowsCampaigns(p.swept, batch);
    if c !in p.swept.campaigns {
      NoRowsBefore(p, batch, c);
      CombineZero(ZERO);
    }
  }

  lemma StepAddsToRolled(p: Pair, step: Step, c: CampaignId)
    requires Agree(p) && Enabled(p, step)
    ensures EntryOf(Next(p, step).swept.campaigns, c)
         == Combine(EntryOf(p.swept.campaigns, c), Tally(FoldedBy(step), c))
  {
    if step.Fold? {
      FoldAddsToRolled(p, step.batch, c);
    } else {
      CombineZero(EntryOf(p.swept.campaigns, c));
    }
  }

  /** Over a stretch of a run the rolled half of a campaign grows by exactly what was folded. */
  lemma {:induction false} RolledGrows(p: Pair, steps: seq<Step>, q: Pair, c: CampaignId)
    requires Agree(p) && IsRun(p, steps, q)
    ensures EntryOf(q.swept.campaigns, c) == Combine(EntryOf(p.swept.campaigns, c), Tally(Folded(steps), c))
    decreases |steps|
  {
    var was := EntryOf(p.swept.campaigns, c);
    if steps == [] {
      CombineZero(was);
    } else {
      var now, later := FoldedBy(steps[0]), Folded(steps[1..]);
      StepKeepsAgreement(p, steps[0]);
      StepAddsToRolled(p, steps[0], c);
      RolledGrows(Next(p, steps[0]), steps[1..], q, c);
      TallyConcat(now, later, c);
      CombineAssociates(was, Tally(now, c), Tally(later, c));
    }
  }

  lemma {:induction false} RollupGrows(p: Pair, steps: seq<Step>, q: Pair, typ: EventType)
    requires IsRun(p, steps, q)
    ensures RolledUp(q.swept, typ) == RolledUp(p.swept, typ) + TypeTally(Folded(steps), typ)
    decreases |steps|
  {
    if steps != [] {
      RollupGrows(Next(p, steps[0]), steps[1..], q, typ);
      TypeTallyConcat(FoldedBy(steps[0]), Folded(steps[1..]), typ);
      if steps[0].Fold? {
        FoldRowsRollups(p.swept, steps[0].batch, typ);
      }
    }
  }

  /** Read at one moment, both halves give the figures of the run without retention. */
  lemma ReadAtOnce(p: Pair, c: CampaignId)
    requires Agree(p)
    ensures Read(p.swept, p.swept, c) == Read(p.unswept, p.unswept, c)
    ensures c in p.swept.campaigns ==> Read(p.unswept, p.unswept, c) == Stats(p.unswept, c)
  {
    if c in p.swept.campaigns {
      assert Stats(p.swept, c) == Stats(p.unswept, c);
    } else {
      assert forall typ :: Live(p.swept.events, c, typ) == {} && Live(p.unswept.events, c, typ) == {};
    }
  }

  /**
   * The rolled half is read first: what is folded before the live half is read is in neither. The response falls short
   * of the figures of the run without retention by exactly those rows, so it is right if and only if no SENT, CLICKED
   * or FAILED row of the campaign was folded in between.
   */
  lemma RolledReadFirst(p: Pair, steps: seq<Step>, q: Pair, c: CampaignId)
    requires Agree(p) && IsRun(p, steps, q)
    ensures var shown, right := Read(p.swept, q.swept, c), Read(q.unswept, q.unswept, c);
            var missed := Tally(Folded(steps), c);
            && right == Combine(shown, missed)
            && (shown == right <==> NoneFolded(steps, c))
            && (shown.firstSentAt == right.firstSentAt <==> NotBefore(missed.firstSentAt, shown.firstSentAt))
  {
    var shown, missed := Read(p.swept, q.swept, c), Tally(Folded(steps), c);
    assert Read(q.unswept, q.unswept, c) == Combine(shown, missed) by {
      EventRetention.RetentionIsInvisible(p, steps, q);
      ReadAtOnce(q, c);
      RolledGrows(p, steps, q, c);
      CombineCommutes(EntryOf(p.swept.campaigns, c), missed, LiveCounts(q.swept.events, c));
    }
    TallyZeroIff(Folded(steps), c);
    PartMatters(shown, missed);
  }

  /** The live half is read first: what is folded before the rolled half is read is counted twice. */
  lemma LiveReadFirst(p: Pair, steps: seq<Step>, q: Pair, c: CampaignId)
    requires Agree(p) && IsRun(p, steps, q)
    ensures var shown, right := Read(q.swept, p.swept, c), Read(p.unswept, p.unswept, c);
            var twice := Tally(Folded(steps), c);
            && shown == Combine(right, twice)
            && (shown == right <==> NoneFolded(steps, c))
            && (shown.firstSentAt == right.firstSentAt <==> NotBefore(twice.firstSentAt, right.firstSentAt))
  {
    var right, twice := Read(p.unswept, p.unswept, c), Tally(Folded(steps), c);
    assert Read(q.swept, p.swept, c) == Combine(right, twice) by {
      ReadAtOnce(p, c);
      RolledGrows(p, steps, q, c);
      CombineCommutes(EntryOf(p.swept.campaigns, c), twice, LiveCounts(p.swept.events, c));
    }
    TallyZeroIff(Folded(steps), c);
    PartMatters(right, twice);
  }

  /** The same for a lifetime count, in both orders: short by the rows folded in between, or over by them. */
  lemma LifetimeReadApart(p: Pair, steps: seq<Step>, q: Pair, typ: EventType)
    requires Agree(p) && IsRun(p, steps, q)
    ensures LifetimeRead(p.swept, q.swept, typ) + TypeTally(Folded(steps), typ) == Lifetime(q.unswept, typ)
    ensures LifetimeRead(q.swept, p.swept, typ) == Lifetime(p.unswept, typ) + TypeTally(Folded(steps), typ)
    ensures LifetimeRead(p.swept, q.swept, typ) == Lifetime(q.unswept, typ)
       <==> forall r :: r in Folded(steps) ==> r.event.typ != typ
    ensures LifetimeRead(q.swept, p.swept, typ) == Lifetime(p.unswept, typ)
       <==> forall r :: r in Folded(steps) ==> r.event.typ != typ
  {
    EventRetention.RetentionIsInvisible(p, steps, q);
    RollupGrows(p, steps, q, typ);
    TypeTallyZeroIff(Folded(steps), typ);
    assert Lifetime(q.swept, typ) == Lifetime(q.unswept, typ);
    assert Lifetime(p.swept, typ) == Lifetime(p.unswept, typ);
  }

  const EMPTY := Store(map[], map[], map[])

  /**
   * From the empty store: one campaign, one delivery, and 31 days later the batch that takes it, with the default
   * window of 30 days. The figure is 1 throughout; read around that batch it is 0 in one order and 2 in the other.
   */
  lemma ReadAroundOneFold()
    returns (before: seq<Step>, p: Pair, fold: seq<Step>, q: Pair)
    ensures IsRun(Pair(EMPTY, EMPTY), before, p) && IsRun(p, fold, q)
    ensures |fold| == 1 && fold[0].Fold? && IsNextBatch(p.swept.events, 31 * DAY_MS - 30 * DAY_MS, 5_000, fold[0].batch)
    ensures Read(p.unswept, p.unswept, 0).sent == 1 && Read(q.unswept, q.unswept, 0).sent == 1
    ensures Read(p.swept, q.swept, 0).sent == 0 && Read(q.swept, p.swept, 0).sent == 2
  {
    var row := BatchRow(0, Event(SENT, Some(0), Some(0), 0));
    before, fold := [NewCampaign(0), Write(0, row.event)], [Fold([row])];
    TwoStepsRun(Pair(EMPTY, EMPTY), before[0], before[1]);
    p := Next(Next(Pair(EMPTY, EMPTY), before[0]), before[1]);
    var s := Store(map[0 := row.event], map[0 := ZERO], map[]);
    assert p == Pair(s, s);
    OneRowFolds(s, row);
    q := Pair(FoldRow(s, row), s);
    OnlyRowIsNext(s.events, row.event, DAY_MS, 5_000);
    OneStepRuns(p, fold[0]);
    OnlyLive(s.events, 0, row.event);
    NoneLive(q.swept.events);
    OneRowRolled(s, row);
    OneRowFigures(s, q.swept);
  }

  lemma OneStepRuns(p: Pair, a: Step)
    requires Enabled(p, a)
    ensures IsRun(p, [a], Next(p, a))
  {
    assert [a][1..] == [] && IsRun(Next(p, a), [], Next(p, a));
  }

  lemma OneRowFigures(s: Store, f: Store)
    requires EntryOf(s.campaigns, 0).sent == 0 && |Live(s.events, 0, SENT)| == 1
    requires EntryOf(f.campaigns, 0).sent == 1 && |Live(f.events, 0, SENT)| == 0
    ensures Read(s, s, 0).sent == 1 && Read(s, f, 0).sent == 0 && Read(f, s, 0).sent == 2
  {
    SentRead(s, s);
    SentRead(s, f);
    SentRead(f, s);
  }

  lemma OneRowRolled(s: Store, row: BatchRow)
    requires IsOf(row.event, 0, SENT) && s.campaigns == map[0 := ZERO]
    ensures EntryOf(FoldRow(s, row).campaigns, 0).sent == 1
  {
    assert FoldRow(s, row).campaigns == s.campaigns[0 := Bump(ZERO, row.event)];
  }

  lemma SentRead(rolledFrom: Store, liveFrom: Store)
    ensures Read(rolledFrom, liveFrom, 0).sent
         == EntryOf(rolledFrom.campaigns, 0).sent + |Live(liveFrom.events, 0, SENT)|
  {
  }

  lemma OnlyLive(events: EventTable, id: EventId, e: Event)
    requires events == map[id := e] && IsOf(e, 0, SENT)
    ensures |Live(events, 0, SENT)| == 1
  {
    assert Live(events, 0, SENT) == {id};
  }

  lemma NoneLive(events: EventTable)
    requires events == map[]
    ensures |Live(events, 0, SENT)| == 0
  {
    assert Live(events, 0, SENT) == {};
  }

  lemma OneRowFolds(s: Store, row: BatchRow)
    ensures FoldRows(s, [row]) == FoldRow(s, row)
  {
    assert [row][..0] == [];
    assert FoldRows(s, []) == s;
  }

  lemma TwoStepsRun(p: Pair, a: Step, b: Step)
    requires Enabled(p, a) && Enabled(Next(p, a), b)
    ensures IsRun(p, [a, b], Next(Next(p, a), b))
  {
    assert [a, b][1..] == [b] && [b][1..] == [];
    assert IsRun(Next(Next(p, a), b), [], Next(Next(p, a), b));
    assert IsRun(Next(p, a), [b], Next(Next(p, a), b));
  }

  lemma OnlyRowIsNext(events: EventTable, e: Event, cutoff: int, take: nat)
    requires events == map[0 := e] && Windowed(e.typ) && e.createdAt < cutoff && take > 0
    ensures IsNextBatch(events, cutoff, take, [BatchRow(0, e)])
  {
    var batch := [BatchRow(0, e)];
    assert Where(events, IsAged(cutoff)) == {0} && Where(events, OfType(DISMISSED)) == {};
    assert Where(events, IsPurgeable(cutoff)) == {0};
    assert batch[..1] == batch && batch[1..] == [];
    assert Ids(batch) == {0} && Ids([]) == {};
    assert IsOldest(events, {0}, take, batch[..1]);
    assert IsOldest(events, {}, take - 1, batch[1..]);
  }

  // ----- when a response is right, told before it is asked for -----

  /** What the batches of a stretch take could be purged at `t`: none has a later cutoff. */
  ghost predicate PurgesOnly(steps: seq<Step>, t: int) {
    forall r :: r in Folded(steps) ==> Purgeable(r.event, t)
  }

  /** Of the rows selected, none that is written in the stretch could be: rows carry the time they are written at. */
  ghost predicate WritesKept(steps: seq<Step>, selects: Event -> bool, t: int) {
    forall s :: s in steps && s.Write? && selects(s.event) ==> !Purgeable(s.event, t)
  }

  ghost predicate NonePurgeable(events: EventTable, selects: Event -> bool, t: int) {
    forall i :: i in events && selects(events[i]) ==> !Purgeable(events[i], t)
  }

  function FigureRowsOf(c: CampaignId): Event -> bool {
    (e: Event) => IsFigureRow(e, c)
  }

  /** A row that is folded was live at the start or was written on the way. */
  lemma {:induction false} FoldedWasThere(p: Pair, steps: seq<Step>, q: Pair, r: BatchRow)
    requires IsRun(p, steps, q) && r in Folded(steps)
    ensures (r.id in p.swept.events && p.swept.events[r.id] == r.event) || Write(r.id, r.event) in steps
    decreases |steps|
  {
    var n := Next(p, steps[0]);
    if r in FoldedBy(steps[0]) {
      assert AllLive(p.swept.events, steps[0].batch);
    } else {
      FoldedWasThere(n, steps[1..], q, r);
      if Write(r.id, r.event) !in steps[1..] && steps[0].Fold? {
        FoldRowsEvents(p.swept, steps[0].batch);
      }
    }
  }

  lemma NothingFolded(p: Pair, steps: seq<Step>, q: Pair, selects: Event -> bool, t: int)
    requires IsRun(p, steps, q) && PurgesOnly(steps, t) && WritesKept(steps, selects, t)
    requires NonePurgeable(p.swept.events, selects, t)
    ensures forall r :: r in Folded(steps) ==> !selects(r.event)
  {
    forall r | r in Folded(steps)
      ensures !selects(r.event)
    {
      FoldedWasThere(p, steps, q, r);
    }
  }

  /** A purgeable row can be folded between any two queries. */
  lemma OneRowFoldedBetween(p: Pair, id: EventId, t: int) returns (steps: seq<Step>, q: Pair)
    requires id in p.swept.events && Purgeable(p.swept.events[id], t)
    ensures IsRun(p, steps, q) && PurgesOnly(steps, t) && forall s :: s in steps ==> !s.Write?
    ensures BatchRow(id, p.swept.events[id]) in Folded(steps)
  {
    var row := BatchRow(id, p.swept.events[id]);
    steps, q := [Fold([row])], Next(p, Fold([row]));
    OneStepRuns(p, Fold([row]));
    assert steps[1..] == [] && Folded(steps) == [row] + Folded([]);
  }

  ghost predicate FigureIsRight(p: Pair, q: Pair, c: CampaignId, rolledFirst: bool) {
    if rolledFirst then Read(p.swept, q.swept, c) == Read(q.unswept, q.unswept, c)
    else Read(q.swept, p.swept, c) == Read(p.unswept, p.unswept, c)
  }

  lemma FigureIsRightIff(p: Pair, steps: seq<Step>, q: Pair, c: CampaignId, rolledFirst: bool)
    requires Agree(p) && IsRun(p, steps, q)
    ensures FigureIsRight(p, q, c, rolledFirst) <==> NoneFolded(steps, c)
  {
    if rolledFirst {
      RolledReadFirst(p, steps, q, c);
    } else {
      LiveReadFirst(p, steps, q, c);
    }
  }

  /** However long the second query takes, and whatever batches up to that cutoff do meanwhile. */
  ghost predicate FigureStaysRight(p: Pair, c: CampaignId, t: int, rolledFirst: bool) {
    forall steps, q :: IsRun(p, steps, q) && PurgesOnly(steps, t) && WritesKept(steps, FigureRowsOf(c), t) ==>
      FigureIsRight(p, q, c, rolledFirst)
  }

  /**
   * What can be checked before asking: in either order, a campaign's figures are right whatever batches run meanwhile
   * if and only if none of its live SENT, CLICKED and FAILED rows is older than their cutoff.
   */
  lemma FigureStaysRightIff(p: Pair, c: CampaignId, t: int, rolledFirst: bool)
    requires Agree(p)
    ensures FigureStaysRight(p, c, t, rolledFirst) <==> NonePurgeable(p.swept.events, FigureRowsOf(c), t)
  {
    if NonePurgeable(p.swept.events, FigureRowsOf(c), t) {
      forall steps, q | IsRun(p, steps, q) && PurgesOnly(steps, t) && WritesKept(steps, FigureRowsOf(c), t)
        ensures FigureIsRight(p, q, c, rolledFirst)
      {
        NothingFolded(p, steps, q, FigureRowsOf(c), t);
        FigureIsRightIff(p, steps, q, c, rolledFirst);
      }
    } else {
      var i :| i in p.swept.events && IsFigureRow(p.swept.events[i], c) && Purgeable(p.swept.events[i], t);
      var steps, q := OneRowFoldedBetween(p, i, t);
      FigureIsRightIff(p, steps, q, c, rolledFirst);
    }
  }

  ghost predicate LifetimeIsRight(p: Pair, q: Pair, typ: EventType, rolledFirst: bool) {
    if rolledFirst then LifetimeRead(p.swept, q.swept, typ) == Lifetime(q.unswept, typ)
    else LifetimeRead(q.swept, p.swept, typ) == Lifetime(p.unswept, typ)
  }

  ghost predicate LifetimeStaysRight(p: Pair, typ: EventType, t: int, rolledFirst: bool) {
    forall steps, q :: IsRun(p, steps, q) && PurgesOnly(steps, t) && WritesKept(steps, OfType(typ), t) ==>
      LifetimeIsRight(p, q, typ, rolledFirst)
  }

  /** The same for a lifetime count: right exactly when no live row of the type could be purged. */
  lemma LifetimeStaysRightIff(p: Pair, typ: EventType, t: int, rolledFirst: bool)
    requires Agree(p)
    ensures LifetimeStaysRight(p, typ, t, rolledFirst) <==> NonePurgeable(p.swept.events, OfType(typ), t)
  {
    if NonePurgeable(p.swept.events, OfType(typ), t) {
      forall steps, q | IsRun(p, steps, q) && PurgesOnly(steps, t) && WritesKept(steps, OfType(typ), t)
        ensures LifetimeIsRight(p, q, typ, rolledFirst)
      {
        NothingFolded(p, steps, q, OfType(typ), t);
        LifetimeReadApart(p, steps, q, typ);
      }
    } else {
      var i :| i in p.swept.events && p.swept.events[i].typ == typ && Purgeable(p.swept.events[i], t);
      var steps, q := OneRowFoldedBetween(p, i, t);
      LifetimeReadApart(p, steps, q, typ);
    }
  }
}
