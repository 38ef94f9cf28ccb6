/**
 * Event retention changes no decision: the cap and cooldown (src/lib/cap.ts), the pacer's gates and the morning
 * backfill (src/services/pacer.ts) only look at rows the sweep (src/sweepers/eventRetention.ts) has not reached yet.
 */
module RetentionDecisions {
  import opened Prelude
  import opened Articles
  import opened Events
  import opened IstClock
  import Cap
  import PacerGate
  import PacerTick
  import Backfill
  import EventRetention

  /** The event table with the sweep running, beside the table of the same run without it. */
  datatype State = State(swept: EventTable, unswept: EventTable, campaigns: map<CampaignId, int>, clock: int)

  datatype Step =
    | Write(id: EventId, event: Event)
    | NewCampaign(campaign: CampaignId, createdAt: int)
    | Purge(ids: set<EventId>, now: int) // any part of what a sweep started at `now` deletes
    | Wait(clock: int)

  predicate Enabled(s: State, windowMs: nat, e: Step) {
    match e
    case Write(id, event) =>
      && id !in s.unswept && s.clock <= event.createdAt
      && (event.campaign.Some? ==> event.campaign.value in s.campaigns)
    case NewCampaign(c, createdAt) => c !in s.campaigns && createdAt <= s.clock
    case Purge(ids, now) =>
      now <= s.clock && ids <= Where(s.swept, EventRetention.IsPurgeable(now - windowMs))
    case Wait(clock) => s.clock <= clock
  }

  function Next(s: State, windowMs: nat, e: Step): State
    requires Enabled(s, windowMs, e)
  {
    match e
    case Write(id, event) =>
      s.(swept := s.swept[id := event], unswept := s.unswept[id := event], clock := event.createdAt)
    case NewCampaign(c, createdAt) => s.(campaigns := s.campaigns[c := createdAt])
    case Purge(ids, _) => s.(swept := s.swept - ids)
    case Wait(clock) => s.(clock := clock)
  }

  /** Rows of one millisecond are written one after another, and a sweep may start with the clock where it is. */
  lemma TimeMayStandStill(s: State, windowMs: nat, id: EventId, event: Event)
    requires id !in s.unswept && event.createdAt == s.clock && event.campaign.None?
    ensures Enabled(s, windowMs, Write(id, event)) && Enabled(s, windowMs, Wait(s.clock))
    ensures Enabled(s, windowMs, Purge({}, s.clock))
  {
  }

  /** Nothing a reader of recent rows would see is missing. */
  predicate IsGoneFor(e: Event, since: int) {
    e.typ == DISMISSED || e.createdAt < since
  }

  ghost predicate KeepsSince(swept: EventTable, unswept: EventTable, since: int) {
    && (forall i :: i in swept ==> i in unswept && swept[i] == unswept[i])
    && (forall i :: i in unswept && i !in swept ==> IsGoneFor(unswept[i], since))
  }

  ghost predicate Inv(s: State, windowMs: nat) {
    && KeepsSince(s.swept, s.unswept, s.clock - windowMs)
    && (forall c :: c in s.campaigns ==> s.campaigns[c] <= s.clock)
    && (forall i :: i in s.unswept && s.unswept[i].campaign.Some? ==>
          s.unswept[i].campaign.value in s.campaigns
          && s.campaigns[s.unswept[i].campaign.value] <= s.unswept[i].createdAt)
  }

  lemma StepKeepsInv(s: State, windowMs: nat, e: Step)
    requires Inv(s, windowMs) && Enabled(s, windowMs, e)
    ensures Inv(Next(s, windowMs, e), windowMs)
  {
  }

  ghost predicate IsRun(s: State, windowMs: nat, steps: seq<Step>, end: State)
    decreases |steps|
  {
    if steps == [] then end == s
    else Enabled(s, windowMs, steps[0]) && IsRun(Next(s, windowMs, steps[0]), windowMs, steps[1..], end)
  }

  lemma {:induction false} RunKeepsInv(s: State, windowMs: nat, steps: seq<Step>, end: State)
    requires Inv(s, windowMs) && IsRun(s, windowMs, steps, end)
    ensures Inv(end, windowMs)
    decreases |steps|
  {
    if steps != [] {
      StepKeepsInv(s, windowMs, steps[0]);
      RunKeepsInv(Next(s, windowMs, steps[0]), windowMs, steps[1..], end);
    }
  }

  /** A query whose rows are never DISMISSED and never older than `since` selects the same rows from both tables. */
  lemma SameSelection(swept: EventTable, unswept: EventTable, since: int, p: Event -> bool)
    requires KeepsSince(swept, unswept, since)
    requires forall i :: i in unswept && p(unswept[i]) ==> !IsGoneFor(unswept[i], since)
    ensures Where(swept, p) == Where(unswept, p)
  {
  }

  lemma SameFate(swept: EventTable, unswept: EventTable, since: int, cap: Option<nat>, now: int, minGapMs: int,
                 sub: SubscriberId)
    requires KeepsSince(swept, unswept, since) && since <= now - DAY_MS && since <= now - minGapMs
    ensures Cap.FateOf(swept, cap, now, minGapMs, sub) == Cap.FateOf(unswept, cap, now, minGapMs, sub)
  {
    SameSelection(swept, unswept, since, Cap.IsSentToSince(sub, StartOfTodayIST(now)));
    SameSelection(swept, unswept, since, Cap.IsSentToSince(sub, now - minGapMs));
  }

  lemma {:induction false} SameSplit(swept: EventTable, unswept: EventTable, since: int, cap: Option<nat>, now: int,
                                     minGapMs: int, fate: Cap.Fate, subs: seq<SubscriberId>)
    requires KeepsSince(swept, unswept, since) && since <= now - DAY_MS && since <= now - minGapMs
    ensures Cap.Split(swept, cap, now, minGapMs, fate, subs) == Cap.Split(unswept, cap, now, minGapMs, fate, subs)
  {
    if subs != [] {
      SameFate(swept, unswept, since, cap, now, minGapMs, subs[0]);
      SameSplit(swept, unswept, since, cap, now, minGapMs, fate, subs[1..]);
    }
  }

  lemma SameGates(swept: EventTable, unswept: EventTable, since: int, now: int, spacingMs: nat)
    requires KeepsSince(swept, unswept, since) && since <= now - DAY_MS && since <= now - spacingMs
    ensures PacerGate.SentToday(swept, now) == PacerGate.SentToday(unswept, now)
    ensures PacerGate.IsSpaced(swept, now, spacingMs) == PacerGate.IsSpaced(unswept, now, spacingMs)
  {
    var start := StartOfTodayIST(now);
    forall c | c in PacerGate.SentCampaigns(unswept, start)
      ensures c in PacerGate.SentCampaigns(swept, start)
    {
      var i :| i in unswept && PacerGate.IsSent(unswept[i]) && unswept[i].createdAt >= start
        && unswept[i].campaign.value == c;
      assert i in swept;
    }
    assert PacerGate.SentCampaigns(swept, start) == PacerGate.SentCampaigns(unswept, start);
  }

  lemma SameSentUrls(swept: EventTable, unswept: EventTable, since: int, rows: map<Id, Article>, now: int)
    requires KeepsSince(swept, unswept, since) && since <= now - DAY_MS
    ensures Backfill.SentUrlsToday(rows, swept, now) == Backfill.SentUrlsToday(rows, unswept, now)
  {
    forall a: Article
      ensures Backfill.IsUsed(a, swept, StartOfTodayIST(now)) == Backfill.IsUsed(a, unswept, StartOfTodayIST(now))
    {
      SameSelection(swept, unswept, since, Backfill.IsSentOf(a.id, StartOfTodayIST(now)));
    }
  }

  /** Clicks on yesterday's articles are all from yesterday or today. */
  lemma SameClicks(s: State, windowMs: nat, rows: seq<Article>, now: int)
    requires Inv(s, windowMs) && windowMs >= 2 * DAY_MS && s.clock <= now
    requires forall a :: a in rows ==> Backfill.IsYesterdays(a, now)
    requires forall a :: a in rows ==> a.id in s.campaigns && s.campaigns[a.id] == a.createdAt
    ensures PacerTick.Clicks(s.swept, rows) == PacerTick.Clicks(s.unswept, rows)
  {
    forall a | a in rows
      ensures Where(s.swept, Backfill.IsClickOf(a.id)) == Where(s.unswept, Backfill.IsClickOf(a.id))
    {
      SameSelection(s.swept, s.unswept, s.clock - windowMs, Backfill.IsClickOf(a.id));
    }
  }

  /**
   * After any run that interleaves new rows with sweeps and crashed sweeps, at any later time, with a window of at
   * least two days that is no shorter than the cooldown and the spacing: the cap splits the candidates as if nothing
   * had ever been swept, the pacer's gates are as open, and the backfill makes the same choice.
   */
  lemma DecisionsUnchanged(windowMs: nat, clock: int, steps: seq<Step>, s: State, now: int,
                           cap: Option<nat>, minGapMs: int, spacingMs: nat)
    requires IsRun(State(map[], map[], map[], clock), windowMs, steps, s) && s.clock <= now
    requires windowMs >= 2 * DAY_MS && windowMs >= minGapMs && windowMs >= spacingMs
    ensures forall fate, subs :: Cap.Split(s.swept, cap, now, minGapMs, fate, subs)
                              == Cap.Split(s.unswept, cap, now, minGapMs, fate, subs)
    ensures PacerGate.SentToday(s.swept, now) == PacerGate.SentToday(s.unswept, now)
    ensures PacerGate.IsSpaced(s.swept, now, spacingMs) == PacerGate.IsSpaced(s.unswept, now, spacingMs)
    ensures forall rows, yesterday :: Describes(s, rows, yesterday, now) ==>
              Choice(rows, s.swept, now, yesterday) == Choice(rows, s.unswept, now, yesterday)
  {
    RunKeepsInv(State(map[], map[], map[], clock), windowMs, steps, s);
    var since := s.clock - windowMs;
    forall fate, subs
      ensures Cap.Split(s.swept, cap, now, minGapMs, fate, subs) == Cap.Split(s.unswept, cap, now, minGapMs, fate, subs)
    {
      SameSplit(s.swept, s.unswept, since, cap, now, minGapMs, fate, subs);
    }
    SameGates(s.swept, s.unswept, since, now, spacingMs);
    forall rows, yesterday | Describes(s, rows, yesterday, now)
      ensures Choice(rows, s.swept, now, yesterday) == Choice(rows, s.unswept, now, yesterday)
    {
      SameChoice(s, windowMs, rows, yesterday, now);
    }
  }

  /** Campaign rows that go with the event table, and a read of yesterday's. */
  ghost predicate Describes(s: State, rows: map<Id, Article>, yesterday: seq<Article>, now: int) {
    && (forall id :: id in rows ==> rows[id].id == id && id in s.campaigns && s.campaigns[id] == rows[id].createdAt)
    && IsRead(yesterday, rows.Values, Backfill.Yesterdays(now))
  }

  /** What the backfill picks from a read of yesterday's rows. */
  function Choice(rows: map<Id, Article>, events: EventTable, now: int, yesterday: seq<Article>): Option<Article> {
    var unused := Filter(Backfill.IsFresh(Backfill.SentUrlsToday(rows, events, now)), yesterday);
    Backfill.Pick(unused, PacerTick.Clicks(events, unused))
  }

  lemma SameChoice(s: State, windowMs: nat, rows: map<Id, Article>, yesterday: seq<Article>, now: int)
    requires Inv(s, windowMs) && windowMs >= 2 * DAY_MS && s.clock <= now && Describes(s, rows, yesterday, now)
    ensures Choice(rows, s.swept, now, yesterday) == Choice(rows, s.unswept, now, yesterday)
  {
    SameSentUrls(s.swept, s.unswept, s.clock - windowMs, rows, now);
    var isFresh := Backfill.IsFresh(Backfill.SentUrlsToday(rows, s.swept, now));
    var unused := Filter(isFresh, yesterday);
    forall a | a in unused
      ensures Backfill.IsYesterdays(a, now) && a.id in s.campaigns && s.campaigns[a.id] == a.createdAt
    {
      FilterMember(isFresh, yesterday, a);
      assert a in rows.Values;
      assert Backfill.Yesterdays(now)(a);
    }
    SameClicks(s, windowMs, unused, now);
  }
}
