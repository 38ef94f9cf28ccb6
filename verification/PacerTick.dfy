/**
 * One pacer tick (src/services/pacer.ts), on the tables it reads and updates. A query's answer that the database may
 * order freely, the link check, the send's outcome and another actor's interference are parameters.
 */
module PacerTick {
  import opened Prelude
  import opened Campaigns
  import opened Articles
  import opened Events
  import opened IstClock
  import opened QueueOrder
  import opened PacerGate
  import Backfill

  datatype Settings = Settings(
    gate: Config, backfillEnabled: bool, morningUntil: MinuteOfDay, linkCheck: bool)

  datatype LinkCheck = Alive | Dead | CheckThrows

  /**
   * How the send loop ends: whom it recorded as reached, when, whether it failed before the row was closed as Sent, and
   * whether the row's last update lands: to Sent, to Failed after a failure, or to Expired for a dead link.
   */
  datatype Outcome = Outcome(reached: seq<SubscriberId>, at: int, throws: bool, statusLands: bool)

  /** What a tick reports. `Rejected`: it throws instead, because a dead link could not be archived. */
  datatype Reason = Sent | QuietHours | Ceiling | Spacing | Empty | DeadLink | Error | Rejected

  datatype Result = Result(
    released: Option<Queue>, campaignId: Option<Id>, reason: Reason, sentToday: nat, backfill: bool)

  /** What the tick's queries return; `cloneId` is the id a new row would get. */
  datatype Reads = Reads(
    lastSent: Option<int>, todayQ: seq<Article>, yesterday: seq<Article>, qualified: seq<Article>,
    fallback: Option<Article>, cloneId: Id)

  /** `findFirst` of the SENT rows, latest first. */
  ghost predicate IsLastSent(events: EventTable, last: Option<int>) {
    match last
    case None => forall id :: id in events ==> !IsSent(events[id])
    case Some(t) =>
      && (exists id :: id in events && IsSent(events[id]) && events[id].createdAt == t)
      && (forall id :: id in events && IsSent(events[id]) ==> events[id].createdAt <= t)
  }

  ghost predicate ReadsOk(rows: map<Id, Article>, events: EventTable, now: int, r: Reads) {
    && IsLastSent(events, r.lastSent)
    && IsRead(r.todayQ, rows.Values, PendingSince(StartOfTodayIST(now)))
    && IsRead(r.yesterday, rows.Values, Backfill.Yesterdays(now))
    && IsRead(r.qualified, rows.Values, PendingIn(Qualified))
    && IsNewest(r.fallback, rows.Values, PendingIn(Fallback))
    && r.cloneId !in rows
  }

  /** Comparing with the latest delivery decides the spacing to all of them. */
  lemma LastDecidesSpacing(events: EventTable, last: Option<int>, now: int, spacingMs: nat)
    requires IsLastSent(events, last)
    ensures IsSpaced(events, now, spacingMs) <==> !(last.Some? && now - last.value < spacingMs)
  {
  }

  function Clicks(events: EventTable, rows: seq<Article>): map<Id, nat> {
    map a | a in rows && Where(events, Backfill.IsClickOf(a.id)) != {} ::
      a.id := |Where(events, Backfill.IsClickOf(a.id))|
  }

  /** The morning backfill decides the slot: it is on, today has nothing qualified, and a usable URL is left. */
  predicate BackfillApplies(rows: map<Id, Article>, events: EventTable, now: int, cfg: Settings) {
    cfg.backfillEnabled && IsBeforeIST(now, cfg.morningUntil) && !Backfill.TodayHasQualified(rows, now)
    && Backfill.UsableUrls(rows, events, now) != {}
  }

  /** In plain words: before the hour, nothing qualified captured today, and something of yesterday's is free. */
  ghost predicate BackfillIsDue(rows: map<Id, Article>, events: EventTable, now: int, cfg: Settings) {
    && cfg.backfillEnabled && IstMinutesOfDay(now) < cfg.morningUntil
    && (forall i :: i in rows && rows[i].queue == Qualified ==> IstDay(rows[i].createdAt) < IstDay(now))
    && exists i :: i in rows && Backfill.IsFree(rows, events, rows[i], now)
  }

  lemma AppliesWhenDue(rows: map<Id, Article>, events: EventTable, now: int, cfg: Settings)
    requires forall i :: i in rows ==> rows[i].id == i
    ensures BackfillApplies(rows, events, now, cfg) <==> BackfillIsDue(rows, events, now, cfg)
  {
    forall i | i in rows
      ensures IstDay(rows[i].createdAt) < IstDay(now) <==> rows[i].createdAt < StartOfTodayIST(now)
    {
      SameDayIff(rows[i].createdAt, now);
    }
    forall i | i in rows
      ensures Backfill.IsFree(rows, events, rows[i], now) <==>
                Backfill.IsYesterdays(rows[i], now) && rows[i].url !in Backfill.SentUrlsToday(rows, events, now)
    {
      Backfill.CandidateMeans(rows[i], now);
      Backfill.UsedMeans(rows, events, rows[i].url, now);
    }
    if u :| u in Backfill.UsableUrls(rows, events, now) {
      var i :| i in rows && Backfill.IsYesterdays(rows[i], now) && rows[i].url == u;
      assert Backfill.IsFree(rows, events, rows[i], now);
    }
    if i :| i in rows && Backfill.IsFree(rows, events, rows[i], now) {
      assert rows[i].url in Backfill.UsableUrls(rows, events, now);
    }
  }

  /** No pending row may go out before it. */
  ghost predicate IsHead(rows: map<Id, Article>, id: Id)
    requires id in rows
  {
    forall i :: i in rows && rows[i].status == Draft && rows[i].queue in {Qualified, Fallback} ==>
      MayPrecede(rows[id], rows[i])
  }

  lemma PickIsHead(rows: map<Id, Article>, now: int, id: Id)
    requires id in rows && CanPick(rows.Values, now, Some(rows[id]))
    ensures IsHead(rows, id)
  {
    forall i | i in rows && rows[i].status == Draft && rows[i].queue in {Qualified, Fallback}
      ensures MayPrecede(rows[id], rows[i])
    {
      assert rows[i] in rows.Values;
      PickIsBest(rows.Values, now, rows[id], rows[i]);
    }
  }

  /** `more` adds to `events` only rows of campaign `id` at `at`. */
  ghost predicate OnlyDeliveriesOf(events: EventTable, more: EventTable, id: Id, at: int) {
    forall i :: i in more ==>
      if i in events then more[i] == events[i]
      else IsSent(more[i]) && more[i].campaign == Some(id) && more[i].createdAt == at
  }

  /** What a tick may do to the rows: add at most a copy, and take at most one draft, to be closed or left claimed. */
  ghost predicate OnlyTakes(rows: map<Id, Article>, rows': map<Id, Article>, id: Option<Id>, now: int) {
    && rows.Keys <= rows'.Keys
    && (forall i :: i in rows' && Some(i) != id ==> i in rows && rows'[i] == rows[i])
    && (id.Some? ==>
          && id.value in rows' && rows'[id.value].claimedAt == Some(now)
          && rows'[id.value].status in {Status.Sent, Failed, Expired, Scheduled}
          && (id.value in rows ==> rows[id.value].status == Draft && rows'[id.value].url == rows[id.value].url))
  }

  /** A tick whose pick another actor takes first: at most a copy is added, and at most one draft is theirs now. */
  ghost predicate OnlyLoses(rows: map<Id, Article>, rows': map<Id, Article>) {
    || rows' == rows
    || exists id :: id in rows' && rows' == rows[id := rows'[id]] && rows'[id].status == Scheduled
                    && (id in rows ==> rows[id].status == Draft && rows'[id] == rows[id].(status := Scheduled))
  }

  /** What a tick reports once it has claimed a row. */
  function ReasonOf(cfg: Settings, link: LinkCheck, outcome: Outcome): Reason {
    if cfg.linkCheck && link.Dead? then if outcome.statusLands then DeadLink else Rejected
    else if outcome.throws || !outcome.statusLands then Error
    else Reason.Sent
  }

  /** How a claimed row ends, by what the tick reports. A last update that fails leaves it claimed, for recovery. */
  function Closed(reason: Reason, statusLands: bool): Status {
    if !statusLands then Scheduled
    else
      match reason
      case DeadLink => Expired
      case Error => Failed
      case _ => Status.Sent
  }

  /** Which gate is shut, if any: quiet hours, then the ceiling, then the spacing to every delivery so far. */
  ghost function GateOf(events: EventTable, now: int, gate: Config): Option<Reason> {
    if IsQuietHours(now, gate.quietStart, gate.quietEnd) then Some(QuietHours)
    else if SentToday(events, now) >= gate.ceiling then Some(Ceiling)
    else if !IsSpaced(events, now, gate.spacingMs) then Some(Spacing)
    else None
  }

  /** Which row was taken: the head of the queue order, or a draft with a usable URL of yesterday's. */
  ghost predicate IsRightPick(rows: map<Id, Article>, events: EventTable, rows': map<Id, Article>, id: Id,
                              backfill: bool, now: int, cfg: Settings)
    requires id in rows'
  {
    if backfill then
      && BackfillIsDue(rows, events, now, cfg) && rows'[id].url in Backfill.UsableUrls(rows, events, now)
      && exists o :: o in rows && Backfill.IsBestFree(rows, events, now, o) && rows'[id].url == rows[o].url
                     && (rows[o].status == Draft ==> id == o)
    else id in rows && CanPick(rows.Values, now, Some(rows[id])) && IsHead(rows, id)
  }

  /** `id` is the best free article of yesterday itself, still unsent, or a draft copy of one that was sent. */
  ghost predicate IsFilling(rows: map<Id, Article>, events: EventTable, rows': map<Id, Article>, id: Id, now: int) {
    && id in rows'
    && exists o :: o in rows && Backfill.IsBestFree(rows, events, now, o)
                   && if rows[o].status == Draft then id == o
                      else rows'[id] == rows[o].(id := id, status := Draft, claimedAt := None)
  }

  /** What a tick with open gates does to the tables, and says. */
  ghost predicate TickEffect(rows: map<Id, Article>, events: EventTable, rows': map<Id, Article>, events': EventTable,
                             result: Result, now: int, cfg: Settings, stolen: bool, link: LinkCheck, outcome: Outcome)
  {
    if result.reason.Empty? then
      && events' == events && result.campaignId.None? && result.released.None? && !result.backfill
      && if stolen then OnlyLoses(rows, rows')
         else rows' == rows && CanPick(rows.Values, now, None) && !BackfillApplies(rows, events, now, cfg)
    else
      && !stolen
      && result.reason == ReasonOf(cfg, link, outcome)
      && result.campaignId.Some? && OnlyTakes(rows, rows', result.campaignId, now)
      && IsRightPick(rows, events, rows', result.campaignId.value, result.backfill, now, cfg)
      && rows'[result.campaignId.value].status == Closed(result.reason, outcome.statusLands)
      && result.released == (if result.reason.Sent? then Some(rows'[result.campaignId.value].queue) else None)
      && (if result.reason.DeadLink? || result.reason.Rejected? then events' == events
          else |events'| == |events| + |outcome.reached|)
      && events.Keys <= events'.Keys && OnlyDeliveriesOf(events, events', result.campaignId.value, outcome.at)
  }

  /** Adding at most the picked draft, then closing it, is taking one row. */
  lemma TakesOne(rows: map<Id, Article>, mid: map<Id, Article>, rows': map<Id, Article>, id: Id, now: int,
                 reason: Reason, lands: bool)
    requires id in mid && mid[id].status == Draft && mid == rows[id := mid[id]] && (id in rows ==> mid == rows)
    requires reason.Sent? || reason.Error? || reason.DeadLink? || (reason.Rejected? && !lands)
    requires rows' == mid[id := mid[id].(status := Closed(reason, lands), claimedAt := Some(now))]
    ensures OnlyTakes(rows, rows', Some(id), now) && rows'[id].url == mid[id].url
    ensures rows'[id].status == Closed(reason, lands)
  {
  }

  lemma LosesOne(rows: map<Id, Article>, mid: map<Id, Article>, rows': map<Id, Article>, id: Id)
    requires id in mid && mid[id].status == Draft && mid == rows[id := mid[id]] && (id in rows ==> mid == rows)
    requires rows' == mid[id := mid[id].(status := Scheduled)]
    ensures OnlyLoses(rows, rows')
  {
    assert rows' == rows[id := rows'[id]];
  }

  class PacerDb {
    var rows: map<Id, Article>
    var events: EventTable
    var nextEvent: EventId

    ghost predicate Valid()
      reads this
    {
      && (forall id :: id in rows ==> rows[id].id == id)
      && (forall id :: id in events ==> id < nextEvent)
    }

    constructor ()
      ensures Valid() && rows == map[] && events == map[]
    {
      rows, events, nextEvent := map[], map[], 0;
    }

    /** A draft copy of an already-sent row, beside it. */
    method CloneForResend(c: Article, id: Id)
      requires Valid() && id !in rows
      modifies this`rows
      ensures Valid() && rows == old(rows)[id := Backfill.Clone(c, id)]
    {
      rows := rows[id := Backfill.Clone(c, id)];
    }

    /**
     * A draft with a usable URL of yesterday's — the article itself, or a new copy of an already-sent one — or none
     * when no usable URL is left. Existing rows are untouched.
     */
    method BackfillSelect(now: int, r: Reads) returns (pick: Option<Id>)
      requires Valid() && ReadsOk(rows, events, now, r)
      modifies this`rows
      ensures Valid()
      ensures pick.None? <==> Backfill.UsableUrls(old(rows), events, now) == {}
      ensures pick.None? ==> rows == old(rows)
      ensures pick.Some? ==> pick.value in rows && rows[pick.value].status == Draft
                             && rows[pick.value].url in Backfill.UsableUrls(old(rows), events, now)
      ensures pick.Some? ==> rows == old(rows)[pick.value := rows[pick.value]]
                             && (pick.value in old(rows) ==> rows == old(rows))
                             && (pick.value !in old(rows) ==> pick.value == r.cloneId)
      ensures pick.None? <==> forall i :: i in old(rows) ==> !Backfill.IsFree(old(rows), events, old(rows)[i], now)
      ensures pick.Some? ==> IsFilling(old(rows), events, rows, pick.value, now)
    {
      var sentUrlsToday := Backfill.SentUrlsToday(rows, events, now);
      var unused := Filter(Backfill.IsFresh(sentUrlsToday), r.yesterday);
      var chosen := Backfill.Pick(unused, Clicks(events, unused));
      ClicksAreRight(events, unused);
      Backfill.FillsPlainly(rows, events, now, r.yesterday, Clicks(events, unused));
      Backfill.PicksWhileUsable(rows, events, now, r.yesterday, Clicks(events, unused));
      if chosen.None? {
        return None;
      }
      var c := chosen.value;
      PickedIsRow(rows, events, now, r, chosen);
      assert Backfill.IsBestFree(rows, events, now, c.id);
      if c.status == Draft {
        return Some(c.id);
      }
      CloneForResend(c, r.cloneId);
      return Some(r.cloneId);
    }

    /** Today's qualified, else the morning backfill, else the normal carry-over. */
    method SelectNext(now: int, cfg: Settings, r: Reads) returns (pick: Option<Id>, viaBackfill: bool)
      requires Valid() && ReadsOk(rows, events, now, r)
      modifies this`rows
      ensures Valid()
      ensures pick.Some? ==> pick.value in rows && rows[pick.value].status == Draft
                             && rows == old(rows)[pick.value := rows[pick.value]]
      ensures pick.None? ==> rows == old(rows)
      ensures pick.Some? && pick.value in old(rows) ==> rows == old(rows)
      ensures !viaBackfill ==> rows == old(rows)
      ensures !viaBackfill ==> CanPick(rows.Values, now, if pick.None? then None else Some(rows[pick.value]))
      ensures viaBackfill <==> BackfillApplies(old(rows), events, now, cfg)
      ensures viaBackfill <==> BackfillIsDue(old(rows), events, now, cfg)
      ensures viaBackfill ==> pick.Some? && IsFilling(old(rows), events, rows, pick.value, now)
      ensures !viaBackfill && pick.Some? ==> IsHead(rows, pick.value)
      ensures viaBackfill ==> pick.Some? && rows[pick.value].url in Backfill.UsableUrls(old(rows), events, now)
    {
      viaBackfill := false;
      AppliesWhenDue(rows, events, now, cfg);
      if r.todayQ != [] {
        var first := StableSort.Sort(RankQualified, r.todayQ)[0];
        SortHeadIsLeast(r.todayQ);
        assert first in r.todayQ && first in rows.Values;
        assert SelectNormal(r.todayQ, r.qualified, r.fallback) == Some(first);
        PickIsHead(rows, now, first.id);
        return Some(first.id), false;
      }
      if cfg.backfillEnabled && IsBeforeIST(now, cfg.morningUntil) && !Backfill.TodayHasQualified(rows, now) {
        pick := BackfillSelect(now, r);
        if pick.Some? {
          return pick, true;
        }
      }
      pick := SelectCarryOver(now, r);
    }

    /** Any pending qualified article, else the newest fallback one. */
    method SelectCarryOver(now: int, r: Reads) returns (pick: Option<Id>)
      requires Valid() && ReadsOk(rows, events, now, r) && r.todayQ == []
      ensures pick.Some? ==> pick.value in rows && rows[pick.value].status == Draft && IsHead(rows, pick.value)
      ensures CanPick(rows.Values, now, if pick.None? then None else Some(rows[pick.value]))
    {
      var next := SelectNormal(r.todayQ, r.qualified, r.fallback);
      if next.None? {
        return None;
      }
      if r.qualified != [] {
        SortHeadIsLeast(r.qualified);
        assert next.value in r.qualified;
      }
      assert next.value in rows.Values;
      PickIsHead(rows, now, next.value.id);
      return Some(next.value.id);
    }

    /** The send loop, seen from the tables: SENT rows of this campaign, and the row's last update, if it lands. */
    method ExecuteCampaign(id: Id, outcome: Outcome) returns (throws: bool)
      requires Valid() && id in rows
      modifies this
      ensures Valid()
      ensures throws == (outcome.throws || !outcome.statusLands)
      ensures rows == if !outcome.statusLands then old(rows)
                      else old(rows)[id := old(rows)[id].(status := if outcome.throws then Failed else Status.Sent)]
      ensures old(events).Keys <= events.Keys && OnlyDeliveriesOf(old(events), events, id, outcome.at)
      ensures |events| == |old(events)| + |outcome.reached|
    {
      for n := 0 to |outcome.reached|
        invariant Valid() && rows == old(rows)
        invariant old(events).Keys <= events.Keys && OnlyDeliveriesOf(old(events), events, id, outcome.at)
        invariant |events| == |old(events)| + n
      {
        events := events[nextEvent := Event(SENT, Some(id), Some(outcome.reached[n]), outcome.at)];
        nextEvent := nextEvent + 1;
      }
      if outcome.statusLands {
        rows := rows[id := rows[id].(status := if outcome.throws then Failed else Status.Sent)];
      }
      throws := outcome.throws || !outcome.statusLands;
    }

    /** The claim: only a row that is still a draft is taken. */
    method Claim(id: Id, now: int) returns (count: nat)
      requires Valid() && id in rows
      modifies this`rows
      ensures Valid()
      ensures count == if old(rows)[id].status == Draft then 1 else 0
      ensures rows == if count == 1
                      then old(rows)[id := old(rows)[id].(status := Scheduled, claimedAt := Some(now))] else old(rows)
    {
      if rows[id].status == Draft {
        rows := rows[id := rows[id].(status := Scheduled, claimedAt := Some(now))];
        return 1;
      }
      return 0;
    }

    /** After the claim: an article the site no longer has is archived, any other is sent; else it stays claimed. */
    method CheckAndSend(id: Id, cfg: Settings, link: LinkCheck, outcome: Outcome) returns (reason: Reason)
      requires Valid() && id in rows && rows[id].status == Scheduled
      modifies this
      ensures Valid()
      ensures reason == ReasonOf(cfg, link, outcome)
      ensures id in rows
      ensures if cfg.linkCheck && link.Dead? then
                if outcome.statusLands then reason == DeadLink && rows[id].status == Expired
                else reason == Rejected && rows[id].status == Scheduled
              else if !outcome.statusLands then reason == Error && rows[id].status == Scheduled
              else if outcome.throws then reason == Error && rows[id].status == Failed
              else reason == Reason.Sent && rows[id].status == Status.Sent
      ensures reason.DeadLink? || reason.Rejected? ==> events == old(events)
      ensures old(events).Keys <= events.Keys && OnlyDeliveriesOf(old(events), events, id, outcome.at)
      ensures reason.Sent? || reason.Error? ==> |events| == |old(events)| + |outcome.reached|
      ensures rows == old(rows)[id := old(rows)[id].(status := Closed(reason, outcome.statusLands))]
    {
      if cfg.linkCheck && link.Dead? {
        if !outcome.statusLands {
          return Rejected;
        }
        rows := rows[id := rows[id].(status := Expired)];
        return DeadLink;
      }
      var throws := ExecuteCampaign(id, outcome);
      return if throws then Error else Reason.Sent;
    }

    /** The three gates, in the order the tick consults them. */
    method Gate(now: int, cfg: Settings, lastSent: Option<int>) returns (stop: Option<Reason>, sentToday: nat)
      requires IsLastSent(events, lastSent)
      ensures sentToday == SentToday(events, now)
      ensures stop == GateOf(events, now, cfg.gate)
      ensures stop == Some(QuietHours) <==> IsQuietHours(now, cfg.gate.quietStart, cfg.gate.quietEnd)
      ensures stop == Some(Ceiling) <==>
                stop != Some(QuietHours) && cfg.gate.ceiling <= |CampaignsOn(events, IstDay(now))|
      ensures stop == Some(Spacing) <==>
                && stop != Some(QuietHours) && stop != Some(Ceiling)
                && exists i :: i in events && events[i].typ == SENT && events[i].campaign.Some?
                               && now < events[i].createdAt + cfg.gate.spacingMs
      ensures stop.Some? ==> stop.value in {QuietHours, Ceiling, Spacing}
    {
      GatesPlainly(events, now);
      sentToday := SentToday(events, now);
      LastDecidesSpacing(events, lastSent, now, cfg.gate.spacingMs);
      if IsQuietHours(now, cfg.gate.quietStart, cfg.gate.quietEnd) {
        return Some(QuietHours), sentToday;
      }
      if sentToday >= cfg.gate.ceiling {
        return Some(Ceiling), sentToday;
      }
      if lastSent.Some? && now - lastSent.value < cfg.gate.spacingMs {
        return Some(Spacing), sentToday;
      }
      return None, sentToday;
    }

    /** Claim, link check and send for the picked draft; with `stolen`, another actor takes it just before the claim. */
    method ClaimAndSend(id: Id, now: int, cfg: Settings, stolen: bool, link: LinkCheck, outcome: Outcome)
      returns (reason: Reason)
      requires Valid() && id in rows && rows[id].status == Draft
      modifies this
      ensures Valid()
      ensures reason == if stolen then Empty else ReasonOf(cfg, link, outcome)
      ensures old(events).Keys <= events.Keys && OnlyDeliveriesOf(old(events), events, id, outcome.at)
      ensures reason.Empty? || reason.DeadLink? || reason.Rejected? ==> events == old(events)
      ensures reason.Sent? || reason.Error? ==> |events| == |old(events)| + |outcome.reached|
      ensures rows == old(rows)[id :=
                if stolen then old(rows)[id].(status := Scheduled)
                else old(rows)[id].(status := Closed(reason, outcome.statusLands), claimedAt := Some(now))]
    {
      if stolen {
        rows := rows[id := rows[id].(status := Scheduled)];
      }
      var count := Claim(id, now);
      if count == 0 {
        return Empty;
      }
      reason := CheckAndSend(id, cfg, link, outcome);
    }

    /** The second half of a tick: `rows` are `was`, and maybe the picked draft as a new copy. */
    method SendPicked(id: Id, viaBackfill: bool, now: int, cfg: Settings, sentToday: nat, stolen: bool, link: LinkCheck,
                      outcome: Outcome, ghost was: map<Id, Article>)
      returns (result: Result)
      requires Valid() && id in rows && rows[id].status == Draft && rows == was[id := rows[id]]
      requires (id in was ==> rows == was) && IsRightPick(was, events, rows, id, viaBackfill, now, cfg)
      modifies this
      ensures Valid() && result.sentToday == sentToday
      ensures TickEffect(was, old(events), rows, events, result, now, cfg, stolen, link, outcome)
    {
      ghost var mid := rows;
      var reason := ClaimAndSend(id, now, cfg, stolen, link, outcome);
      if reason.Empty? {
        LosesOne(was, mid, rows, id);
        return Result(None, None, Empty, sentToday, false);
      }
      TakesOne(was, mid, rows, id, now, reason, outcome.statusLands);
      var released := if reason.Sent? then Some(rows[id].queue) else None;
      result := Result(released, Some(id), reason, sentToday, viaBackfill);
    }

    /** A tick whose gates are open: pick, claim, send. */
    method Release(now: int, cfg: Settings, r: Reads, sentToday: nat, stolen: bool, link: LinkCheck, outcome: Outcome)
      returns (result: Result)
      requires Valid() && ReadsOk(rows, events, now, r)
      modifies this
      ensures Valid() && result.sentToday == sentToday
      ensures TickEffect(old(rows), old(events), rows, events, result, now, cfg, stolen, link, outcome)
    {
      ghost var was := rows;
      var pick, viaBackfill := SelectNext(now, cfg, r);
      if pick.None? {
        return Result(None, None, Empty, sentToday, false);
      }
      result := SendPicked(pick.value, viaBackfill, now, cfg, sentToday, stolen, link, outcome, was);
    }

    /**
     * One tick. Nothing happens unless all three gates are open. Then at most one draft is taken — the one the queue
     * order or the backfill names — and only its deliveries are recorded; every other row stays as it was. With
     * `stolen`, another actor takes the picked row just before the claim, and the tick sends nothing.
     */
    method RunPacerTick(now: int, cfg: Settings, r: Reads, stolen: bool, link: LinkCheck, outcome: Outcome)
      returns (result: Result)
      requires Valid() && ReadsOk(rows, events, now, r)
      modifies this
      ensures Valid() && result.sentToday == SentToday(old(events), now)
      ensures GateOf(old(events), now, cfg.gate).Some? ==>
                && result == Result(None, None, GateOf(old(events), now, cfg.gate).value, result.sentToday, false)
                && rows == old(rows) && events == old(events)
      ensures GateOf(old(events), now, cfg.gate).None? ==>
                TickEffect(old(rows), old(events), rows, events, result, now, cfg, stolen, link, outcome)
    {
      var stop, sentToday := Gate(now, cfg, r.lastSent);
      if stop.Some? {
        return Result(None, None, stop.value, sentToday, false);
      }
      result := Release(now, cfg, r, sentToday, stolen, link, outcome);
    }
  }

  /** The campaigns with a SENT row on or after an IST day. */
  function CampaignsOn(events: EventTable, day: int): set<CampaignId> {
    set i | i in events && events[i].typ == SENT && events[i].campaign.Some? && day <= IstDay(events[i].createdAt) ::
      events[i].campaign.value
  }

  lemma GatesPlainly(events: EventTable, now: int)
    ensures SentToday(events, now) == |CampaignsOn(events, IstDay(now))|
  {
    forall i | i in events
      ensures IstDay(events[i].createdAt) >= IstDay(now) <==> events[i].createdAt >= StartOfTodayIST(now)
    {
      SameDayIff(events[i].createdAt, now);
    }
    assert SentCampaigns(events, StartOfTodayIST(now)) == CampaignsOn(events, IstDay(now));
  }

  lemma ClicksAreRight(events: EventTable, unused: seq<Article>)
    ensures Backfill.AreClicks(events, unused, Clicks(events, unused))
  {
    forall a | a in unused
      ensures Backfill.Clk(Clicks(events, unused), a) == Backfill.ClicksOf(events, a.id)
    {
      assert Where(events, Backfill.IsClickOf(a.id))
          == set e | e in events && events[e].typ == CLICKED && events[e].campaign == Some(a.id);
    }
  }

  lemma PickedIsRow(rows: map<Id, Article>, events: EventTable, now: int, r: Reads, chosen: Option<Article>)
    requires forall id :: id in rows ==> rows[id].id == id
    requires ReadsOk(rows, events, now, r) && chosen.Some?
    requires var unused := Filter(Backfill.IsFresh(Backfill.SentUrlsToday(rows, events, now)), r.yesterday);
             chosen == Backfill.Pick(unused, Clicks(events, unused))
    ensures chosen.value.id in rows && rows[chosen.value.id] == chosen.value
  {
    var unused := Filter(Backfill.IsFresh(Backfill.SentUrlsToday(rows, events, now)), r.yesterday);
    Backfill.NothingBetterPassedOver(unused, Clicks(events, unused));
    FilterMember(Backfill.IsFresh(Backfill.SentUrlsToday(rows, events, now)), r.yesterday, chosen.value);
    assert chosen.value in rows.Values;
  }
}
