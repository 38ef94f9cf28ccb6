/**
 * The pacer's volume control (src/services/pacer.ts): quiet hours, a daily ceiling and spacing, checked by two reads of
 * the event table at the start of a tick and never again while its send runs. Ticks are serial; manual sends record
 * deliveries at any moment, and a send may run past midnight or crash.
 */
module PacerGate {
  import opened Prelude
  import opened Events
  import opened IstClock

  datatype Config = Config(spacingMs: nat, ceiling: nat, quietStart: MinuteOfDay, quietEnd: MinuteOfDay)

  /** The campaigns with a SENT row at or after `since`. */
  function SentCampaigns(events: EventTable, since: int): set<CampaignId> {
    set id | id in events && IsSent(events[id]) && events[id].createdAt >= since :: events[id].campaign.value
  }

  predicate IsSent(e: Event) {
    e.typ == SENT && e.campaign.Some?
  }

  function SentToday(events: EventTable, now: int): nat {
    |SentCampaigns(events, StartOfTodayIST(now))|
  }

  /** No SENT row younger than the spacing: what comparing with the latest one decides. */
  predicate IsSpaced(events: EventTable, now: int, spacingMs: nat) {
    forall id :: id in events && IsSent(events[id]) ==> now - events[id].createdAt >= spacingMs
  }

  // ----- ticks among manual sends -----

  /** An automated release: the tick's clock and the campaign it claimed. */
  datatype Release = Release(campaign: CampaignId, now: int)

  datatype Tick =
    | NoTick
    | Started(now: int)
    | Counted(now: int)
    | Gated(now: int)
    | Releasing(now: int, campaign: CampaignId)

  datatype State = State(events: EventTable, clock: int, tick: Tick, releases: seq<Release>)

  datatype Step =
    | StartTick(now: int)
    | ReadCount
    | ReadLast
    | Claim(campaign: CampaignId)
    | Deliver(id: EventId, subscriber: SubscriberId, at: int)
    | EndTick // finished, nothing to send, or crashed
    | ManualDeliver(id: EventId, campaign: CampaignId, subscriber: SubscriberId, at: int)
    | OtherEvent(id: EventId, event: Event)

  function Released(releases: seq<Release>): set<CampaignId> {
    set r | r in releases :: r.campaign
  }

  /** A campaign row is executed at most once, so a released campaign has no row yet and manual sends use others. */
  predicate Enabled(s: State, e: Step) {
    match e
    case StartTick(now) => s.tick.NoTick? && s.clock <= now
    case ReadCount => s.tick.Started?
    case ReadLast => s.tick.Counted?
    case Claim(c) =>
      s.tick.Gated? && c !in Released(s.releases) && forall id :: id in s.events ==> s.events[id].campaign != Some(c)
    case Deliver(id, _, at) => s.tick.Releasing? && id !in s.events && s.clock <= at
    case EndTick => true
    case ManualDeliver(id, c, _, at) => c !in Released(s.releases) && id !in s.events && s.clock <= at
    case OtherEvent(id, event) => event.typ != SENT && id !in s.events && s.clock <= event.createdAt
  }

  function Next(cfg: Config, s: State, e: Step): State
    requires Enabled(s, e)
  {
    match e
    case StartTick(now) => s.(tick := Started(now), clock := now)
    case ReadCount =>
      var now := s.tick.now;
      s.(tick := if IsQuietHours(now, cfg.quietStart, cfg.quietEnd) || SentToday(s.events, now) >= cfg.ceiling
                 then NoTick else Counted(now))
    case ReadLast =>
      s.(tick := if IsSpaced(s.events, s.tick.now, cfg.spacingMs) then Gated(s.tick.now) else NoTick)
    case Claim(c) =>
      s.(tick := Releasing(s.tick.now, c), releases := s.releases + [Release(c, s.tick.now)])
    case Deliver(id, subscriber, at) =>
      s.(events := s.events[id := Event(SENT, Some(s.tick.campaign), Some(subscriber), at)], clock := at)
    case EndTick => s.(tick := NoTick)
    case ManualDeliver(id, c, subscriber, at) =>
      s.(events := s.events[id := Event(SENT, Some(c), Some(subscriber), at)], clock := at)
    case OtherEvent(id, event) => s.(events := s.events[id := event], clock := event.createdAt)
  }

  // ----- the invariant -----

  /** Released campaigns with a SENT row at or after `since`. */
  function AutoSince(s: State, since: int): set<CampaignId> {
    SentCampaigns(s.events, since) * Released(s.releases)
  }

  function SentOn(events: EventTable, day: int): set<CampaignId> {
    set id | id in events && IsSent(events[id]) && IstDay(events[id].createdAt) == day :: events[id].campaign.value
  }

  /** Released campaigns that recorded a delivery on an IST day. */
  function AutoOn(s: State, day: int): set<CampaignId> {
    SentOn(s.events, day) * Released(s.releases)
  }

  ghost predicate SpacedBefore(events: EventTable, now: int, spacingMs: nat) {
    forall id :: id in events && IsSent(events[id]) && events[id].createdAt < now ==>
      now - events[id].createdAt >= spacingMs
  }

  ghost predicate ClockOk(s: State) {
    && (forall id :: id in s.events ==> s.events[id].createdAt <= s.clock)
    && (forall r :: r in s.releases ==> r.now <= s.clock)
    && (!s.tick.NoTick? ==> s.tick.now <= s.clock)
  }

  ghost predicate ReleasesOk(cfg: Config, s: State) {
    forall r :: r in s.releases ==>
      !IsQuietHours(r.now, cfg.quietStart, cfg.quietEnd) && SpacedBefore(s.events, r.now, cfg.spacingMs)
  }

  ghost predicate CeilingOk(cfg: Config, s: State) {
    forall day :: |AutoOn(s, day)| <= cfg.ceiling
  }

  ghost predicate TickOk(cfg: Config, s: State) {
    match s.tick
    case NoTick => true
    case Started(_) => true
    case Counted(now) =>
      !IsQuietHours(now, cfg.quietStart, cfg.quietEnd) && |AutoSince(s, StartOfTodayIST(now))| < cfg.ceiling
    case Gated(now) =>
      && !IsQuietHours(now, cfg.quietStart, cfg.quietEnd) && |AutoSince(s, StartOfTodayIST(now))| < cfg.ceiling
      && SpacedBefore(s.events, now, cfg.spacingMs)
    case Releasing(now, c) =>
      c in Released(s.releases) && |AutoSince(s, StartOfTodayIST(now)) - {c}| < cfg.ceiling
  }

  ghost predicate Inv(cfg: Config, s: State) {
    ClockOk(s) && ReleasesOk(cfg, s) && CeilingOk(cfg, s) && TickOk(cfg, s)
  }

  /** A row that is not a release's changes nobody's counts. */
  lemma ForeignRow(s: State, n: State, id: EventId, e: Event)
    requires id !in s.events && n.events == s.events[id := e] && n.releases == s.releases
    requires IsSent(e) ==> e.campaign.value !in Released(s.releases)
    ensures forall since :: AutoSince(n, since) == AutoSince(s, since)
    ensures forall day :: AutoOn(n, day) == AutoOn(s, day)
  {
    forall since
      ensures AutoSince(n, since) == AutoSince(s, since)
    {
      SentCampaignsInsert(s.events, id, e, since);
    }
    forall day
      ensures AutoOn(n, day) == AutoOn(s, day)
    {
      SentOnInsert(s.events, id, e, day);
    }
  }

  lemma SentCampaignsInsert(events: EventTable, id: EventId, e: Event, since: int)
    requires id !in events
    ensures SentCampaigns(events[id := e], since)
         == SentCampaigns(events, since) + (if IsSent(e) && e.createdAt >= since then {e.campaign.value} else {})
  {
    var more := events[id := e];
    forall i | i in events
      ensures more[i] == events[i]
    {
    }
    forall c | c in SentCampaigns(events, since)
      ensures c in SentCampaigns(more, since)
    {
      var i :| i in events && IsSent(events[i]) && events[i].createdAt >= since && events[i].campaign.value == c;
      assert i in more && IsSent(more[i]);
    }
    assert more[id] == e;
  }

  lemma SentOnInsert(events: EventTable, id: EventId, e: Event, day: int)
    requires id !in events
    ensures SentOn(events[id := e], day)
         == SentOn(events, day) + (if IsSent(e) && IstDay(e.createdAt) == day then {e.campaign.value} else {})
  {
    var more := events[id := e];
    forall c | c in SentOn(events, day)
      ensures c in SentOn(more, day)
    {
      var i :| i in events && IsSent(events[i]) && IstDay(events[i].createdAt) == day && events[i].campaign.value == c;
      assert i in more && IsSent(more[i]);
    }
    assert more[id] == e;
  }

  lemma DeliverOnDay(cfg: Config, s: State, e: Step, day: int)
    requires CeilingOk(cfg, s) && TickOk(cfg, s) && ClockOk(s) && e.Deliver? && Enabled(s, e)
    ensures |AutoOn(Next(cfg, s, e), day)| <= cfg.ceiling
  {
    var n, now, c := Next(cfg, s, e), s.tick.now, s.tick.campaign;
    SentOnInsert(s.events, e.id, n.events[e.id], day);
    assert |AutoOn(s, day)| <= cfg.ceiling;
    if day == IstDay(e.at) {
      SameDayIff(now, e.at);
      OnDayIsSince(s, day, now);
      var others := AutoSince(s, StartOfTodayIST(now)) - {c};
      SmallerSet(AutoOn(n, day), others + {c});
    } else {
      assert AutoOn(n, day) == AutoOn(s, day);
    }
  }

  lemma DeliverKeepsTick(cfg: Config, s: State, e: Step)
    requires TickOk(cfg, s) && e.Deliver? && Enabled(s, e)
    ensures TickOk(cfg, Next(cfg, s, e))
  {
    var n, since, c := Next(cfg, s, e), StartOfTodayIST(s.tick.now), s.tick.campaign;
    SentCampaignsInsert(s.events, e.id, n.events[e.id], since);
    assert AutoSince(n, since) - {c} == AutoSince(s, since) - {c};
  }

  lemma OnDayIsSince(s: State, day: int, now: int)
    requires day >= IstDay(now)
    ensures AutoOn(s, day) <= AutoSince(s, StartOfTodayIST(now))
  {
    forall c | c in AutoOn(s, day)
      ensures c in AutoSince(s, StartOfTodayIST(now))
    {
      var i :| i in s.events && IsSent(s.events[i]) && IstDay(s.events[i].createdAt) == day
        && s.events[i].campaign.value == c;
      SameDayIff(s.events[i].createdAt, now);
    }
  }

  /** A claim adds a campaign without deliveries, so nobody's count changes yet. */
  lemma ClaimCounts(cfg: Config, s: State, e: Step)
    requires e.Claim? && Enabled(s, e)
    ensures Released(Next(cfg, s, e).releases) == Released(s.releases) + {e.campaign}
    ensures forall day :: AutoOn(Next(cfg, s, e), day) == AutoOn(s, day)
    ensures forall since :: AutoSince(Next(cfg, s, e), since) == AutoSince(s, since)
  {
    var n, c := Next(cfg, s, e), e.campaign;
    assert n.releases[|s.releases|].campaign == c;
    assert Released(n.releases) == Released(s.releases) + {c};
    forall day
      ensures AutoOn(n, day) == AutoOn(s, day)
    {
      assert c !in SentOn(s.events, day);
    }
    forall since
      ensures AutoSince(n, since) == AutoSince(s, since)
    {
      assert c !in SentCampaigns(s.events, since);
    }
  }

  lemma ClaimKeepsTick(cfg: Config, s: State, e: Step)
    requires TickOk(cfg, s) && e.Claim? && Enabled(s, e)
    ensures TickOk(cfg, Next(cfg, s, e))
  {
    ClaimCounts(cfg, s, e);
    var since := StartOfTodayIST(s.tick.now);
    SmallerSet(AutoSince(s, since) - {e.campaign}, AutoSince(s, since));
  }

  /** Other people's rows change no count of the pacer's. */
  lemma RowCounts(cfg: Config, s: State, e: Step)
    requires (e.ManualDeliver? || e.OtherEvent?) && Enabled(s, e)
    ensures forall day :: AutoOn(Next(cfg, s, e), day) == AutoOn(s, day)
    ensures forall since :: AutoSince(Next(cfg, s, e), since) == AutoSince(s, since)
  {
    var n := Next(cfg, s, e);
    ForeignRow(s, n, e.id, n.events[e.id]);
  }

  lemma CountKeepsTick(cfg: Config, s: State)
    requires TickOk(cfg, s) && Enabled(s, ReadCount)
    ensures TickOk(cfg, Next(cfg, s, ReadCount))
  {
    var n, since := Next(cfg, s, ReadCount), StartOfTodayIST(s.tick.now);
    SmallerSet(AutoSince(s, since), SentCampaigns(s.events, since));
    assert AutoSince(n, since) == AutoSince(s, since);
  }

  lemma RowKeepsTick(cfg: Config, s: State, e: Step)
    requires TickOk(cfg, s) && ClockOk(s) && (e.ManualDeliver? || e.OtherEvent?) && Enabled(s, e)
    ensures TickOk(cfg, Next(cfg, s, e))
  {
    RowCounts(cfg, s, e);
    if s.tick.Gated? {
      LaterRowSpaced(cfg, s, e);
    }
  }

  lemma LaterRowSpaced(cfg: Config, s: State, e: Step)
    requires ClockOk(s) && (e.ManualDeliver? || e.OtherEvent?) && Enabled(s, e)
    requires s.tick.Gated? && SpacedBefore(s.events, s.tick.now, cfg.spacingMs)
    ensures SpacedBefore(Next(cfg, s, e).events, s.tick.now, cfg.spacingMs)
  {
  }

  lemma LastKeepsTick(cfg: Config, s: State)
    requires TickOk(cfg, s) && Enabled(s, ReadLast)
    ensures TickOk(cfg, Next(cfg, s, ReadLast))
  {
    SameCounts(s, Next(cfg, s, ReadLast));
  }

  lemma SameCounts(s: State, n: State)
    requires n.events == s.events && n.releases == s.releases
    ensures forall day :: AutoOn(n, day) == AutoOn(s, day)
    ensures forall since :: AutoSince(n, since) == AutoSince(s, since)
  {
  }

  lemma StepKeepsClock(cfg: Config, s: State, e: Step)
    requires ClockOk(s) && Enabled(s, e)
    ensures ClockOk(Next(cfg, s, e))
  {
  }

  /** Rows recorded from now on are too late to matter to a release already made. */
  lemma StepKeepsReleases(cfg: Config, s: State, e: Step)
    requires ClockOk(s) && ReleasesOk(cfg, s) && TickOk(cfg, s) && Enabled(s, e)
    ensures ReleasesOk(cfg, Next(cfg, s, e))
  {
    var n := Next(cfg, s, e);
    forall r | r in n.releases
      ensures !IsQuietHours(r.now, cfg.quietStart, cfg.quietEnd) && SpacedBefore(n.events, r.now, cfg.spacingMs)
    {
      if r in s.releases {
        assert SpacedBefore(s.events, r.now, cfg.spacingMs);
      }
    }
  }

  lemma StepKeepsCeiling(cfg: Config, s: State, e: Step)
    requires Inv(cfg, s) && Enabled(s, e)
    ensures CeilingOk(cfg, Next(cfg, s, e))
  {
    var n := Next(cfg, s, e);
    if e.Claim? {
      ClaimCounts(cfg, s, e);
    } else if e.ManualDeliver? || e.OtherEvent? {
      RowCounts(cfg, s, e);
    } else if !e.Deliver? {
      SameCounts(s, n);
    }
    forall day
      ensures |AutoOn(n, day)| <= cfg.ceiling
    {
      assert |AutoOn(s, day)| <= cfg.ceiling;
      if e.Deliver? {
        DeliverOnDay(cfg, s, e, day);
      }
    }
  }

  lemma StepKeepsTick(cfg: Config, s: State, e: Step)
    requires Inv(cfg, s) && Enabled(s, e)
    ensures TickOk(cfg, Next(cfg, s, e))
  {
    match e {
      case ReadCount => CountKeepsTick(cfg, s);
      case Claim(_) => ClaimKeepsTick(cfg, s, e);
      case Deliver(_, _, _) => DeliverKeepsTick(cfg, s, e);
      case ManualDeliver(_, _, _, _) => RowKeepsTick(cfg, s, e);
      case OtherEvent(_, _) => RowKeepsTick(cfg, s, e);
      case ReadLast => LastKeepsTick(cfg, s);
      case _ =>
    }
  }

  lemma StepKeepsInv(cfg: Config, s: State, e: Step)
    requires Inv(cfg, s) && Enabled(s, e)
    ensures Inv(cfg, Next(cfg, s, e))
  {
    StepKeepsClock(cfg, s, e);
    StepKeepsReleases(cfg, s, e);
    StepKeepsCeiling(cfg, s, e);
    StepKeepsTick(cfg, s, e);
  }

  ghost predicate IsRun(cfg: Config, s: State, steps: seq<Step>, end: State)
    decreases |steps|
  {
    if steps == [] then end == s
    else Enabled(s, steps[0]) && IsRun(cfg, Next(cfg, s, steps[0]), steps[1..], end)
  }

  lemma {:induction false} RunKeepsInv(cfg: Config, s: State, steps: seq<Step>, end: State)
    requires Inv(cfg, s) && IsRun(cfg, s, steps, end)
    ensures Inv(cfg, end)
    decreases |steps|
  {
    if steps != [] {
      StepKeepsInv(cfg, s, steps[0]);
      RunKeepsInv(cfg, Next(cfg, s, steps[0]), steps[1..], end);
    }
  }

  /**
   * Over any run of serial ticks among manual sends: every automated release happens outside quiet hours and at least
   * the spacing after every delivery recorded before its tick, of whatever kind; and on every IST day at most the
   * ceiling of automated releases record a delivery, a send that started the day before included.
   */
  lemma GatesHold(cfg: Config, clock: int, steps: seq<Step>, end: State)
    requires IsRun(cfg, State(map[], clock, NoTick, []), steps, end)
    ensures forall r :: r in end.releases ==> !IsQuietHours(r.now, cfg.quietStart, cfg.quietEnd)
    ensures forall r, id ::
              r in end.releases && id in end.events && IsSent(end.events[id]) && end.events[id].createdAt < r.now ==>
                r.now - end.events[id].createdAt >= cfg.spacingMs
    ensures forall day :: |AutoOn(end, day)| <= cfg.ceiling
  {
    var start := State(map[], clock, NoTick, []);
    forall day
      ensures |AutoOn(start, day)| <= cfg.ceiling
    {
      assert AutoOn(start, day) == {};
    }
    RunKeepsInv(cfg, start, steps, end);
    forall r, id | r in end.releases && id in end.events && IsSent(end.events[id]) && end.events[id].createdAt < r.now
      ensures r.now - end.events[id].createdAt >= cfg.spacingMs
    {
      assert SpacedBefore(end.events, r.now, cfg.spacingMs);
    }
  }

  lemma {:induction false} RunThrough(cfg: Config, states: seq<State>, steps: seq<Step>)
    requires |states| == |steps| + 1
    requires forall i :: 0 <= i < |steps| ==>
               Enabled(states[i], steps[i]) && Next(cfg, states[i], steps[i]) == states[i + 1]
    ensures IsRun(cfg, states[0], steps, states[|steps|])
    decreases |steps|
  {
    if steps != [] {
      RunThrough(cfg, states[1..], steps[1..]);
    }
  }

  const ONE_A_DAY := Config(0, 1, 23 * 60, 7 * 60)

  /** Noon in India on the day of the epoch. */
  const NOON := 390 * MINUTE_MS

  /** The count lets a tick at noon pass while nothing was sent, and not once campaign 5 was. */
  lemma CountsAtNoon(none: EventTable, sent: EventTable, done: seq<Release>)
    requires none == map[] && 0 in sent && sent[0] == Event(SENT, Some(5), Some(1), NOON)
    ensures Next(ONE_A_DAY, State(none, NOON, Started(NOON), []), ReadCount) == State(none, NOON, Counted(NOON), [])
    ensures Next(ONE_A_DAY, State(sent, NOON, Started(NOON), done), ReadCount) == State(sent, NOON, NoTick, done)
  {
    assert IstMinutesOfDay(NOON) == 12 * 60;
    assert SentCampaigns(none, StartOfTodayIST(NOON)) == {};
    assert 5 in SentCampaigns(sent, StartOfTodayIST(NOON)) by {
      assert IsSent(sent[0]) && sent[0].createdAt >= StartOfTodayIST(NOON);
    }
    assert SentToday(sent, NOON) >= 1;
  }

  /**
   * With a ceiling of one, one release gets through, and delivers: a run at noon, a click and a manual send of the same
   * millisecond included, after which the next tick finds the ceiling reached.
   */
  lemma OneReleaseGetsThrough() returns (steps: seq<Step>, end: State)
    ensures steps == [StartTick(NOON), ReadCount, ReadLast, Claim(5), Deliver(0, 1, NOON),
                      OtherEvent(1, Event(CLICKED, Some(5), Some(1), NOON)), ManualDeliver(2, 6, 1, NOON), EndTick,
                      StartTick(NOON), ReadCount]
    ensures IsRun(ONE_A_DAY, State(map[], NOON, NoTick, []), steps, end)
    ensures end.tick == NoTick && end.releases == [Release(5, NOON)] && end.events.Keys == {0, 1, 2}
    ensures IsSent(end.events[0]) && end.events[0].campaign == Some(5)
    ensures IsSent(end.events[2]) && end.events[2].campaign == Some(6)
  {
    var click := Event(CLICKED, Some(5), Some(1), NOON);
    var none: EventTable := map[];
    var one := none[0 := Event(SENT, Some(5), Some(1), NOON)];
    var three := one[1 := click][2 := Event(SENT, Some(6), Some(1), NOON)];
    var claimed := State(none, NOON, Releasing(NOON, 5), [Release(5, NOON)]);
    end := State(three, NOON, NoTick, [Release(5, NOON)]);
    var first, rest := [StartTick(NOON), ReadCount, ReadLast, Claim(5)],
                       [Deliver(0, 1, NOON), OtherEvent(1, click), ManualDeliver(2, 6, 1, NOON), EndTick,
                        StartTick(NOON), ReadCount];
    steps := first + rest;
    CountsAtNoon(none, three, [Release(5, NOON)]);
    RunThrough(ONE_A_DAY,
               [State(none, NOON, NoTick, []), State(none, NOON, Started(NOON), []),
                State(none, NOON, Counted(NOON), []), State(none, NOON, Gated(NOON), []), claimed], first);
    DeliversAtNoon(none, one, three, claimed, end, rest);
    RunConcat(ONE_A_DAY, State(none, NOON, NoTick, []), first, claimed, rest, end);
  }

  lemma DeliversAtNoon(none: EventTable, one: EventTable, three: EventTable, claimed: State, end: State,
                       steps: seq<Step>)
    requires none == map[] && one == none[0 := Event(SENT, Some(5), Some(1), NOON)]
    requires three == one[1 := Event(CLICKED, Some(5), Some(1), NOON)][2 := Event(SENT, Some(6), Some(1), NOON)]
    requires claimed == State(none, NOON, Releasing(NOON, 5), [Release(5, NOON)])
    requires end == State(three, NOON, NoTick, [Release(5, NOON)])
    requires steps == [Deliver(0, 1, NOON), OtherEvent(1, Event(CLICKED, Some(5), Some(1), NOON)),
                       ManualDeliver(2, 6, 1, NOON), EndTick, StartTick(NOON), ReadCount]
    ensures IsRun(ONE_A_DAY, claimed, steps, end)
  {
    var done := [Release(5, NOON)];
    CountsAtNoon(none, three, done);
    RunThrough(ONE_A_DAY,
               [claimed, State(one, NOON, Releasing(NOON, 5), done),
                State(one[1 := Event(CLICKED, Some(5), Some(1), NOON)], NOON, Releasing(NOON, 5), done),
                State(three, NOON, Releasing(NOON, 5), done), end, State(three, NOON, Started(NOON), done), end],
               steps);
  }

  lemma {:induction false} RunConcat(cfg: Config, s: State, first: seq<Step>, m: State, rest: seq<Step>, end: State)
    requires IsRun(cfg, s, first, m) && IsRun(cfg, m, rest, end)
    ensures IsRun(cfg, s, first + rest, end)
    decreases |first|
  {
    if first == [] {
      assert first + rest == rest;
    } else {
      RunConcat(cfg, Next(cfg, s, first[0]), first[1..], m, rest, end);
      assert (first + rest)[1..] == first[1..] + rest;
    }
  }
}
