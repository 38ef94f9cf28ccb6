/** The per-subscriber throttles (src/lib/cap.ts): a daily cap on SENT rows and a cooldown. */
module Cap {
  import opened Prelude
  import opened Events
  import IstClock

  datatype Fate = Kept | Capped | Cooled

  /** SENT rows of `sub` created at or after `since`. */
  function SentSince(events: EventTable, sub: SubscriberId, since: int): set<EventId> {
    Where(events, IsSentToSince(sub, since))
  }

  function IsSentToSince(sub: SubscriberId, since: int): Event -> bool {
    (e: Event) => IsSentTo(e, sub) && e.createdAt >= since
  }

  predicate IsSentTo(e: Event, sub: SubscriberId) {
    e.typ == SENT && e.subscriber == Some(sub)
  }

  /** What happens to one candidate; `cap` is None for `Infinity`, and a gap of 0 or less disables the cooldown. */
  function FateOf(events: EventTable, cap: Option<nat>, now: int, minGapMs: int, sub: SubscriberId): Fate {
    if cap.Some? && |SentSince(events, sub, IstClock.StartOfTodayIST(now))| >= cap.value then Capped
    else if minGapMs > 0 && SentSince(events, sub, now - minGapMs) != {} then Cooled
    else Kept
  }

  function HasFate(events: EventTable, cap: Option<nat>, now: int, minGapMs: int, fate: Fate): SubscriberId -> bool {
    (sub: SubscriberId) => FateOf(events, cap, now, minGapMs, sub) == fate
  }

  function Split(events: EventTable, cap: Option<nat>, now: int, minGapMs: int, fate: Fate,
                 subs: seq<SubscriberId>): seq<SubscriberId> {
    Filter(HasFate(events, cap, now, minGapMs, fate), subs)
  }

  /** How many SENT rows `sub` has since IST midnight. */
  function SentToday(events: EventTable, sub: SubscriberId, now: int): nat {
    |set i | i in events && events[i].typ == SENT && events[i].subscriber == Some(sub)
             && IstClock.StartOfTodayIST(now) <= events[i].createdAt|
  }

  /** Some SENT row of `sub` is at or after `since`. */
  predicate IsWarm(events: EventTable, sub: SubscriberId, since: int) {
    exists i :: i in events && events[i].typ == SENT && events[i].subscriber == Some(sub)
                && since <= events[i].createdAt
  }

  /** `part` is `all` with some elements left out. */
  predicate InOrder<T(==)>(part: seq<T>, all: seq<T>) {
    if part == [] then true
    else if all == [] then false
    else InOrder(if part[0] == all[0] then part[1..] else part, all[1..])
  }

  lemma {:induction false} FilterInOrder<T>(p: T -> bool, s: seq<T>)
    ensures InOrder(Filter(p, s), s)
  {
    if s != [] {
      FilterInOrder(p, s[1..]);
      var rest := Filter(p, s[1..]);
      if p(s[0]) {
        assert ([s[0]] + rest)[1..] == rest;
      } else {
        assert Filter(p, s) == rest;
        if rest != [] && rest[0] == s[0] {
          SkipFirst(rest, s[1..]);
        }
      }
    }
  }

  /** What is found in order is found in order without its first element. */
  lemma {:induction false} SkipFirst<T>(part: seq<T>, all: seq<T>)
    requires part != [] && InOrder(part, all)
    ensures InOrder(part[1..], all)
  {
    if part[1..] != [] {
      if part[0] == all[0] {
        if part[1] == all[0] {
          SkipFirst(part[1..], all[1..]);
        }
      } else {
        SkipFirst(part, all[1..]);
        if part[1] == all[0] {
          SkipFirst(part[1..], all[1..]);
        }
      }
    }
  }

  /** Who is in which list, said of the rows themselves: capped before cooled before kept, each list in order. */
  ghost predicate IsRightSplit(subs: seq<SubscriberId>, cap: Option<nat>, now: int, minGapMs: int, events: EventTable,
                               kept: seq<SubscriberId>, capped: seq<SubscriberId>, cooled: seq<SubscriberId>)
  {
    && InOrder(kept, subs) && InOrder(capped, subs) && InOrder(cooled, subs)
    && forall s :: s in subs ==>
         && (s in capped <==> cap.Some? && cap.value <= SentToday(events, s, now))
         && (s in cooled <==> s !in capped && minGapMs > 0 && IsWarm(events, s, now - minGapMs))
         && (s in kept <==> s !in capped && s !in cooled)
  }

  lemma SplitsPlainly(events: EventTable, cap: Option<nat>, now: int, minGapMs: int, subs: seq<SubscriberId>)
    ensures IsRightSplit(subs, cap, now, minGapMs, events, Split(events, cap, now, minGapMs, Kept, subs),
                         Split(events, cap, now, minGapMs, Capped, subs),
                         Split(events, cap, now, minGapMs, Cooled, subs))
  {
    FilterInOrder(HasFate(events, cap, now, minGapMs, Kept), subs);
    FilterInOrder(HasFate(events, cap, now, minGapMs, Capped), subs);
    FilterInOrder(HasFate(events, cap, now, minGapMs, Cooled), subs);
    forall s | s in subs
      ensures var capped := Split(events, cap, now, minGapMs, Capped, subs);
              var cooled := Split(events, cap, now, minGapMs, Cooled, subs);
              && (s in capped <==> cap.Some? && cap.value <= SentToday(events, s, now))
              && (s in cooled <==> s !in capped && minGapMs > 0 && IsWarm(events, s, now - minGapMs))
              && (s in Split(events, cap, now, minGapMs, Kept, subs) <==> s !in capped && s !in cooled)
    {
      FilterMember(HasFate(events, cap, now, minGapMs, Kept), subs, s);
      FilterMember(HasFate(events, cap, now, minGapMs, Capped), subs, s);
      FilterMember(HasFate(events, cap, now, minGapMs, Cooled), subs, s);
      FatePlainly(events, cap, now, minGapMs, s);
    }
  }

  lemma FatePlainly(events: EventTable, cap: Option<nat>, now: int, minGapMs: int, sub: SubscriberId)
    ensures FateOf(events, cap, now, minGapMs, sub).Capped? <==> cap.Some? && cap.value <= SentToday(events, sub, now)
    ensures FateOf(events, cap, now, minGapMs, sub).Cooled? <==>
              !FateOf(events, cap, now, minGapMs, sub).Capped? && minGapMs > 0 && IsWarm(events, sub, now - minGapMs)
  {
    var today := IstClock.StartOfTodayIST(now);
    assert SentSince(events, sub, today)
        == set i | i in events && events[i].typ == SENT && events[i].subscriber == Some(sub)
                   && today <= events[i].createdAt;
    if IsWarm(events, sub, now - minGapMs) {
      var i :| i in events && events[i].typ == SENT && events[i].subscriber == Some(sub)
               && now - minGapMs <= events[i].createdAt;
      assert i in SentSince(events, sub, now - minGapMs);
    } else {
      assert SentSince(events, sub, now - minGapMs) == {};
    }
  }

  /** Splits the candidates, in order, into who is sent to and who is held back. */
  method FilterByCap(subs: seq<SubscriberId>, cap: Option<nat>, now: int, minGapMs: int, events: EventTable)
    returns (kept: seq<SubscriberId>, capped: seq<SubscriberId>, cooled: seq<SubscriberId>)
    ensures kept == Split(events, cap, now, minGapMs, Kept, subs)
    ensures capped == Split(events, cap, now, minGapMs, Capped, subs)
    ensures cooled == Split(events, cap, now, minGapMs, Cooled, subs)
    ensures multiset(kept) + multiset(capped) + multiset(cooled) == multiset(subs)
    ensures IsRightSplit(subs, cap, now, minGapMs, events, kept, capped, cooled)
  {
    if |subs| == 0 {
      return [], [], [];
    }
    var todayStart := IstClock.StartOfTodayIST(now);
    var countMap: map<SubscriberId, nat> :=
      map s | s in subs && SentSince(events, s, todayStart) != {} :: |SentSince(events, s, todayStart)|;
    var cooledSet: set<SubscriberId> := {};
    if minGapMs > 0 {
      cooledSet := set s | s in subs && SentSince(events, s, now - minGapMs) != {};
    }
    kept, capped, cooled := [], [], [];
    for n := 0 to |subs|
      invariant kept == Split(events, cap, now, minGapMs, Kept, subs[..n])
      invariant capped == Split(events, cap, now, minGapMs, Capped, subs[..n])
      invariant cooled == Split(events, cap, now, minGapMs, Cooled, subs[..n])
    {
      var s := subs[n];
      SplitNext(events, cap, now, minGapMs, Kept, subs, n);
      SplitNext(events, cap, now, minGapMs, Capped, subs, n);
      SplitNext(events, cap, now, minGapMs, Cooled, subs, n);
      if cap.Some? && (if s in countMap then countMap[s] else 0) >= cap.value {
        capped := capped + [s];
      } else if s in cooledSet {
        cooled := cooled + [s];
      } else {
        kept := kept + [s];
      }
    }
    assert subs[..|subs|] == subs;
    SplitPartitions(events, cap, now, minGapMs, subs);
    SplitsPlainly(events, cap, now, minGapMs, subs);
  }

  lemma SplitNext(events: EventTable, cap: Option<nat>, now: int, minGapMs: int, fate: Fate,
                  subs: seq<SubscriberId>, n: nat)
    requires n < |subs|
    ensures Split(events, cap, now, minGapMs, fate, subs[..n + 1])
         == if FateOf(events, cap, now, minGapMs, subs[n]) == fate
            then Split(events, cap, now, minGapMs, fate, subs[..n]) + [subs[n]]
            else Split(events, cap, now, minGapMs, fate, subs[..n])
  {
    assert subs[..n + 1] == subs[..n] + [subs[n]];
    FilterConcat(HasFate(events, cap, now, minGapMs, fate), subs[..n], [subs[n]]);
  }

  lemma SplitHead(events: EventTable, cap: Option<nat>, now: int, minGapMs: int, fate: Fate, subs: seq<SubscriberId>,
                  x: SubscriberId)
    requires subs != []
    ensures Copies(Split(events, cap, now, minGapMs, fate, subs), x)
         == Copies(Split(events, cap, now, minGapMs, fate, subs[1..]), x)
          + (if FateOf(events, cap, now, minGapMs, subs[0]) == fate && subs[0] == x then 1 else 0)
  {
    var rest := Split(events, cap, now, minGapMs, fate, subs[1..]);
    if FateOf(events, cap, now, minGapMs, subs[0]) == fate {
      assert Split(events, cap, now, minGapMs, fate, subs) == [subs[0]] + rest;
      CountConcat(Is(x), [subs[0]], rest);
    } else {
      assert Split(events, cap, now, minGapMs, fate, subs) == rest;
    }
  }

  lemma {:induction false} SplitCopies(events: EventTable, cap: Option<nat>, now: int, minGapMs: int,
                                       subs: seq<SubscriberId>, x: SubscriberId)
    ensures Copies(Split(events, cap, now, minGapMs, Kept, subs), x)
          + Copies(Split(events, cap, now, minGapMs, Capped, subs), x)
          + Copies(Split(events, cap, now, minGapMs, Cooled, subs), x) == Copies(subs, x)
  {
    if subs != [] {
      SplitCopies(events, cap, now, minGapMs, subs[1..], x);
      SplitHead(events, cap, now, minGapMs, Kept, subs, x);
      SplitHead(events, cap, now, minGapMs, Capped, subs, x);
      SplitHead(events, cap, now, minGapMs, Cooled, subs, x);
    }
  }

  /** Every candidate lands in exactly one of the three lists. */
  lemma SplitPartitions(events: EventTable, cap: Option<nat>, now: int, minGapMs: int, subs: seq<SubscriberId>)
    ensures multiset(Split(events, cap, now, minGapMs, Kept, subs))
          + multiset(Split(events, cap, now, minGapMs, Capped, subs))
          + multiset(Split(events, cap, now, minGapMs, Cooled, subs)) == multiset(subs)
  {
    var kept := Split(events, cap, now, minGapMs, Kept, subs);
    var capped := Split(events, cap, now, minGapMs, Capped, subs);
    var cooled := Split(events, cap, now, minGapMs, Cooled, subs);
    forall x
      ensures (multiset(kept) + multiset(capped) + multiset(cooled))[x] == multiset(subs)[x]
    {
      SplitCopies(events, cap, now, minGapMs, subs, x);
      CopiesIsMultiplicity(kept, x);
      CopiesIsMultiplicity(capped, x);
      CopiesIsMultiplicity(cooled, x);
      CopiesIsMultiplicity(subs, x);
    }
  }

  /** A forced send (cap = Infinity, gap = 0) keeps every candidate. */
  lemma {:induction false} ForcedKeepsAll(events: EventTable, now: int, subs: seq<SubscriberId>)
    ensures Split(events, None, now, 0, Kept, subs) == subs
  {
    if subs != [] {
      ForcedKeepsAll(events, now, subs[1..]);
      assert subs == [subs[0]] + subs[1..];
    }
  }

  // ----- safety over whole runs of non-overlapping, non-forced sends -----

  /** The table, the clock, and the send in progress with the kept subscribers that have no row yet. */
  datatype Channel = Channel(events: EventTable, clock: int, current: Sending)
  datatype Sending = NoSend | Send(now: int, waiting: set<SubscriberId>)

  datatype Step =
    | Begin(now: int, candidates: seq<SubscriberId>)   // executeCampaign filters by the clock value it was given
    | Deliver(id: EventId, sub: SubscriberId, at: int) // the SENT row of one kept subscriber lands
    | Other(id: EventId, event: Event)                 // any row that is not SENT
    | End                                              // the send is over: returned, threw or crashed

  predicate Enabled(c: Channel, s: Step) {
    match s
    case Begin(_, _) => c.current.NoSend? // `now` may be older than rows already there: a sweeper tick reads it once
    case Deliver(id, sub, at) =>
      c.current.Send? && sub in c.current.waiting && id !in c.events && c.clock <= at && c.current.now <= at
    case Other(id, e) => id !in c.events && e.typ != SENT && c.clock <= e.createdAt
    case End => true
  }

  function Next(c: Channel, cap: nat, minGapMs: int, s: Step): Channel
    requires Enabled(c, s)
  {
    match s
    case Begin(now, candidates) =>
      var kept := Split(c.events, Some(cap), now, minGapMs, Kept, candidates);
      c.(current := Send(now, set x | x in kept))
    case Deliver(id, sub, at) =>
      Channel(c.events[id := Event(SENT, None, Some(sub), at)], at,
              c.current.(waiting := c.current.waiting - {sub}))
    case Other(id, e) => c.(events := c.events[id := e], clock := e.createdAt)
    case End => c.(current := NoSend)
  }

  function SentOnDay(events: EventTable, sub: SubscriberId, day: int): set<EventId> {
    Where(events, IsSentOnDay(sub, day))
  }

  function IsSentOnDay(sub: SubscriberId, day: int): Event -> bool {
    (e: Event) => IsSentTo(e, sub) && IstClock.IstDay(e.createdAt) == day
  }

  /** No subscriber ever has more than `cap` SENT rows on an IST day. */
  ghost predicate WithinCap(events: EventTable, cap: nat) {
    forall sub, day :: |SentOnDay(events, sub, day)| <= cap
  }

  /** Any two SENT rows of one subscriber are MORE than the cooldown apart. */
  ghost predicate Spaced(events: EventTable, minGapMs: int) {
    forall i, j, sub :: i in events && j in events && i != j && IsSentTo(events[i], sub) && IsSentTo(events[j], sub) ==>
      events[j].createdAt - events[i].createdAt > minGapMs || events[i].createdAt - events[j].createdAt > minGapMs
  }

  ghost predicate Inv(c: Channel, cap: nat, minGapMs: int) {
    && (forall i :: i in c.events ==> c.events[i].createdAt <= c.clock)
    && WithinCap(c.events, cap)
    && (minGapMs > 0 ==> Spaced(c.events, minGapMs))
    && (c.current.Send? ==>
          forall sub :: sub in c.current.waiting ==> MaySend(c.events, cap, minGapMs, c.current.now, sub))
  }

  /** What the filter established for a kept subscriber, and still holds while it waits. */
  predicate MaySend(events: EventTable, cap: nat, minGapMs: int, now: int, sub: SubscriberId) {
    && |SentSince(events, sub, IstClock.StartOfTodayIST(now))| < cap
    && (minGapMs > 0 ==> SentSince(events, sub, now - minGapMs) == {})
  }

  /**
   * What being kept means, however old `now` is: on its IST day and on every later one the subscriber is under the cap,
   * and each of its SENT rows is more than the cooldown older than `now`.
   */
  lemma KeptMaySend(events: EventTable, cap: nat, minGapMs: int, now: int, sub: SubscriberId)
    requires FateOf(events, Some(cap), now, minGapMs, sub) == Kept
    ensures MaySend(events, cap, minGapMs, now, sub)
    ensures forall day :: day >= IstClock.IstDay(now) ==> |SentOnDay(events, sub, day)| < cap
    ensures minGapMs > 0 ==>
              forall i :: i in events && IsSentTo(events[i], sub) ==> events[i].createdAt < now - minGapMs
  {
    forall day | day >= IstClock.IstDay(now)
      ensures |SentOnDay(events, sub, day)| < cap
    {
      UnderCapLater(events, cap, minGapMs, now, sub, day);
    }
    if minGapMs > 0 {
      CooledBefore(events, cap, minGapMs, now, sub);
    }
  }

  lemma UnderCapLater(events: EventTable, cap: nat, minGapMs: int, now: int, sub: SubscriberId, day: int)
    requires MaySend(events, cap, minGapMs, now, sub) && day >= IstClock.IstDay(now)
    ensures |SentOnDay(events, sub, day)| < cap
  {
    var today := SentSince(events, sub, IstClock.StartOfTodayIST(now));
    forall i | i in SentOnDay(events, sub, day)
      ensures i in today
    {
      IstClock.SameDayIff(events[i].createdAt, now);
    }
    SmallerSet(SentOnDay(events, sub, day), today);
  }

  lemma CooledBefore(events: EventTable, cap: nat, minGapMs: int, now: int, sub: SubscriberId)
    requires MaySend(events, cap, minGapMs, now, sub) && minGapMs > 0
    ensures forall i :: i in events && IsSentTo(events[i], sub) ==> events[i].createdAt < now - minGapMs
  {
    forall i | i in events && IsSentTo(events[i], sub)
      ensures events[i].createdAt < now - minGapMs
    {
      assert i !in SentSince(events, sub, now - minGapMs);
    }
  }

  /** A delivery to somebody else leaves the waiting subscribers as free to be sent to. */
  lemma DeliverKeepsWaiting(c: Channel, cap: nat, minGapMs: int, s: Step, sub: SubscriberId)
    requires Inv(c, cap, minGapMs) && s.Deliver? && Enabled(c, s) && sub in c.current.waiting && sub != s.sub
    ensures MaySend(Next(c, cap, minGapMs, s).events, cap, minGapMs, c.current.now, sub)
  {
    var n, now := Next(c, cap, minGapMs, s), c.current.now;
    assert MaySend(c.events, cap, minGapMs, now, sub);
    WhereInsert(c.events, s.id, n.events[s.id], IsSentToSince(sub, IstClock.StartOfTodayIST(now)));
    WhereInsert(c.events, s.id, n.events[s.id], IsSentToSince(sub, now - minGapMs));
  }

  /** A delivery comes more than the cooldown after every earlier one to the same subscriber. */
  lemma DeliverKeepsSpacing(c: Channel, cap: nat, minGapMs: int, s: Step)
    requires Inv(c, cap, minGapMs) && s.Deliver? && Enabled(c, s) && minGapMs > 0
    ensures Spaced(Next(c, cap, minGapMs, s).events, minGapMs)
  {
    CooledBefore(c.events, cap, minGapMs, c.current.now, s.sub);
  }

  lemma DeliverKeepsInv(c: Channel, cap: nat, minGapMs: int, s: Step)
    requires Inv(c, cap, minGapMs) && s.Deliver? && Enabled(c, s)
    ensures Inv(Next(c, cap, minGapMs, s), cap, minGapMs)
  {
    var n := Next(c, cap, minGapMs, s);
    forall sub, day
      ensures |SentOnDay(n.events, sub, day)| <= cap
    {
      DeliverWithinCap(c, cap, minGapMs, s, sub, day);
    }
    if minGapMs > 0 {
      DeliverKeepsSpacing(c, cap, minGapMs, s);
    }
    forall sub | sub in n.current.waiting
      ensures MaySend(n.events, cap, minGapMs, c.current.now, sub)
    {
      DeliverKeepsWaiting(c, cap, minGapMs, s, sub);
    }
  }

  lemma DeliverWithinCap(c: Channel, cap: nat, minGapMs: int, s: Step, sub: SubscriberId, day: int)
    requires Inv(c, cap, minGapMs) && s.Deliver? && Enabled(c, s)
    ensures |SentOnDay(Next(c, cap, minGapMs, s).events, sub, day)| <= cap
  {
    var now := c.current.now;
    WhereInsert(c.events, s.id, Event(SENT, None, Some(s.sub), s.at), IsSentOnDay(sub, day));
    assert |SentOnDay(c.events, sub, day)| <= cap;
    if sub == s.sub && day == IstClock.IstDay(s.at) {
      IstClock.SameDayIff(now, s.at);
      UnderCapLater(c.events, cap, minGapMs, now, sub, day);
    }
  }

  lemma StepKeepsInv(c: Channel, cap: nat, minGapMs: int, s: Step)
    requires Inv(c, cap, minGapMs) && Enabled(c, s)
    ensures Inv(Next(c, cap, minGapMs, s), cap, minGapMs)
  {
    match s
    case Begin(now, candidates) =>
      forall sub | sub in Split(c.events, Some(cap), now, minGapMs, Kept, candidates)
        ensures MaySend(c.events, cap, minGapMs, now, sub)
      {
        FilterMember(HasFate(c.events, Some(cap), now, minGapMs, Kept), candidates, sub);
        KeptMaySend(c.events, cap, minGapMs, now, sub);
      }
    case Deliver(_, _, _) => DeliverKeepsInv(c, cap, minGapMs, s);
    case Other(_, _) => OtherKeepsInv(c, cap, minGapMs, s);
    case End =>
  }

  lemma OtherKeepsInv(c: Channel, cap: nat, minGapMs: int, s: Step)
    requires Inv(c, cap, minGapMs) && s.Other? && Enabled(c, s)
    ensures Inv(Next(c, cap, minGapMs, s), cap, minGapMs)
  {
    var n := Next(c, cap, minGapMs, s);
    forall sub, day
      ensures SentOnDay(n.events, sub, day) == SentOnDay(c.events, sub, day)
    {
      WhereInsert(c.events, s.id, s.event, IsSentOnDay(sub, day));
    }
    forall sub, since
      ensures SentSince(n.events, sub, since) == SentSince(c.events, sub, since)
    {
      WhereInsert(c.events, s.id, s.event, IsSentToSince(sub, since));
    }
  }

  ghost predicate IsRun(c: Channel, cap: nat, minGapMs: int, steps: seq<Step>, end: Channel)
    decreases |steps|
  {
    if steps == [] then end == c
    else Enabled(c, steps[0]) && IsRun(Next(c, cap, minGapMs, steps[0]), cap, minGapMs, steps[1..], end)
  }

  /**
   * Over every run of non-overlapping, non-forced sends from an empty table, whatever clock value each is given: at
   * most `cap` SENT rows per subscriber and IST day, and any two SENT rows of one subscriber more than the cooldown
   * apart.
   */
  lemma {:induction false} ThrottlesHold(cap: nat, minGapMs: int, clock: int, steps: seq<Step>, end: Channel)
    requires IsRun(Channel(map[], clock, NoSend), cap, minGapMs, steps, end)
    ensures WithinCap(end.events, cap)
    ensures minGapMs > 0 ==> Spaced(end.events, minGapMs)
  {
    forall sub, day
      ensures SentOnDay(map[], sub, day) == {}
    {}
    RunKeepsInv(Channel(map[], clock, NoSend), cap, minGapMs, steps, end);
  }

  lemma {:induction false} RunKeepsInv(c: Channel, cap: nat, minGapMs: int, steps: seq<Step>, end: Channel)
    requires Inv(c, cap, minGapMs) && IsRun(c, cap, minGapMs, steps, end)
    ensures Inv(end, cap, minGapMs)
    decreases |steps|
  {
    if steps != [] {
      StepKeepsInv(c, cap, minGapMs, steps[0]);
      RunKeepsInv(Next(c, cap, minGapMs, steps[0]), cap, minGapMs, steps[1..], end);
    }
  }

  lemma {:induction false} RunThrough(cap: nat, minGapMs: int, states: seq<Channel>, steps: seq<Step>)
    requires |states| == |steps| + 1
    requires forall i :: 0 <= i < |steps| ==>
               Enabled(states[i], steps[i]) && Next(states[i], cap, minGapMs, steps[i]) == states[i + 1]
    ensures IsRun(states[0], cap, minGapMs, steps, states[|steps|])
    decreases |steps|
  {
    if steps != [] {
      RunThrough(cap, minGapMs, states[1..], steps[1..]);
    }
  }

  /** A cap of one lets one delivery through: a run in which both subscribers get theirs within one millisecond. */
  lemma EverybodyGetsOne() returns (steps: seq<Step>, end: Channel)
    ensures steps == [Begin(0, [1, 2]), Deliver(0, 1, 0), Deliver(1, 2, 0),
                      Other(2, Event(CLICKED, None, Some(1), 0)), End]
    ensures IsRun(Channel(map[], 0, NoSend), 1, 0, steps, end)
    ensures end.events.Keys == {0, 1, 2} && IsSentTo(end.events[0], 1) && IsSentTo(end.events[1], 2)
  {
    var click := Event(CLICKED, None, Some(1), 0);
    steps := [Begin(0, [1, 2]), Deliver(0, 1, 0), Deliver(1, 2, 0), Other(2, click), End];
    var none: EventTable := map[];
    var one := none[0 := Event(SENT, None, Some(1), 0)];
    var two := one[1 := Event(SENT, None, Some(2), 0)];
    end := Channel(two[2 := click], 0, NoSend);
    BothBegin(none);
    RunThrough(1, 0, [Channel(none, 0, NoSend), Channel(none, 0, Send(0, {1, 2})),
                      Channel(one, 0, Send(0, {1, 2} - {1})), Channel(two, 0, Send(0, {1, 2} - {1} - {2})),
                      Channel(two[2 := click], 0, Send(0, {1, 2} - {1} - {2})), end], steps);
  }

  lemma BothBegin(none: EventTable)
    requires none == map[]
    ensures var c, e := Channel(none, 0, NoSend), Begin(0, [1, 2]);
            Enabled(c, e) && Next(c, 1, 0, e) == Channel(none, 0, Send(0, {1, 2}))
  {
    BothKept(none);
    var n := Next(Channel(none, 0, NoSend), 1, 0, Begin(0, [1, 2]));
    assert n.current.waiting == set x | x in Split(none, Some(1), 0, 0, Kept, [1, 2]);
  }

  lemma BothKept(none: EventTable)
    requires none == map[]
    ensures (set x | x in Split(none, Some(1), 0, 0, Kept, [1, 2])) == {1, 2}
  {
    forall sub | sub in [1, 2]
      ensures HasFate(none, Some(1), 0, 0, Kept)(sub)
    {
      FatePlainly(none, Some(1), 0, 0, sub);
      assert SentToday(none, sub, 0) == 0;
    }
    FilterAll(HasFate(none, Some(1), 0, 0, Kept), [1, 2]);
  }
}
