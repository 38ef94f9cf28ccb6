/**
 * Sends that quiet hours put off: `dispatchCampaign` (src/services/send.ts) defers a new campaign, and the sweeper
 * (src/services/sweeper.ts) sends it when it comes due, or defers it again. Whether an URL is allowed, whether another
 * actor takes a due row first, and whether a send throws are parameters.
 */
module ScheduledSends {
  import opened Prelude
  import opened Campaigns
  import opened IstClock

  type Id = nat

  datatype Row = Row(status: Status, scheduledAt: Option<int>, breaking: bool)

  /** The per-subscriber throttles a send runs under; no cap is `Infinity`, no gap given is the configured one. */
  datatype Throttles = Throttles(cap: Option<nat>, minGapMinutes: nat)

  /** One start of the send loop: the clock it was judged by, and the instant it started at. */
  datatype Execution = Execution(id: Id, now: int, at: int, throttles: Throttles)

  datatype Quiet = Quiet(start: MinuteOfDay, end: MinuteOfDay)

  predicate IsQuiet(now: int, quiet: Quiet) {
    IsQuietHours(now, quiet.start, quiet.end)
  }

  datatype Dispatched = Rejected | Deferred(scheduledAt: int) | Sent | Threw

  datatype SweepResult = SweepResult(found: nat, swept: nat, deferred: nat, errors: nat)

  predicate IsDue(r: Row, now: int) {
    r.status == Scheduled && r.scheduledAt.Some? && r.scheduledAt.value <= now
  }

  /** A deferred row comes due at its instant, not before; a row that is closed or claimed never does. */
  lemma ComesDue(at: int, breaking: bool, now: int, status: Status, scheduledAt: Option<int>)
    ensures IsDue(Row(Scheduled, Some(at), breaking), now) <==> at <= now
    ensures status in {Draft, Status.Sent, Failed, Expired} ==> !IsDue(Row(status, scheduledAt, breaking), now)
    ensures !IsDue(Row(Scheduled, None, breaking), now)
  {
  }

  /** `findMany` of the due rows, earliest first. */
  ghost predicate IsDueList(rows: map<Id, Row>, now: int, due: seq<Id>) {
    && Distinct(due)
    && (forall id :: id in due <==> id in rows && IsDue(rows[id], now))
    && (forall i, j :: 0 <= i < j < |due| ==>
          rows[due[i]].scheduledAt.value <= rows[due[j]].scheduledAt.value)
  }

  /** A deferral: strictly later, and the first instant at which sending is allowed. */
  ghost predicate IsDeferral(before: Row, after: Row, now: int, quiet: Quiet) {
    && before.scheduledAt.Some? && after.scheduledAt.Some?
    && before.scheduledAt.value < after.scheduledAt.value && now < after.scheduledAt.value
    && !IsQuiet(after.scheduledAt.value, quiet)
    && (forall t :: now <= t < after.scheduledAt.value ==> IsQuiet(t, quiet))
    && after == before.(scheduledAt := after.scheduledAt)
  }

  /** What became of one due row. */
  datatype Fate = Put | Taken | Swept | Failing

  /** A due row after its turn. `taken`: another actor claimed it first. */
  function AfterTurn(r: Row, now: int, quiet: Quiet, taken: bool, throws: bool): Row {
    if IsQuiet(now, quiet) then r.(scheduledAt := Some(NextAllowedAt(now, quiet.end)))
    else r.(status := if taken then Draft else if throws then Failed else Status.Sent)
  }

  function FateOf(now: int, quiet: Quiet, taken: bool, throws: bool): Fate {
    if IsQuiet(now, quiet) then Put else if taken then Taken else if throws then Failing else Swept
  }

  function SweptRows(rows: map<Id, Row>, due: seq<Id>, now: int, quiet: Quiet, taken: set<Id>, throws: set<Id>)
    : map<Id, Row>
  {
    map id | id in rows :: if id in due then AfterTurn(rows[id], now, quiet, id in taken, id in throws) else rows[id]
  }

  predicate IsSentFate(now: int, quiet: Quiet, taken: set<Id>, throws: set<Id>, id: Id) {
    var fate := FateOf(now, quiet, id in taken, id in throws);
    fate.Swept? || fate.Failing?
  }

  function Sending(now: int, quiet: Quiet, taken: set<Id>, throws: set<Id>): Id -> bool {
    (id: Id) => IsSentFate(now, quiet, taken, throws, id)
  }

  predicate Fares(now: int, quiet: Quiet, taken: set<Id>, throws: set<Id>, fate: Fate, id: Id) {
    FateOf(now, quiet, id in taken, id in throws) == fate
  }

  /** The due rows that meet a given fate. */
  function Faring(now: int, quiet: Quiet, taken: set<Id>, throws: set<Id>, fate: Fate): Id -> bool {
    (id: Id) => Fares(now, quiet, taken, throws, fate, id)
  }

  /** The counters after the first `n` due rows. */
  function CountsUpTo(due: seq<Id>, n: nat, now: int, quiet: Quiet, taken: set<Id>, throws: set<Id>): SweepResult
    requires n <= |due|
  {
    SweepResult(|due|, Count(Faring(now, quiet, taken, throws, Swept), due[..n]),
                Count(Faring(now, quiet, taken, throws, Put), due[..n]),
                Count(Faring(now, quiet, taken, throws, Failing), due[..n]))
  }

  function Bump(c: SweepResult, fate: Fate): SweepResult {
    match fate
    case Put => c.(deferred := c.deferred + 1)
    case Taken => c
    case Swept => c.(swept := c.swept + 1)
    case Failing => c.(errors := c.errors + 1)
  }

  lemma CountNextFate(due: seq<Id>, n: nat, now: int, quiet: Quiet, taken: set<Id>, throws: set<Id>, fate: Fate)
    requires n < |due|
    ensures Count(Faring(now, quiet, taken, throws, fate), due[..n + 1])
         == Count(Faring(now, quiet, taken, throws, fate), due[..n])
          + (if Fares(now, quiet, taken, throws, fate, due[n]) then 1 else 0)
  {
    assert due[..n + 1][..n] == due[..n];
    CountLast(Faring(now, quiet, taken, throws, fate), due[..n + 1]);
  }

  lemma CountsNext(due: seq<Id>, n: nat, now: int, quiet: Quiet, taken: set<Id>, throws: set<Id>)
    requires n < |due|
    ensures CountsUpTo(due, n + 1, now, quiet, taken, throws)
         == Bump(CountsUpTo(due, n, now, quiet, taken, throws), FateOf(now, quiet, due[n] in taken, due[n] in throws))
  {
    CountNextFate(due, n, now, quiet, taken, throws, Swept);
    CountNextFate(due, n, now, quiet, taken, throws, Put);
    CountNextFate(due, n, now, quiet, taken, throws, Failing);
  }

  /** A tick reads the clock once; the turns of its rows come one after another from then on. */
  ghost predicate InTurn(due: seq<Id>, now: int, turnAt: Id -> int) {
    forall i, j :: 0 <= i <= j < |due| ==> now <= turnAt(due[i]) <= turnAt(due[j])
  }

  function Started(now: int, turnAt: Id -> int, throttles: Throttles): Id -> Execution {
    (id: Id) => Execution(id, now, turnAt(id), throttles)
  }

  /** The sends a tick starts, in order. */
  function SweepSends(due: seq<Id>, now: int, turnAt: Id -> int, quiet: Quiet, throttles: Throttles, taken: set<Id>,
                      throws: set<Id>)
    : seq<Execution>
  {
    Map(Started(now, turnAt, throttles), Filter(Sending(now, quiet, taken, throws), due))
  }

  /** One more due row: still untouched when its turn comes, it adds its own change and its own send. */
  lemma SweepNext(rows: map<Id, Row>, due: seq<Id>, n: nat, now: int, turnAt: Id -> int, quiet: Quiet,
                  throttles: Throttles, taken: set<Id>, throws: set<Id>)
    requires n < |due| && IsDueList(rows, now, due)
    ensures var before, id := SweptRows(rows, due[..n], now, quiet, taken, throws), due[n];
            && id in rows && before[id] == rows[id] && IsDue(rows[id], now)
            && SweptRows(rows, due[..n + 1], now, quiet, taken, throws)
            == before[id := AfterTurn(rows[id], now, quiet, id in taken, id in throws)]
    ensures SweepSends(due[..n + 1], now, turnAt, quiet, throttles, taken, throws)
         == SweepSends(due[..n], now, turnAt, quiet, throttles, taken, throws)
          + (if IsSentFate(now, quiet, taken, throws, due[n])
             then [Execution(due[n], now, turnAt(due[n]), throttles)] else [])
  {
    assert due[n] in due && due[n] !in due[..n];
    assert due[..n + 1] == due[..n] + [due[n]];
    FilterConcat(Sending(now, quiet, taken, throws), due[..n], [due[n]]);
  }

  /**
   * What a tick means for the due rows. In quiet hours nothing is sent, and each is deferred strictly later, to an
   * instant that is not quiet. Otherwise every due row that nobody took is sent, once, and closed.
   */
  lemma SweepMeans(rows: map<Id, Row>, due: seq<Id>, now: int, turnAt: Id -> int, quiet: Quiet, throttles: Throttles,
                   taken: set<Id>, throws: set<Id>)
    requires IsDueList(rows, now, due)
    ensures var after, sends := SweptRows(rows, due, now, quiet, taken, throws),
                                SweepSends(due, now, turnAt, quiet, throttles, taken, throws);
            && (IsQuiet(now, quiet) ==>
                  sends == [] && forall id :: id in due ==> IsDeferral(rows[id], after[id], now, quiet))
            && (!IsQuiet(now, quiet) ==>
                  && (forall id :: id in due && id !in taken ==>
                        && Execution(id, now, turnAt(id), throttles) in sends
                        && after[id] == rows[id].(status := if id in throws then Failed else Status.Sent))
                  && (forall id :: id in due && id in taken ==>
                        Execution(id, now, turnAt(id), throttles) !in sends && after[id] == rows[id].(status := Draft))
                  && (forall i, j :: 0 <= i < j < |sends| ==> sends[i] != sends[j]))
  {
    if IsQuiet(now, quiet) {
      NextAllowedIsLeast(now, quiet.start, quiet.end);
      FilterNone(Sending(now, quiet, taken, throws), due);
    } else {
      SendsOnce(due, now, turnAt, quiet, throttles, taken, throws);
    }
  }

  /**
   * What a tick counts: in quiet hours every due row is deferred; otherwise what nobody took is swept, or counted as an
   * error where the send threw.
   */
  lemma CountersMean(due: seq<Id>, now: int, quiet: Quiet, taken: set<Id>, throws: set<Id>)
    requires Distinct(due)
    ensures var c, all := CountsUpTo(due, |due|, now, quiet, taken, throws), Members(due);
            if IsQuiet(now, quiet) then c == SweepResult(|due|, 0, |due|, 0)
            else c == SweepResult(|due|, |all - taken - throws|, 0, |(all - taken) * throws|)
  {
    assert due[..|due|] == due;
    var all := Members(due);
    if IsQuiet(now, quiet) {
      FateCounts(due, now, quiet, taken, throws, Put, all);
      FateCounts(due, now, quiet, taken, throws, Swept, {});
      FateCounts(due, now, quiet, taken, throws, Failing, {});
      SetOfAll(due);
    } else {
      FateCounts(due, now, quiet, taken, throws, Put, {});
      FateCounts(due, now, quiet, taken, throws, Swept, all - taken - throws);
      FateCounts(due, now, quiet, taken, throws, Failing, (all - taken) * throws);
    }
  }

  lemma FateCounts(due: seq<Id>, now: int, quiet: Quiet, taken: set<Id>, throws: set<Id>, fate: Fate, ids: set<Id>)
    requires Distinct(due)
    requires forall id :: id in ids <==> id in due && Fares(now, quiet, taken, throws, fate, id)
    ensures Count(Faring(now, quiet, taken, throws, fate), due) == |ids|
  {
    CountIsSize(due, Faring(now, quiet, taken, throws, fate));
    assert ids == set id | id in due && Faring(now, quiet, taken, throws, fate)(id);
  }

  lemma InHeadOrTail(ids: seq<Id>)
    requires ids != []
    ensures forall x :: x in ids <==> x == ids[0] || x in ids[1..]
  {
    assert ids == [ids[0]] + ids[1..];
  }

  lemma {:induction false} CountIsSize(ids: seq<Id>, p: Id -> bool)
    requires Distinct(ids)
    ensures Count(p, ids) == |set id | id in ids && p(id)|
  {
    if ids != [] {
      CountIsSize(ids[1..], p);
      assert ids[0] !in ids[1..];
      var all, rest := set id | id in ids && p(id), set id | id in ids[1..] && p(id);
      InHeadOrTail(ids);
      if p(ids[0]) {
        assert all == rest + {ids[0]};
      } else {
        assert all == rest;
      }
    }
  }

  function Members(ids: seq<Id>): set<Id> {
    set id | id in ids
  }

  lemma MembersHead(ids: seq<Id>)
    requires ids != []
    ensures Members(ids) == {ids[0]} + Members(ids[1..])
  {
    InHeadOrTail(ids);
  }

  lemma {:induction false} SetOfAll(ids: seq<Id>)
    requires Distinct(ids)
    ensures |Members(ids)| == |ids|
  {
    if ids != [] {
      SetOfAll(ids[1..]);
      MembersHead(ids);
      assert ids[0] !in Members(ids[1..]);
    }
  }

  lemma {:induction false} FilterDistinct<T>(p: T -> bool, s: seq<T>)
    requires Distinct(s)
    ensures Distinct(Filter(p, s))
  {
    if s != [] {
      FilterDistinct(p, s[1..]);
      FilterMember(p, s[1..], s[0]);
      assert s[0] !in s[1..];
    }
  }

  lemma SendsOnce(due: seq<Id>, now: int, turnAt: Id -> int, quiet: Quiet, throttles: Throttles, taken: set<Id>,
                  throws: set<Id>)
    requires Distinct(due) && !IsQuiet(now, quiet)
    ensures var sends := SweepSends(due, now, turnAt, quiet, throttles, taken, throws);
            && (forall id :: id in due ==> (Execution(id, now, turnAt(id), throttles) in sends <==> id !in taken))
            && (forall i, j :: 0 <= i < j < |sends| ==> sends[i] != sends[j])
  {
    var p := Sending(now, quiet, taken, throws);
    var ids := Filter(p, due);
    FilterDistinct(p, due);
    var sends := SweepSends(due, now, turnAt, quiet, throttles, taken, throws);
    forall id | id in due
      ensures Execution(id, now, turnAt(id), throttles) in sends <==> id !in taken
    {
      FilterMember(p, due, id);
      if id !in taken {
        var k :| 0 <= k < |ids| && ids[k] == id;
        assert sends[k] == Execution(id, now, turnAt(id), throttles);
      }
    }
  }

  // ----- a tick that outlasts the allowed hours -----

  lemma {:induction false} FilterInTurn(p: Id -> bool, ids: seq<Id>, now: int, turnAt: Id -> int)
    requires InTurn(ids, now, turnAt)
    ensures InTurn(Filter(p, ids), now, turnAt)
  {
    if ids != [] {
      assert InTurn(ids[1..], now, turnAt);
      FilterInTurn(p, ids[1..], now, turnAt);
      var rest := Filter(p, ids[1..]);
      forall i | 0 <= i < |rest|
        ensures turnAt(ids[0]) <= turnAt(rest[i])
      {
        FilterMember(p, ids[1..], rest[i]);
        var k :| 0 <= k < |ids[1..]| && ids[1..][k] == rest[i];
        assert ids[k + 1] == rest[i];
      }
    }
  }

  /**
   * A tick's sends are judged by the clock it read at first. They start from then on, in order, so a later one may
   * start inside the quiet window: up to the end of the next window, exactly when the window has opened by then. A tick
   * that is over by the end of that window keeps clear of it if and only if its last send starts before it opens.
   */
  lemma StartsInQuietHoursIff(due: seq<Id>, now: int, turnAt: Id -> int, quiet: Quiet, throttles: Throttles,
                              taken: set<Id>, throws: set<Id>)
    requires InTurn(due, now, turnAt) && !IsQuiet(now, quiet) && quiet.start != quiet.end
    ensures var sends := SweepSends(due, now, turnAt, quiet, throttles, taken, throws);
            var opens := NextAllowedAt(now, quiet.start);
            var closes := NextAllowedAt(opens, quiet.end);
            && (forall e :: e in sends && e.at < closes ==> (IsQuiet(e.at, quiet) <==> opens <= e.at))
            && (sends != [] && sends[|sends| - 1].at < closes ==>
                  ((forall e :: e in sends ==> !IsQuiet(e.at, quiet)) <==> sends[|sends| - 1].at < opens))
  {
    var p := Sending(now, quiet, taken, throws);
    var sends := SweepSends(due, now, turnAt, quiet, throttles, taken, throws);
    FilterInTurn(p, due, now, turnAt);
    var closes := NextAllowedAt(NextAllowedAt(now, quiet.start), quiet.end);
    forall e | e in sends && e.at < closes
      ensures IsQuiet(e.at, quiet) <==> NextAllowedAt(now, quiet.start) <= e.at
    {
      QuietOnceOpened(now, e.at, quiet.start, quiet.end);
    }
    if sends != [] {
      assert sends[|sends| - 1] in sends;
      assert forall k :: 0 <= k < |sends| ==> sends[k].at <= sends[|sends| - 1].at;
    }
  }

  /** At the default window from 23:00 to 07:00: a tick at 22:59 with two due rows whose second send starts at 23:00. */
  lemma SecondSendStartsInQuietHours() returns (quiet: Quiet, now: int, turnAt: Id -> int, sends: seq<Execution>)
    ensures quiet == Quiet(23 * 60, 7 * 60) && !IsQuiet(now, quiet) && InTurn([0, 1], now, turnAt)
    ensures sends == SweepSends([0, 1], now, turnAt, quiet, Throttles(None, 0), {}, {})
    ensures |sends| == 2 && !IsQuiet(sends[0].at, quiet) && IsQuiet(sends[1].at, quiet)
  {
    quiet, now := Quiet(23 * 60, 7 * 60), MakeIstInstant(0, 22 * 60 + 59);
    InstantReadsBack(0, 22 * 60 + 59);
    InstantReadsBack(0, 23 * 60);
    turnAt := (id: Id) => if id == 0 then MakeIstInstant(0, 22 * 60 + 59) else MakeIstInstant(0, 23 * 60);
    sends := SweepSends([0, 1], now, turnAt, quiet, Throttles(None, 0), {}, {});
    FilterAll(Sending(now, quiet, {}, {}), [0, 1]);
  }

  class Sends {
    var rows: map<Id, Row>
    var executions: seq<Execution>
    const quiet: Quiet
    const throttles: Throttles

    /** No send was ever judged inside the quiet window and started, breaking ones apart; none started before that. */
    ghost predicate Valid()
      reads this
    {
      forall e :: e in executions ==>
        e.id in rows && e.now <= e.at && (IsQuiet(e.now, quiet) ==> rows[e.id].breaking)
    }

    constructor (quiet: Quiet, throttles: Throttles)
      ensures Valid() && rows == map[] && executions == []
      ensures this.quiet == quiet && this.throttles == throttles
    {
      this.quiet, this.throttles := quiet, throttles;
      rows, executions := map[], [];
    }

    /** The send loop, as far as this module is concerned. */
    method ExecuteCampaign(id: Id, now: int, at: int, under: Throttles, throws: bool)
      requires Valid() && id in rows && now <= at && (IsQuiet(now, quiet) ==> rows[id].breaking)
      modifies this
      ensures Valid()
      ensures executions == old(executions) + [Execution(id, now, at, under)]
      ensures rows == old(rows)[id := old(rows)[id].(status := if throws then Failed else Status.Sent)]
    {
      executions := executions + [Execution(id, now, at, under)];
      rows := rows[id := rows[id].(status := if throws then Failed else Status.Sent)];
    }

    /**
     * A new campaign: refused before it is stored when its URL is not allowed; put off to the next allowed instant in
     * quiet hours unless it is breaking; sent otherwise, with no throttle at all when forced.
     */
    method DispatchCampaign(id: Id, now: int, at: int, urlAllowed: bool, breaking: bool, force: bool, throws: bool)
      returns (r: Dispatched)
      requires Valid() && id !in rows && now <= at
      modifies this
      ensures Valid()
      ensures r.Rejected? <==> !urlAllowed
      ensures r.Rejected? ==> rows == old(rows) && executions == old(executions)
      ensures r.Deferred? <==> urlAllowed && !breaking && IsQuiet(now, quiet)
      ensures r.Deferred? ==> executions == old(executions) && now < r.scheduledAt && !IsQuiet(r.scheduledAt, quiet)
      ensures r.Deferred? ==> (forall t :: now <= t < r.scheduledAt ==> IsQuiet(t, quiet))
      ensures r.Deferred? ==> rows == old(rows)[id := Row(Scheduled, Some(r.scheduledAt), breaking)]
      ensures r.Sent? || r.Threw? ==>
                && executions
                == old(executions) + [Execution(id, now, at, if force then Throttles(None, 0) else throttles)]
                && rows == old(rows)[id := Row(if throws then Failed else Status.Sent, None, breaking)]
                && r == (if throws then Threw else Dispatched.Sent)
    {
      if !urlAllowed {
        return Rejected;
      }
      rows := rows[id := Row(Draft, None, breaking)];
      if !breaking && IsQuietHours(now, quiet.start, quiet.end) {
        var scheduledAt := NextAllowedAt(now, quiet.end);
        NextAllowedIsLeast(now, quiet.start, quiet.end);
        rows := rows[id := rows[id].(status := Scheduled, scheduledAt := Some(scheduledAt))];
        return Deferred(scheduledAt);
      }
      ExecuteCampaign(id, now, at, if force then Throttles(None, 0) else throttles, throws);
      return if throws then Threw else Dispatched.Sent;
    }

    /** One tick over the due rows. */
    method SweepScheduledCampaigns(now: int, due: seq<Id>, turnAt: Id -> int, taken: set<Id>, throws: set<Id>)
      returns (r: SweepResult)
      requires Valid() && IsDueList(rows, now, due) && InTurn(due, now, turnAt)
      modifies this
      ensures Valid()
      ensures rows == SweptRows(old(rows), due, now, quiet, taken, throws)
      ensures executions == old(executions) + SweepSends(due, now, turnAt, quiet, throttles, taken, throws)
      ensures var all := Members(due);
              if IsQuiet(now, quiet) then r == SweepResult(|due|, 0, |due|, 0)
              else r == SweepResult(|due|, |all - taken - throws|, 0, |(all - taken) * throws|)
      ensures r == SweepResult(|due|, Count(Faring(now, quiet, taken, throws, Swept), due),
                               Count(Faring(now, quiet, taken, throws, Put), due),
                               Count(Faring(now, quiet, taken, throws, Failing), due))
    {
      var counts := SweepResult(|due|, 0, 0, 0);
      for n := 0 to |due|
        invariant Valid()
        invariant rows == SweptRows(old(rows), due[..n], now, quiet, taken, throws)
        invariant executions == old(executions) + SweepSends(due[..n], now, turnAt, quiet, throttles, taken, throws)
        invariant counts == CountsUpTo(due, n, now, quiet, taken, throws)
      {
        SweepNext(old(rows), due, n, now, turnAt, quiet, throttles, taken, throws);
        CountsNext(due, n, now, quiet, taken, throws);
        var fate := SweepOne(due[n], now, turnAt(due[n]), due[n] in taken, due[n] in throws);
        counts := Bump(counts, fate);
      }
      assert due[..|due|] == due;
      CountersMean(due, now, quiet, taken, throws);
      r := counts;
    }

    /** One due row: deferred, lost to another actor, or claimed and sent. */
    method SweepOne(id: Id, now: int, at: int, taken: bool, throws: bool) returns (fate: Fate)
      requires Valid() && id in rows && IsDue(rows[id], now) && now <= at
      modifies this
      ensures Valid() && rows == old(rows)[id := AfterTurn(old(rows)[id], now, quiet, taken, throws)]
      ensures fate == FateOf(now, quiet, taken, throws)
      ensures executions
           == old(executions) + (if fate.Put? || fate.Taken? then [] else [Execution(id, now, at, throttles)])
    {
      if IsQuietHours(now, quiet.start, quiet.end) {
        rows := rows[id := rows[id].(scheduledAt := Some(NextAllowedAt(now, quiet.end)))];
        return Put;
      }
      if taken {
        rows := rows[id := rows[id].(status := Draft)];
      }
      if rows[id].status != Scheduled {
        return Taken;
      }
      rows := rows[id := rows[id].(status := Draft)];
      ExecuteCampaign(id, now, at, throttles, throws);
      return if throws then Failing else Swept;
    }
  }
}
