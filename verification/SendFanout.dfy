/**
 * The send loop (src/services/send.ts): N lanes share one index, every outcome goes into one shared buffer of
 * delivery rows, and a lane that finds 100 rows in the buffer swaps it out and writes it while the others go on.
 * Code between two `await`s is atomic, so a run is an interleaving of the four steps below.
 */
module SendFanout {
  import opened Prelude
  import opened Events
  import Cap
  import Campaigns

  const EVENT_BATCH: nat := 100

  /** What one push came to; a sender that throws counts as Errored. */
  datatype Outcome = Delivered | Gone(statusCode: int) | Errored(code: Option<int>, message: string)

  datatype Row =
    | SentRow(subscriber: SubscriberId)
    | FailedRow(subscriber: SubscriberId, reason: Outcome)

  function RowOf(sub: SubscriberId, outcome: Outcome): Row {
    if outcome.Delivered? then SentRow(sub) else FailedRow(sub, outcome)
  }

  /** Where a lane is suspended: before its next item, on the push, on the batch write, or returned. */
  datatype Lane = Idle | Pushing(sub: SubscriberId) | Writing(batch: seq<Row>) | Returned

  /**
   * The shared variables of one send. `table` holds the campaign's rows in the Event table and `log` the row of
   * every outcome so far, in order.
   */
  datatype Pool = Pool(
    idx: nat, lanes: seq<Lane>, pending: seq<Row>, table: seq<Row>,
    sent: nat, expired: nat, failed: nat, log: seq<Row>)

  datatype Step =
    | TakeItem(lane: nat)
    | Answer(lane: nat, outcome: Outcome)
    | WriteLands(lane: nat)
    | WriteFails(lane: nat)

  predicate Enabled(p: Pool, s: Step) {
    && s.lane < |p.lanes|
    && match s
       case TakeItem(l) => p.lanes[l].Idle?
       case Answer(l, _) => p.lanes[l].Pushing?
       case WriteLands(l) => p.lanes[l].Writing?
       case WriteFails(l) => p.lanes[l].Writing?
  }

  function Next(kept: seq<SubscriberId>, p: Pool, s: Step): Pool
    requires Enabled(p, s)
  {
    match s
    case TakeItem(l) =>
      p.(idx := p.idx + 1, lanes := p.lanes[l := if p.idx < |kept| then Pushing(kept[p.idx]) else Returned])
    case Answer(l, outcome) =>
      var row := RowOf(p.lanes[l].sub, outcome);
      var buffer := p.pending + [row];
      var full := |buffer| >= EVENT_BATCH;
      p.(lanes := p.lanes[l := if full then Writing(buffer) else Idle],
         pending := if full then [] else buffer,
         sent := p.sent + (if outcome.Delivered? then 1 else 0),
         expired := p.expired + (if outcome.Gone? then 1 else 0),
         failed := p.failed + (if outcome.Errored? then 1 else 0),
         log := p.log + [row])
    case WriteLands(l) => p.(lanes := p.lanes[l := Idle], table := p.table + p.lanes[l].batch)
    case WriteFails(l) => p.(lanes := p.lanes[l := Idle], pending := p.lanes[l].batch + p.pending)
  }

  function LaneCount(kept: seq<SubscriberId>, concurrency: nat): nat {
    Max(1, Min(concurrency, if |kept| == 0 then 1 else |kept|))
  }

  /** As many lanes as there is work for and as are allowed at once, and one when there is no work. */
  lemma LanesAreEnough(kept: seq<SubscriberId>, concurrency: nat)
    ensures kept == [] || concurrency == 0 ==> LaneCount(kept, concurrency) == 1
    ensures kept != [] && concurrency > 0 ==>
              && LaneCount(kept, concurrency) <= concurrency && LaneCount(kept, concurrency) <= |kept|
              && LaneCount(kept, concurrency) in {concurrency, |kept|}
  {
  }

  function Start(lanes: nat): Pool {
    Pool(0, seq(lanes, _ => Idle), [], [], 0, 0, 0, [])
  }

  // ----- what the lanes hold between them -----

  function Batch(lane: Lane): seq<Row> {
    if lane.Writing? then lane.batch else []
  }

  function Target(lane: Lane): seq<SubscriberId> {
    if lane.Pushing? then [lane.sub] else []
  }

  /** How many copies of a row the batches being written hold. */
  function InFlight(lanes: seq<Lane>, row: Row): nat {
    Sum(BatchCopies(row), lanes)
  }

  function BatchCopies(row: Row): Lane -> nat {
    (l: Lane) => Copies(Batch(l), row)
  }

  /** How many lanes are pushing to a subscriber. */
  function Pushes(lanes: seq<Lane>, sub: SubscriberId): nat {
    Sum(PushCopies(sub), lanes)
  }

  function PushCopies(sub: SubscriberId): Lane -> nat {
    (l: Lane) => Copies(Target(l), sub)
  }

  function ReturnedWeight(): Lane -> nat { (l: Lane) => if l.Returned? then 1 else 0 }
  function WritingWeight(): Lane -> nat { (l: Lane) => if l.Writing? then 1 else 0 }
  function BatchLength(): Lane -> nat { (l: Lane) => |Batch(l)| }

  /** Steps a lane still takes before it asks for its next item. */
  function StepsLeft(): Lane -> nat {
    (l: Lane) => if l.Pushing? then 2 else if l.Writing? then 1 else 0
  }

  function LanesReturned(lanes: seq<Lane>): nat {
    Sum(ReturnedWeight(), lanes)
  }

  function Subscribers(rows: seq<Row>): seq<SubscriberId> {
    Map((r: Row) => r.subscriber, rows)
  }

  function IsSentRow(): Row -> bool { (r: Row) => r.SentRow? }
  function IsGoneRow(): Row -> bool { (r: Row) => r.FailedRow? && r.reason.Gone? }
  function IsErrorRow(): Row -> bool { (r: Row) => r.FailedRow? && r.reason.Errored? }

  ghost predicate CountsAgree(p: Pool, rows: seq<Row>) {
    && p.sent == Count(IsSentRow(), rows)
    && p.expired == Count(IsGoneRow(), rows)
    && p.failed == Count(IsErrorRow(), rows)
    && p.sent + p.expired + p.failed == |rows|
  }

  function Taken(kept: seq<SubscriberId>, p: Pool): seq<SubscriberId> {
    kept[..Min(p.idx, |kept|)]
  }

  /** The rows written, pending and in flight are, copy for copy, the rows of the outcomes so far. */
  ghost predicate Conserved(p: Pool) {
    forall row :: Copies(p.table, row) + Copies(p.pending, row) + InFlight(p.lanes, row) == Copies(p.log, row)
  }

  /** The subscribers answered and being pushed to are, copy for copy, the items taken so far. */
  ghost predicate AnsweredOrPushing(kept: seq<SubscriberId>, p: Pool) {
    forall sub :: Copies(Subscribers(p.log), sub) + Pushes(p.lanes, sub) == Copies(Taken(kept, p), sub)
  }

  ghost predicate Inv(kept: seq<SubscriberId>, p: Pool) {
    && Conserved(p)
    && AnsweredOrPushing(kept, p)
    && CountsAgree(p, p.log)
    && p.idx == Min(p.idx, |kept|) + LanesReturned(p.lanes)
  }

  lemma StepConserves(kept: seq<SubscriberId>, p: Pool, s: Step)
    requires Conserved(p) && Enabled(p, s)
    ensures Conserved(Next(kept, p, s))
  {
    var n := Next(kept, p, s);
    var lane := p.lanes[s.lane];
    forall row
      ensures Copies(n.table, row) + Copies(n.pending, row) + InFlight(n.lanes, row) == Copies(n.log, row)
    {
      SumUpdate(BatchCopies(row), p.lanes, s.lane, n.lanes[s.lane]);
      match s
      case TakeItem(_) =>
      case Answer(_, outcome) =>
        CountConcat(Is(row), p.pending, [RowOf(lane.sub, outcome)]);
        CountConcat(Is(row), p.log, [RowOf(lane.sub, outcome)]);
      case WriteLands(_) => CountConcat(Is(row), p.table, lane.batch);
      case WriteFails(_) => CountConcat(Is(row), lane.batch, p.pending);
    }
  }

  lemma TakenNext(kept: seq<SubscriberId>, idx: nat, sub: SubscriberId)
    requires idx < |kept|
    ensures Copies(kept[..idx + 1], sub) == Copies(kept[..idx], sub) + (if kept[idx] == sub then 1 else 0)
  {
    assert kept[..idx + 1] == kept[..idx] + [kept[idx]];
    CountConcat(Is(sub), kept[..idx], [kept[idx]]);
  }

  lemma LogNext(log: seq<Row>, row: Row, sub: SubscriberId)
    ensures Copies(Subscribers(log + [row]), sub)
         == Copies(Subscribers(log), sub) + (if row.subscriber == sub then 1 else 0)
  {
    assert Subscribers(log + [row]) == Subscribers(log) + [row.subscriber];
    CountConcat(Is(sub), Subscribers(log), [row.subscriber]);
  }

  lemma StepKeepsTargets(kept: seq<SubscriberId>, p: Pool, s: Step)
    requires Inv(kept, p) && Enabled(p, s)
    ensures AnsweredOrPushing(kept, Next(kept, p, s))
  {
    var n := Next(kept, p, s);
    forall sub
      ensures Copies(Subscribers(n.log), sub) + Pushes(n.lanes, sub) == Copies(Taken(kept, n), sub)
    {
      SumUpdate(PushCopies(sub), p.lanes, s.lane, n.lanes[s.lane]);
      assert Copies(Subscribers(p.log), sub) + Pushes(p.lanes, sub) == Copies(Taken(kept, p), sub);
      if s.TakeItem? && p.idx < |kept| {
        TakenNext(kept, p.idx, sub);
      } else if s.Answer? {
        LogNext(p.log, RowOf(p.lanes[s.lane].sub, s.outcome), sub);
      }
    }
  }

  lemma StepKeepsInv(kept: seq<SubscriberId>, p: Pool, s: Step)
    requires Inv(kept, p) && Enabled(p, s)
    ensures Inv(kept, Next(kept, p, s))
  {
    StepConserves(kept, p, s);
    StepKeepsTargets(kept, p, s);
    SumUpdate(ReturnedWeight(), p.lanes, s.lane, Next(kept, p, s).lanes[s.lane]);
    if s.Answer? {
      var row := RowOf(p.lanes[s.lane].sub, s.outcome);
      CountConcat(IsSentRow(), p.log, [row]);
      CountConcat(IsGoneRow(), p.log, [row]);
      CountConcat(IsErrorRow(), p.log, [row]);
    }
  }

  // ----- whole runs -----

  ghost predicate IsRun(kept: seq<SubscriberId>, p: Pool, steps: seq<Step>, end: Pool)
    decreases |steps|
  {
    if steps == [] then end == p
    else Enabled(p, steps[0]) && IsRun(kept, Next(kept, p, steps[0]), steps[1..], end)
  }

  lemma StartInv(kept: seq<SubscriberId>, lanes: nat)
    ensures Inv(kept, Start(lanes))
  {
    var p := Start(lanes);
    forall row {
      SumZero(BatchCopies(row), p.lanes);
    }
    forall sub {
      SumZero(PushCopies(sub), p.lanes);
    }
    SumZero(ReturnedWeight(), p.lanes);
  }

  /** In every interleaving, whatever mid-send writes fail: nothing is lost or duplicated, and the counters agree. */
  lemma {:induction false} RunKeepsInv(kept: seq<SubscriberId>, p: Pool, steps: seq<Step>, end: Pool)
    requires Inv(kept, p) && IsRun(kept, p, steps, end)
    ensures Inv(kept, end)
    decreases |steps|
  {
    if steps != [] {
      StepKeepsInv(kept, p, steps[0]);
      RunKeepsInv(kept, Next(kept, p, steps[0]), steps[1..], end);
    }
  }

  /** Rows of outcomes that a crash would lose: those in the buffer and in the batches being written. */
  function Unwritten(p: Pool): nat {
    |p.pending| + Sum(BatchLength(), p.lanes)
  }

  ghost predicate Bounded(p: Pool) {
    && |p.log| == |p.table| + Unwritten(p)
    && |p.pending| < EVENT_BATCH
    && forall l :: 0 <= l < |p.lanes| && p.lanes[l].Writing? ==> |p.lanes[l].batch| == EVENT_BATCH
  }

  lemma {:induction false} RunStaysBounded(kept: seq<SubscriberId>, p: Pool, steps: seq<Step>, end: Pool)
    requires Bounded(p) && IsRun(kept, p, steps, end)
    requires forall i :: 0 <= i < |steps| ==> !steps[i].WriteFails?
    ensures Bounded(end)
    decreases |steps|
  {
    if steps != [] {
      SumUpdate(BatchLength(), p.lanes, steps[0].lane, Next(kept, p, steps[0]).lanes[steps[0].lane]);
      RunStaysBounded(kept, Next(kept, p, steps[0]), steps[1..], end);
    }
  }

  lemma {:induction false} BatchesAreFull(lanes: seq<Lane>)
    requires forall l :: 0 <= l < |lanes| && lanes[l].Writing? ==> |lanes[l].batch| == EVENT_BATCH
    ensures Sum(BatchLength(), lanes) == EVENT_BATCH * Sum(WritingWeight(), lanes)
  {
    if lanes != [] {
      BatchesAreFull(lanes[1..]);
    }
  }

  function WritesInFlight(p: Pool): nat {
    Sum(WritingWeight(), p.lanes)
  }

  /**
   * With no write failure, a crash loses exactly the buffered rows — at most 99 — and 100 for each write in flight. So
   * it loses at most one batch, as the comment in the source says, if and only if no write is in flight, or a single
   * one and nothing is buffered.
   */
  lemma CrashLosesAtMost(kept: seq<SubscriberId>, lanes: nat, steps: seq<Step>, end: Pool)
    requires IsRun(kept, Start(lanes), steps, end)
    requires forall i :: 0 <= i < |steps| ==> !steps[i].WriteFails?
    ensures |end.log| - |end.table| == |end.pending| + EVENT_BATCH * WritesInFlight(end)
    ensures |end.pending| <= EVENT_BATCH - 1
    ensures |end.log| - |end.table| <= EVENT_BATCH <==>
              WritesInFlight(end) == 0 || (WritesInFlight(end) == 1 && end.pending == [])
  {
    StartBounded(lanes);
    RunStaysBounded(kept, Start(lanes), steps, end);
    BatchesAreFull(end.lanes);
    LossIff(|end.pending|, WritesInFlight(end));
  }

  lemma StartBounded(lanes: nat)
    ensures Bounded(Start(lanes))
  {
    SumZero(BatchLength(), Start(lanes).lanes);
  }

  lemma LossIff(pending: nat, writing: nat)
    requires pending < EVENT_BATCH
    ensures pending + EVENT_BATCH * writing <= EVENT_BATCH <==> writing == 0 || (writing == 1 && pending == 0)
  {
    if writing >= 2 {
      assert EVENT_BATCH * writing >= EVENT_BATCH * 2;
    }
  }

  /** `end` is reached from `p` without a write failure. */
  ghost predicate Reaches(kept: seq<SubscriberId>, p: Pool, steps: seq<Step>, end: Pool) {
    IsRun(kept, p, steps, end) && forall i :: 0 <= i < |steps| ==> !steps[i].WriteFails?
  }

  lemma {:induction false} RunsJoin(kept: seq<SubscriberId>, p: Pool, a: seq<Step>, mid: Pool, b: seq<Step>, end: Pool)
    requires Reaches(kept, p, a, mid) && Reaches(kept, mid, b, end)
    ensures Reaches(kept, p, a + b, end)
    decreases |a|
  {
    if a == [] {
      assert a + b == b;
    } else {
      assert (a + b)[0] == a[0] && (a + b)[1..] == a[1..] + b;
      RunsJoin(kept, Next(kept, p, a[0]), a[1..], mid, b, end);
    }
  }

  /** One lane takes the next item and delivers it. */
  lemma PushOne(kept: seq<SubscriberId>, p: Pool, l: nat) returns (steps: seq<Step>, end: Pool)
    requires l < |p.lanes| && p.lanes[l].Idle? && p.idx < |kept|
    ensures Reaches(kept, p, steps, end)
    ensures end == Next(kept, Next(kept, p, TakeItem(l)), Answer(l, Delivered))
  {
    var mid := Next(kept, p, TakeItem(l));
    end := Next(kept, mid, Answer(l, Delivered));
    assert Reaches(kept, p, [TakeItem(l)], mid) by {
      assert [TakeItem(l)][1..] == [];
    }
    assert Reaches(kept, mid, [Answer(l, Delivered)], end) by {
      assert [Answer(l, Delivered)][1..] == [];
    }
    RunsJoin(kept, p, [TakeItem(l)], mid, [Answer(l, Delivered)], end);
    steps := [TakeItem(l)] + [Answer(l, Delivered)];
  }

  /** One lane delivers `n` items whose rows stay in the buffer. */
  lemma {:induction false} FillBuffer(kept: seq<SubscriberId>, p: Pool, l: nat, n: nat)
    returns (steps: seq<Step>, end: Pool)
    requires l < |p.lanes| && p.lanes[l].Idle? && p.idx + n <= |kept| && |p.pending| + n < EVENT_BATCH
    ensures Reaches(kept, p, steps, end)
    ensures end.idx == p.idx + n && end.lanes == p.lanes && end.table == p.table
    ensures |end.pending| == |p.pending| + n && |end.log| == |p.log| + n
    decreases n
  {
    if n == 0 {
      steps, end := [], p;
    } else {
      var first, mid := PushOne(kept, p, l);
      assert mid.lanes == p.lanes;
      var rest;
      rest, end := FillBuffer(kept, mid, l, n - 1);
      RunsJoin(kept, p, first, mid, rest, end);
      steps := first + rest;
    }
  }

  /** Two lanes are enough to lose almost two batches: one is being written while the other has filled the buffer. */
  lemma CrashCanLose199() returns (kept: seq<SubscriberId>, steps: seq<Step>, end: Pool)
    ensures |kept| == 199 && Distinct(kept) && LaneCount(kept, 2) == 2
    ensures Reaches(kept, Start(2), steps, end) && |end.log| - |end.table| == 199
  {
    kept := seq(199, i => i);
    var a, p := FillBuffer(kept, Start(2), 0, EVENT_BATCH - 1);
    var b, q := PushOne(kept, p, 0);
    assert q.lanes[1].Idle? && q.pending == [] && |q.log| == EVENT_BATCH && q.table == [];
    var c;
    c, end := FillBuffer(kept, q, 1, EVENT_BATCH - 1);
    RunsJoin(kept, Start(2), a, p, b, q);
    RunsJoin(kept, Start(2), a + b, q, c, end);
    steps := a + b + c;
  }

  /** Steps left at most: each item costs at most three, and each lane one more to find the index past the end. */
  function Rank(kept: seq<SubscriberId>, p: Pool): int {
    3 * (|kept| + |p.lanes| - p.idx) + Sum(StepsLeft(), p.lanes)
  }

  lemma {:induction false} ReturnedAtMost(lanes: seq<Lane>)
    ensures LanesReturned(lanes) <= |lanes|
  {
    if lanes != [] {
      ReturnedAtMost(lanes[1..]);
    }
  }

  /** Every step brings the send closer to its end, so no schedule of the lanes can keep it from finishing. */
  lemma StepLowersRank(kept: seq<SubscriberId>, p: Pool, s: Step)
    requires Inv(kept, p) && Enabled(p, s)
    ensures 0 <= Rank(kept, Next(kept, p, s)) < Rank(kept, p)
  {
    var n := Next(kept, p, s);
    SumUpdate(StepsLeft(), p.lanes, s.lane, n.lanes[s.lane]);
    StepKeepsInv(kept, p, s);
    ReturnedAtMost(n.lanes);
  }

  /** Once every lane has returned, the rows written and pending are one per kept subscriber. */
  lemma AllReturned(kept: seq<SubscriberId>, p: Pool)
    requires Inv(kept, p) && 0 < |p.lanes|
    requires forall l :: 0 <= l < |p.lanes| ==> p.lanes[l].Returned?
    ensures multiset(Subscribers(p.table + p.pending)) == multiset(kept)
    ensures CountsAgree(p, p.table + p.pending)
    ensures p.sent + p.expired + p.failed == |kept|
  {
    var rows := p.table + p.pending;
    assert Taken(kept, p) == kept by {
      SumUpdate(ReturnedWeight(), p.lanes, 0, Idle);
      assert p.lanes[0].Returned?;
    }
    forall row
      ensures Copies(rows, row) == Copies(p.log, row)
    {
      SumZero(BatchCopies(row), p.lanes);
      CountConcat(Is(row), p.table, p.pending);
    }
    SameCopiesSameMultiset(rows, p.log);
    CountPermutation(IsSentRow(), rows, p.log);
    CountPermutation(IsGoneRow(), rows, p.log);
    CountPermutation(IsErrorRow(), rows, p.log);
    forall sub
      ensures Copies(Subscribers(rows), sub) == Copies(kept, sub)
    {
      SumZero(PushCopies(sub), p.lanes);
      CopiesOfSubscriber(rows, sub);
      CopiesOfSubscriber(p.log, sub);
      CountPermutation(IsFor(sub), rows, p.log);
    }
    SameCopiesSameMultiset(Subscribers(rows), kept);
    assert |rows| == |multiset(rows)| == |p.log|;
    assert |Subscribers(rows)| == |multiset(Subscribers(rows))| == |multiset(kept)|;
  }

  function IsFor(sub: SubscriberId): Row -> bool { (r: Row) => r.subscriber == sub }

  lemma {:induction false} CopiesOfSubscriber(rows: seq<Row>, sub: SubscriberId)
    ensures Copies(Subscribers(rows), sub) == Count(IsFor(sub), rows)
  {
    if rows != [] {
      assert Subscribers(rows)[1..] == Subscribers(rows[1..]);
      CopiesOfSubscriber(rows[1..], sub);
    }
  }

  // ----- executeCampaign -----

  datatype ExecuteResult =
    | Executed(sent: nat, capped: nat, cooled: nat, expiredPruned: nat, failed: nat)
    | Threw

  /** One run of the send loop: the variables its lanes share, and the campaign's delivery rows in the table. */
  class Fanout {
    const kept: seq<SubscriberId>
    var idx: nat
    var lanes: seq<Lane>
    var pending: seq<Row>
    var table: seq<Row>
    var sent: nat
    var expiredPruned: nat
    var failed: nat
    ghost var log: seq<Row>

    ghost function View(): Pool
      reads this
    {
      Pool(idx, lanes, pending, table, sent, expiredPruned, failed, log)
    }

    constructor (kept: seq<SubscriberId>, concurrency: nat)
      ensures this.kept == kept
      ensures View() == Start(LaneCount(kept, concurrency))
    {
      this.kept := kept;
      idx, pending, table := 0, [], [];
      sent, expiredPruned, failed := 0, 0, 0;
      lanes := seq(LaneCount(kept, concurrency), _ => Idle);
      log := [];
    }

    /** `const i = idx++`, and on to the next push or out of the loop. */
    method Take(l: nat)
      requires Enabled(View(), TakeItem(l))
      modifies this
      ensures View() == Next(kept, old(View()), TakeItem(l))
    {
      var i := idx;
      idx := idx + 1;
      lanes := lanes[l := if i < |kept| then Pushing(kept[i]) else Returned];
    }

    /** The push is answered: count it, buffer its row, and swap the buffer out when it is full. */
    method Record(l: nat, outcome: Outcome)
      requires Enabled(View(), Answer(l, outcome))
      modifies this
      ensures View() == Next(kept, old(View()), Answer(l, outcome))
    {
      var sub := lanes[l].sub;
      if outcome.Delivered? {
        sent := sent + 1;
        pending := pending + [SentRow(sub)];
      } else if outcome.Gone? {
        expiredPruned := expiredPruned + 1;
        pending := pending + [FailedRow(sub, outcome)];
      } else {
        failed := failed + 1;
        pending := pending + [FailedRow(sub, outcome)];
      }
      log := log + [RowOf(sub, outcome)];
      if |pending| >= EVENT_BATCH {
        var batch := pending;
        pending := [];
        lanes := lanes[l := Writing(batch)];
      } else {
        lanes := lanes[l := Idle];
      }
    }

    /** The batch write returns; a failed one puts its rows back in front of what other lanes added meanwhile. */
    method FinishWrite(l: nat, landed: bool)
      requires l < |lanes| && lanes[l].Writing?
      modifies this
      ensures View() == Next(kept, old(View()), if landed then WriteLands(l) else WriteFails(l))
    {
      var batch := lanes[l].batch;
      if landed {
        table := table + batch;
      } else {
        pending := batch + pending;
      }
      lanes := lanes[l := Idle];
    }

    /** `workerPool`, under an arbitrary scheduler, arbitrary push outcomes and arbitrary mid-send write failures. */
    method RunLanes()
      requires View() == Start(|lanes|) && lanes != []
      modifies this
      ensures multiset(Subscribers(table + pending)) == multiset(kept)
      ensures CountsAgree(View(), table + pending)
      ensures sent + expiredPruned + failed == |kept|
    {
      StartInv(kept, |lanes|);
      while exists l :: 0 <= l < |lanes| && !lanes[l].Returned?
        invariant Inv(kept, View()) && |lanes| == old(|lanes|)
        decreases Rank(kept, View())
      {
        var l :| 0 <= l < |lanes| && !lanes[l].Returned?;
        ghost var before := View();
        ghost var step;
        match lanes[l] {
          case Idle =>
            step := TakeItem(l);
            Take(l);
          case Pushing(_) =>
            var outcome: Outcome := *;
            step := Answer(l, outcome);
            Record(l, outcome);
          case Writing(_) =>
            var landed: bool := *;
            step := if landed then WriteLands(l) else WriteFails(l);
            FinishWrite(l, landed);
        }
        StepKeepsInv(kept, before, step);
        StepLowersRank(kept, before, step);
      }
      AllReturned(kept, View());
    }

    /** The last flush, after every lane is done: the one whose failure throws. */
    method Flush(lands: bool) returns (ok: bool, ghost unwritten: seq<Row>)
      modifies this
      ensures lands ==> ok
      ensures ok ==> unwritten == []
      ensures table + unwritten == old(table + pending)
      ensures sent == old(sent) && expiredPruned == old(expiredPruned) && failed == old(failed)
    {
      var batch := pending;
      if |batch| == 0 {
        return true, [];
      }
      pending := [];
      if lands {
        table := table + batch;
        return true, [];
      }
      return false, batch;
    }
  }

  /** The fan-out and its last flush: one row per kept subscriber, all of them written unless that flush fails. */
  method SendToAll(kept: seq<SubscriberId>, concurrency: nat, flushLands: bool)
    returns (flushed: bool, sent: nat, expiredPruned: nat, failed: nat, table: seq<Row>, ghost unwritten: seq<Row>)
    ensures flushLands ==> flushed
    ensures flushed ==> unwritten == []
    ensures multiset(Subscribers(table + unwritten)) == multiset(kept)
    ensures sent == Count(IsSentRow(), table + unwritten)
    ensures expiredPruned == Count(IsGoneRow(), table + unwritten)
    ensures failed == Count(IsErrorRow(), table + unwritten)
    ensures sent + expiredPruned + failed == |kept|
  {
    var send := new Fanout(kept, concurrency);
    send.RunLanes();
    flushed, unwritten := send.Flush(flushLands);
    table := send.table;
    sent, expiredPruned, failed := send.sent, send.expiredPruned, send.failed;
  }

  /**
   * Runs the send for one campaign row. `readsWork` says whether the subscribers and the cap rows can be read;
   * `flushLands`, `sentLands` and `failedLands` whether the last flush, the update to Sent and the update to Failed
   * succeed. If it returns, each kept subscriber has exactly one row and the counters count those rows; if it throws,
   * the row is Failed unless even that update failed.
   */
  method ExecuteCampaign(
      before: Campaigns.Status, urlAllowed: bool, readsWork: bool, candidates: seq<SubscriberId>, cap: Option<nat>,
      now: int, minGapMs: int, concurrency: nat, events: EventTable, flushLands: bool, sentLands: bool,
      failedLands: bool)
    returns (result: ExecuteResult, status: Campaigns.Status, table: seq<Row>)
    ensures result.Executed? ==>
      && status == Campaigns.Sent
      && multiset(Subscribers(table)) == multiset(Cap.Split(events, cap, now, minGapMs, Cap.Kept, candidates))
      && result.sent == Count(IsSentRow(), table)
      && result.expiredPruned == Count(IsGoneRow(), table)
      && result.failed == Count(IsErrorRow(), table)
      && result.capped == |Cap.Split(events, cap, now, minGapMs, Cap.Capped, candidates)|
      && result.cooled == |Cap.Split(events, cap, now, minGapMs, Cap.Cooled, candidates)|
      && result.sent + result.expiredPruned + result.failed + result.capped + result.cooled == |candidates|
    ensures result.Threw? ==> status == if failedLands then Campaigns.Failed else before
    ensures multiset(Subscribers(table)) <= multiset(Cap.Split(events, cap, now, minGapMs, Cap.Kept, candidates))
    ensures !urlAllowed || !readsWork ==> result.Threw? && table == []
    ensures urlAllowed && readsWork && flushLands && sentLands ==> result.Executed?
  {
    status, table := before, [];
    if urlAllowed && readsWork {
      var kept, capped, cooled := Cap.FilterByCap(candidates, cap, now, minGapMs, events);
      PartitionSizes(kept, capped, cooled, candidates);
      var flushed, sent, expiredPruned, failed;
      ghost var unwritten;
      flushed, sent, expiredPruned, failed, table, unwritten := SendToAll(kept, concurrency, flushLands);
      assert Subscribers(table + unwritten) == Subscribers(table) + Subscribers(unwritten);
      if flushed && sentLands {
        assert table + unwritten == table;
        return Executed(sent, |capped|, |cooled|, expiredPruned, failed), Campaigns.Sent, table;
      }
    }
    if failedLands {
      status := Campaigns.Failed;
    }
    result := Threw;
  }

  lemma PartitionSizes<T>(a: seq<T>, b: seq<T>, c: seq<T>, all: seq<T>)
    requires multiset(a) + multiset(b) + multiset(c) == multiset(all)
    ensures |a| + |b| + |c| == |all|
  {
    assert |multiset(a) + multiset(b) + multiset(c)| == |multiset(all)|;
  }
}
