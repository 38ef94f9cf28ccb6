/**
 * Webhook deliveries from the CMS, after the signature and the event id have been checked (src/routes/cmsEvents.ts,
 * steps 7 to 9). Each event id has at most one receipt. Handlers of several deliveries — retries and verbatim copies
 * of one event included — run concurrently; every database call and every transaction is one step, and a handler may
 * fail, lose its answer or crash between any two of them.
 */
module WebhookReceipts {
  import opened Prelude

  type EventId = nat
  type Pid = nat

  /** What the body parses to. */
  datatype Body = Malformed | UnknownType | Snapshot(account: nat)

  datatype Delivery = Delivery(id: EventId, ts: int, body: Body)

  datatype Outcome = WasInvalid | WasUnknownType | WasApplied

  datatype Receipt = Receipt(signedTs: int, outcome: Outcome)

  datatype Replay = New | ExactReplay | Retry

  function ClassifyWebhookReplay(stored: Option<int>, ts: int): Replay {
    if stored.None? then New else if stored.value == ts then ExactReplay else Retry
  }

  /** Where one handler is suspended. `again` marks the look-up that follows a unique violation. */
  datatype Handler =
    | Idle
    | Looking(d: Delivery, again: bool)
    | Updating(d: Delivery)
    | Storing(d: Delivery)
    | Answering(d: Delivery, status: nat)

  /** A timestamp the store recorded for an event, or that was answered 2xx. */
  datatype Mark = Mark(id: EventId, ts: int)

  /**
   * `applied` lists the committed snapshots in commit order; `marks` and `applied` are what the run has shown so far.
   */
  datatype State = State(
    receipts: map<EventId, Receipt>, applied: seq<Delivery>, marks: seq<Mark>, handlers: map<Pid, Handler>)

  datatype Step =
    | Arrive(p: Pid, d: Delivery)
    | LookUp(p: Pid)
    | Update(p: Pid, acknowledged: bool)
    | Store(p: Pid, acknowledged: bool)
    | Conflict(p: Pid)
    | Fail(p: Pid)
    | Answer(p: Pid)
    | Crash(p: Pid)

  function HandlerOf(s: State, p: Pid): Handler {
    if p in s.handlers then s.handlers[p] else Idle
  }

  function Stored(s: State, id: EventId): Option<int> {
    if id in s.receipts then Some(s.receipts[id].signedTs) else None
  }

  predicate Enabled(s: State, e: Step) {
    match e
    case Arrive(p, _) => HandlerOf(s, p).Idle?
    case LookUp(p) => HandlerOf(s, p).Looking?
    case Update(p, _) => HandlerOf(s, p).Updating?
    case Store(p, _) => HandlerOf(s, p).Storing?
    case Conflict(p) => HandlerOf(s, p).Storing?
    case Fail(p) => HandlerOf(s, p).Looking? || HandlerOf(s, p).Updating? || HandlerOf(s, p).Storing?
    case Answer(p) => HandlerOf(s, p).Answering?
    case Crash(_) => true
  }

  function Moved(s: State, p: Pid, h: Handler): State {
    s.(handlers := s.handlers[p := h])
  }

  function OutcomeOf(body: Body): Outcome {
    match body case Malformed => WasInvalid case UnknownType => WasUnknownType case Snapshot(_) => WasApplied
  }

  function StatusOf(body: Body): nat {
    if body.Malformed? then 422 else 200
  }

  function Next(s: State, e: Step): State
    requires Enabled(s, e)
  {
    match e
    case Arrive(p, d) => Moved(s, p, Looking(d, false))
    case LookUp(p) =>
      var h := HandlerOf(s, p);
      Moved(s, p,
            match ClassifyWebhookReplay(Stored(s, h.d.id), h.d.ts)
            case New => if h.again then Answering(h.d, 500) else Storing(h.d)
            case ExactReplay => Answering(h.d, 401)
            case Retry => Updating(h.d))
    case Update(p, acknowledged) =>
      var d := HandlerOf(s, p).d;
      var moved := Moved(s, p, Answering(d, if acknowledged then 200 else 500));
      if d.id in s.receipts && s.receipts[d.id].signedTs < d.ts
      then moved.(receipts := s.receipts[d.id := s.receipts[d.id].(signedTs := d.ts)],
                  marks := s.marks + [Mark(d.id, d.ts)])
      else moved
    case Store(p, acknowledged) =>
      var d := HandlerOf(s, p).d;
      if d.id in s.receipts then Moved(s, p, Looking(d, true))
      else State(s.receipts[d.id := Receipt(d.ts, OutcomeOf(d.body))],
                 if d.body.Snapshot? then s.applied + [d] else s.applied,
                 s.marks + [Mark(d.id, d.ts)],
                 s.handlers[p := Answering(d, if acknowledged then StatusOf(d.body) else 500)])
    // a unique violation on a row other than the receipt: everything is rolled back and the receipt looked up again
    case Conflict(p) => Moved(s, p, Looking(HandlerOf(s, p).d, true))
    // any other storage failure: everything is rolled back
    case Fail(p) => Moved(s, p, Answering(HandlerOf(s, p).d, 500))
    case Answer(p) =>
      var h := HandlerOf(s, p);
      Moved(if h.status == 200 then s.(marks := s.marks + [Mark(h.d.id, h.d.ts)]) else s, p, Idle)
    case Crash(p) => Moved(s, p, Idle)
  }

  // ----- the invariant -----

  predicate IsFor(d: Delivery, id: EventId) {
    d.id == id
  }

  function For(id: EventId): Delivery -> bool {
    d => IsFor(d, id)
  }

  /** How often the snapshot of event `id` was applied. */
  function TimesApplied(s: State, id: EventId): nat {
    Count(For(id), s.applied)
  }

  ghost predicate MarksOk(s: State) {
    && (forall m :: m in s.marks ==> m.id in s.receipts && m.ts <= s.receipts[m.id].signedTs)
    && (forall id :: id in s.receipts ==> Mark(id, s.receipts[id].signedTs) in s.marks)
  }

  /** What the receipts say about how often an event was applied. */
  function Due(receipts: map<EventId, Receipt>, id: EventId): nat {
    if id in receipts && receipts[id].outcome.WasApplied? then 1 else 0
  }

  /** The receipt says whether the event was applied, and without a receipt it was not. */
  ghost predicate AppliedOk(s: State) {
    forall id :: TimesApplied(s, id) == Due(s.receipts, id)
  }

  /** A handler about to answer 200, or to record a retry, has seen a receipt at least as late as needed. */
  predicate HandlerOk(receipts: map<EventId, Receipt>, h: Handler) {
    match h
    case Updating(d) => d.id in receipts
    case Answering(d, status) =>
      && (status == 200 ==> d.id in receipts && d.ts <= receipts[d.id].signedTs)
      && (status == 401 ==> d.id in receipts)
    case _ => true
  }

  ghost predicate Inv(s: State) {
    && MarksOk(s) && AppliedOk(s)
    && forall p :: p in s.handlers ==> HandlerOk(s.receipts, s.handlers[p])
  }

  const START := State(map[], [], [], map[])

  /** Receipts only appear and their timestamps only grow: every handler's knowledge stays true. */
  predicate Grows(a: map<EventId, Receipt>, b: map<EventId, Receipt>) {
    forall id :: id in a ==> id in b && a[id].signedTs <= b[id].signedTs && a[id].outcome == b[id].outcome
  }

  lemma StepGrows(s: State, e: Step)
    requires Enabled(s, e)
    ensures Grows(s.receipts, Next(s, e).receipts)
    ensures s.applied <= Next(s, e).applied && s.marks <= Next(s, e).marks
  {
  }

  lemma HandlersStayOk(s: State, e: Step)
    requires Inv(s) && Enabled(s, e)
    ensures forall p :: p in Next(s, e).handlers ==> HandlerOk(Next(s, e).receipts, Next(s, e).handlers[p])
  {
    StepGrows(s, e);
    forall p | p in Next(s, e).handlers
      ensures HandlerOk(Next(s, e).receipts, Next(s, e).handlers[p])
    {
      if p in s.handlers {
        assert HandlerOk(s.receipts, s.handlers[p]);
      }
    }
  }

  lemma MarksStayOk(s: State, e: Step)
    requires Inv(s) && Enabled(s, e)
    ensures MarksOk(Next(s, e))
  {
    if e.Answer? {
      assert HandlerOk(s.receipts, s.handlers[e.p]);
    }
    var n := Next(s, e);
    forall id | id in n.receipts
      ensures Mark(id, n.receipts[id].signedTs) in n.marks
    {
      if id in s.receipts && n.receipts[id].signedTs == s.receipts[id].signedTs {
        assert Mark(id, s.receipts[id].signedTs) in s.marks;
      }
    }
  }

  /** Storing a receipt and, for a snapshot, applying it keep the two in step. */
  lemma StoreAppliesOnce(s: State, d: Delivery, id: EventId)
    requires TimesApplied(s, id) == Due(s.receipts, id) && d.id !in s.receipts
    ensures Count(For(id), if d.body.Snapshot? then s.applied + [d] else s.applied)
         == Due(s.receipts[d.id := Receipt(d.ts, OutcomeOf(d.body))], id)
  {
    CountConcat(For(id), s.applied, [d]);
  }

  /** Any other step leaves both as they are. */
  lemma OthersApplyNothing(s: State, e: Step, id: EventId)
    requires Enabled(s, e) && !(e.Store? && HandlerOf(s, e.p).d.id !in s.receipts)
    ensures Next(s, e).applied == s.applied && Due(Next(s, e).receipts, id) == Due(s.receipts, id)
  {
  }

  lemma AppliedStaysOk(s: State, e: Step)
    requires Inv(s) && Enabled(s, e)
    ensures AppliedOk(Next(s, e))
  {
    forall id
      ensures TimesApplied(Next(s, e), id) == Due(Next(s, e).receipts, id)
    {
      assert TimesApplied(s, id) == Due(s.receipts, id);
      if e.Store? && HandlerOf(s, e.p).d.id !in s.receipts {
        StoreAppliesOnce(s, HandlerOf(s, e.p).d, id);
      } else {
        OthersApplyNothing(s, e, id);
      }
    }
  }

  lemma StepKeepsInv(s: State, e: Step)
    requires Inv(s) && Enabled(s, e)
    ensures Inv(Next(s, e))
  {
    HandlersStayOk(s, e);
    MarksStayOk(s, e);
    AppliedStaysOk(s, e);
  }

  // ----- whole runs -----

  ghost predicate IsRun(s: State, steps: seq<Step>, end: State)
    decreases |steps|
  {
    if steps == [] then end == s
    else Enabled(s, steps[0]) && IsRun(Next(s, steps[0]), steps[1..], end)
  }

  lemma {:induction false} RunKeepsInv(s: State, steps: seq<Step>, end: State)
    requires Inv(s) && IsRun(s, steps, end)
    ensures Inv(end)
    ensures Grows(s.receipts, end.receipts) && s.applied <= end.applied && s.marks <= end.marks
    decreases |steps|
  {
    if steps != [] {
      StepKeepsInv(s, steps[0]);
      StepGrows(s, steps[0]);
      RunKeepsInv(Next(s, steps[0]), steps[1..], end);
    }
  }

  /**
   * However the deliveries interleave, fail or lose their answers: an event is applied at most once, and exactly once
   * when its receipt says so; an event without a receipt was never applied. Its stored timestamp is the latest one
   * ever recorded or answered 2xx for it.
   */
  lemma AppliedAtMostOnce(steps: seq<Step>, end: State, id: EventId)
    requires IsRun(START, steps, end)
    ensures TimesApplied(end, id) <= 1
    ensures TimesApplied(end, id) == 1 <==> id in end.receipts && end.receipts[id].outcome.WasApplied?
    ensures id in end.receipts ==> Mark(id, end.receipts[id].signedTs) in end.marks
    ensures forall m :: m in end.marks && m.id == id ==> id in end.receipts && m.ts <= end.receipts[id].signedTs
  {
    RunKeepsInv(START, steps, end);
    assert TimesApplied(end, id) == Due(end.receipts, id);
  }

  /** Stored timestamps never go back, and no receipt disappears or changes its outcome. */
  lemma TimestampsNeverDecrease(s: State, steps: seq<Step>, end: State, id: EventId)
    requires Inv(s) && IsRun(s, steps, end) && id in s.receipts
    ensures id in end.receipts && s.receipts[id].signedTs <= end.receipts[id].signedTs
    ensures end.receipts[id].outcome == s.receipts[id].outcome
    ensures TimesApplied(end, id) == TimesApplied(s, id)
  {
    RunKeepsInv(s, steps, end);
    assert AppliedOk(s) && AppliedOk(end);
    assert TimesApplied(s, id) == Due(s.receipts, id) && TimesApplied(end, id) == Due(end.receipts, id);
  }

  /** Every delivery of `id` seen in this run carries a snapshot. */
  predicate OnlySnapshots(steps: seq<Step>, id: EventId) {
    forall i :: 0 <= i < |steps| && steps[i].Arrive? && steps[i].d.id == id ==> steps[i].d.body.Snapshot?
  }

  ghost predicate SnapshotsFor(s: State, id: EventId) {
    && (forall p :: p in s.handlers && !s.handlers[p].Idle? && s.handlers[p].d.id == id
          ==> s.handlers[p].d.body.Snapshot?)
    && (id in s.receipts ==> s.receipts[id].outcome.WasApplied?)
  }

  lemma {:induction false} SnapshotsStay(s: State, steps: seq<Step>, end: State, id: EventId)
    requires IsRun(s, steps, end) && SnapshotsFor(s, id) && OnlySnapshots(steps, id)
    ensures SnapshotsFor(end, id)
    decreases |steps|
  {
    if steps != [] {
      assert steps[0].Arrive? && steps[0].d.id == id ==> steps[0].d.body.Snapshot?;
      assert OnlySnapshots(steps[1..], id);
      SnapshotsStay(Next(s, steps[0]), steps[1..], end, id);
    }
  }

  /**
   * Exactly once, end to end: when every delivery of an event carries a snapshot, a handler about to answer 200 — to
   * the first delivery or to a retry — or 401 does so only once the event has been applied, and then exactly once.
   */
  lemma AnsweredMeansApplied(steps: seq<Step>, end: State, p: Pid)
    requires IsRun(START, steps, end) && p in end.handlers && end.handlers[p].Answering?
    requires end.handlers[p].status == 200 || end.handlers[p].status == 401
    requires OnlySnapshots(steps, end.handlers[p].d.id)
    ensures TimesApplied(end, end.handlers[p].d.id) == 1
  {
    var id := end.handlers[p].d.id;
    RunKeepsInv(START, steps, end);
    SnapshotsStay(START, steps, end, id);
    assert HandlerOk(end.receipts, end.handlers[p]);
    AppliedAtMostOnce(steps, end, id);
  }

  // ----- what each kind of body leads to -----

  /** The receipt says what became of a body. */
  predicate Tells(outcome: Outcome, body: Body) {
    match body
    case Malformed => outcome.WasInvalid?
    case UnknownType => outcome.WasUnknownType?
    case Snapshot(_) => outcome.WasApplied?
  }

  /**
   * Storing a new event: it is answered 422 when its body is malformed and 200 otherwise, or 500 when the answer of the
   * database is lost; its receipt says which kind of body it was; and only a snapshot is applied.
   */
  lemma NewEventIsStored(s: State, p: Pid, acknowledged: bool)
    requires Enabled(s, Store(p, acknowledged)) && HandlerOf(s, p).d.id !in s.receipts
    ensures var d, n := HandlerOf(s, p).d, Next(s, Store(p, acknowledged));
            && HandlerOf(n, p) == Answering(d, if !acknowledged then 500 else if d.body.Malformed? then 422 else 200)
            && d.id in n.receipts && n.receipts[d.id].signedTs == d.ts && Tells(n.receipts[d.id].outcome, d.body)
            && n.applied == s.applied + (if d.body.Snapshot? then [d] else [])
  {
  }

  /** Whoever is about to be told 422 has a receipt that says its event was invalid. */
  ghost predicate RefusedOk(s: State) {
    forall p :: p in s.handlers && s.handlers[p].Answering? && s.handlers[p].status == 422 ==>
      var id := s.handlers[p].d.id; id in s.receipts && s.receipts[id].outcome.WasInvalid?
  }

  lemma {:induction false} RunKeepsRefused(s: State, steps: seq<Step>, end: State)
    requires RefusedOk(s) && IsRun(s, steps, end)
    ensures RefusedOk(end)
    decreases |steps|
  {
    if steps != [] {
      StepGrows(s, steps[0]);
      RunKeepsRefused(Next(s, steps[0]), steps[1..], end);
    }
  }

  /** Over every run: whoever is told 422 has a receipt saying invalid, and nothing of that event was applied. */
  lemma InvalidIsNeverApplied(steps: seq<Step>, end: State, p: Pid)
    requires IsRun(START, steps, end) && p in end.handlers && end.handlers[p].Answering?
    requires end.handlers[p].status == 422
    ensures var id := end.handlers[p].d.id;
            id in end.receipts && end.receipts[id].outcome.WasInvalid? && TimesApplied(end, id) == 0
  {
    RunKeepsRefused(START, steps, end);
    AppliedAtMostOnce(steps, end, end.handlers[p].d.id);
  }

  /** Some delivery of the event arrived whose body the receipt tells of. */
  ghost predicate CameWith(steps: seq<Step>, id: EventId, outcome: Outcome) {
    exists e :: e in steps && e.Arrive? && e.d.id == id && Tells(outcome, e.d.body)
  }

  ghost predicate AllArrived(s: State, seen: seq<Step>) {
    && (forall p :: p in s.handlers && !s.handlers[p].Idle? ==> Arrive(p, s.handlers[p].d) in seen)
    && (forall id :: id in s.receipts ==> CameWith(seen, id, s.receipts[id].outcome))
  }

  lemma StepArrived(s: State, e: Step, seen: seq<Step>)
    requires AllArrived(s, seen) && Enabled(s, e)
    ensures AllArrived(Next(s, e), seen + [e])
  {
    var n := Next(s, e);
    forall id | id in n.receipts
      ensures CameWith(seen + [e], id, n.receipts[id].outcome)
    {
      if id in s.receipts {
        assert CameWith(seen, id, s.receipts[id].outcome);
        var a :| a in seen && a.Arrive? && a.d.id == id && Tells(s.receipts[id].outcome, a.d.body);
        assert a in seen + [e];
      } else {
        var h := HandlerOf(s, e.p);
        assert Arrive(e.p, h.d) in seen + [e];
      }
    }
  }

  lemma {:induction false} RunArrived(s: State, seen: seq<Step>, steps: seq<Step>, end: State)
    requires AllArrived(s, seen) && IsRun(s, steps, end)
    ensures AllArrived(end, seen + steps)
    decreases |steps|
  {
    if steps == [] {
      assert seen + steps == seen;
    } else {
      StepArrived(s, steps[0], seen);
      RunArrived(Next(s, steps[0]), seen + [steps[0]], steps[1..], end);
      assert seen + [steps[0]] + steps[1..] == seen + steps;
    }
  }

  /** Over every run a receipt tells of a body that really came in under its event id. */
  lemma ReceiptsTellTheBody(steps: seq<Step>, end: State, id: EventId)
    requires IsRun(START, steps, end) && id in end.receipts
    ensures exists e :: e in steps && e.Arrive? && e.d.id == id && Tells(end.receipts[id].outcome, e.d.body)
  {
    RunArrived(START, [], steps, end);
    assert [] + steps == steps;
    assert CameWith(steps, id, end.receipts[id].outcome);
  }

  // ----- failures and retries -----

  lemma {:induction false} Then(s: State, steps: seq<Step>, mid: State, e: Step)
    requires IsRun(s, steps, mid) && Enabled(mid, e)
    ensures IsRun(s, steps + [e], Next(mid, e))
    decreases |steps|
  {
    var all := steps + [e];
    if steps == [] {
      assert all[1..] == [];
      assert IsRun(Next(s, e), all[1..], Next(mid, e));
    } else {
      assert all[0] == steps[0] && all[1..] == steps[1..] + [e];
      Then(Next(s, steps[0]), steps[1..], mid, e);
    }
  }

  /**
   * An event whose earlier attempts all failed is not lost: from any reachable state without its receipt, however many
   * handlers are still suspended on it, the next delivery that is served without a failure applies it and says 200 —
   * and none of the suspended handlers can apply it again.
   */
  lemma RetryAfterFailureApplies(s: State, p: Pid, d: Delivery) returns (end: State)
    requires Inv(s) && HandlerOf(s, p).Idle? && d.id !in s.receipts && d.body.Snapshot?
    ensures IsRun(s, [Arrive(p, d), LookUp(p), Store(p, true)], end)
    ensures HandlerOf(end, p) == Answering(d, 200)
    ensures end.applied == s.applied + [d] && TimesApplied(end, d.id) == 1
    ensures forall steps, later ::
              IsRun(end, steps, later) ==> d.id in later.receipts && TimesApplied(later, d.id) == 1
  {
    var s1 := Next(s, Arrive(p, d));
    var s2 := Next(s1, LookUp(p));
    end := Next(s2, Store(p, true));
    Then(s, [], s, Arrive(p, d));
    Then(s, [Arrive(p, d)], s1, LookUp(p));
    Then(s, [Arrive(p, d), LookUp(p)], s2, Store(p, true));
    assert [Arrive(p, d), LookUp(p)] + [Store(p, true)] == [Arrive(p, d), LookUp(p), Store(p, true)];
    RunKeepsInv(s, [Arrive(p, d), LookUp(p), Store(p, true)], end);
    assert TimesApplied(end, d.id) == 1;
    forall steps, later | IsRun(end, steps, later)
      ensures d.id in later.receipts && TimesApplied(later, d.id) == 1
    {
      TimestampsNeverDecrease(end, steps, later, d.id);
    }
  }

  // ----- which verbatim copies are refused -----

  predicate IsLatest(marks: seq<Mark>, id: EventId, ts: int) {
    forall m :: m in marks && m.id == id ==> m.ts <= ts
  }

  /**
   * A copy of a delivery that was recorded or answered 2xx is refused as an exact replay if and only if no later
   * timestamp was recorded or answered for the event since; any other copy is answered 200 as a duplicate (once its
   * update lands) — and neither is applied.
   */
  lemma CopyRefusedIff(s: State, p: Pid)
    requires Inv(s) && HandlerOf(s, p).Looking? && Mark(HandlerOf(s, p).d.id, HandlerOf(s, p).d.ts) in s.marks
    ensures var d, n := HandlerOf(s, p).d, Next(s, LookUp(p));
            && n.applied == s.applied && n.receipts == s.receipts
            && (HandlerOf(n, p) == Answering(d, 401) <==> IsLatest(s.marks, d.id, d.ts))
            && (HandlerOf(n, p) == Updating(d) <==> !IsLatest(s.marks, d.id, d.ts))
            && (HandlerOf(n, p) == Updating(d) ==>
                  Next(n, Update(p, true)).receipts == s.receipts
                  && HandlerOf(Next(n, Update(p, true)), p) == Answering(d, 200))
  {
    var d := HandlerOf(s, p).d;
    assert d.id in s.receipts && d.ts <= s.receipts[d.id].signedTs;
    var latest := Mark(d.id, s.receipts[d.id].signedTs);
    assert latest in s.marks;
    if d.ts == latest.ts {
      assert IsLatest(s.marks, d.id, d.ts);
    }
  }

  predicate Takes(s: State, e: Step, n: State) {
    Enabled(s, e) && Next(s, e) == n
  }

  lemma {:induction false} RunThrough(states: seq<State>, steps: seq<Step>)
    requires |states| == |steps| + 1
    requires forall i :: 0 <= i < |steps| ==> Takes(states[i], steps[i], states[i + 1])
    ensures IsRun(states[0], steps, states[|steps|])
    decreases |steps|
  {
    if steps != [] {
      RunThrough(states[1..], steps[1..]);
    }
  }

  const FIRST := Delivery(1, 5, Snapshot(0))
  const RETRY := Delivery(1, 9, Snapshot(0))

  /** The store after the event was recorded at `ts`, with handler 0 at `h`. */
  function Recorded(ts: int, marks: seq<Mark>, h: Handler): State {
    State(map[1 := Receipt(ts, WasApplied)], [FIRST], marks, map[0 := h])
  }

  lemma FirstServed()
    ensures Takes(START, Arrive(0, FIRST), START.(handlers := map[0 := Looking(FIRST, false)]))
    ensures Takes(START.(handlers := map[0 := Looking(FIRST, false)]), LookUp(0),
                  START.(handlers := map[0 := Storing(FIRST)]))
    ensures Takes(START.(handlers := map[0 := Storing(FIRST)]), Store(0, true),
                  Recorded(5, [Mark(1, 5)], Answering(FIRST, 200)))
    ensures Takes(Recorded(5, [Mark(1, 5)], Answering(FIRST, 200)), Answer(0),
                  Recorded(5, [Mark(1, 5), Mark(1, 5)], Idle))
  {
    assert map[0 := Storing(FIRST)][0 := Answering(FIRST, 200)] == map[0 := Answering(FIRST, 200)];
  }

  lemma RetryServed(marks: seq<Mark>)
    ensures Takes(Recorded(5, marks, Idle), Arrive(0, RETRY), Recorded(5, marks, Looking(RETRY, false)))
    ensures Takes(Recorded(5, marks, Looking(RETRY, false)), LookUp(0), Recorded(5, marks, Updating(RETRY)))
    ensures Takes(Recorded(5, marks, Updating(RETRY)), Update(0, true),
                  Recorded(9, marks + [Mark(1, 9)], Answering(RETRY, 200)))
    ensures Takes(Recorded(9, marks + [Mark(1, 9)], Answering(RETRY, 200)), Answer(0),
                  Recorded(9, marks + [Mark(1, 9)] + [Mark(1, 9)], Idle))
  {
  }

  lemma CopyServed(marks: seq<Mark>)
    ensures Takes(Recorded(9, marks, Idle), Arrive(0, FIRST), Recorded(9, marks, Looking(FIRST, false)))
    ensures Takes(Recorded(9, marks, Looking(FIRST, false)), LookUp(0), Recorded(9, marks, Updating(FIRST)))
    ensures Takes(Recorded(9, marks, Updating(FIRST)), Update(0, true), Recorded(9, marks, Answering(FIRST, 200)))
  {
  }

  /**
   * So a copy stops being refused once a later retry has been recorded. From the empty store: an event at 5, its retry
   * at 9, and a verbatim copy of the first delivery, which is answered 200.
   */
  lemma OlderCopyIsAnswered() returns (steps: seq<Step>, end: State)
    ensures steps == [Arrive(0, FIRST), LookUp(0), Store(0, true), Answer(0),
                      Arrive(0, RETRY), LookUp(0), Update(0, true), Answer(0),
                      Arrive(0, FIRST), LookUp(0), Update(0, true)]
    ensures IsRun(START, steps, end) && HandlerOf(end, 0) == Answering(FIRST, 200)
    ensures end.applied == [FIRST]
  {
    var once := [Mark(1, 5), Mark(1, 5)];
    var twice := once + [Mark(1, 9)] + [Mark(1, 9)];
    FirstServed();
    RetryServed(once);
    CopyServed(twice);
    end := Recorded(9, twice, Answering(FIRST, 200));
    steps := [Arrive(0, FIRST), LookUp(0), Store(0, true), Answer(0), Arrive(0, RETRY), LookUp(0), Update(0, true),
              Answer(0), Arrive(0, FIRST), LookUp(0), Update(0, true)];
    RunThrough([START, START.(handlers := map[0 := Looking(FIRST, false)]),
                START.(handlers := map[0 := Storing(FIRST)]),
                Recorded(5, [Mark(1, 5)], Answering(FIRST, 200)), Recorded(5, once, Idle),
                Recorded(5, once, Looking(RETRY, false)), Recorded(5, once, Updating(RETRY)),
                Recorded(9, once + [Mark(1, 9)], Answering(RETRY, 200)), Recorded(9, twice, Idle),
                Recorded(9, twice, Looking(FIRST, false)), Recorded(9, twice, Updating(FIRST)), end], steps);
  }

  /** A handler may crash after its event was stored: a verbatim copy then meets the receipt, and is refused. */
  lemma CrashedAfterStoring() returns (steps: seq<Step>, end: State)
    ensures steps == [Arrive(0, FIRST), LookUp(0), Store(0, true), Crash(0), Arrive(0, FIRST), LookUp(0)]
    ensures IsRun(START, steps, end) && HandlerOf(end, 0) == Answering(FIRST, 401) && end.applied == [FIRST]
  {
    FirstServed();
    var once := [Mark(1, 5)];
    end := Recorded(5, once, Answering(FIRST, 401));
    steps := [Arrive(0, FIRST), LookUp(0), Store(0, true), Crash(0), Arrive(0, FIRST), LookUp(0)];
    RunThrough([START, START.(handlers := map[0 := Looking(FIRST, false)]),
                START.(handlers := map[0 := Storing(FIRST)]), Recorded(5, once, Answering(FIRST, 200)),
                Recorded(5, once, Idle), Recorded(5, once, Looking(FIRST, false)), end], steps);
  }

  // ----- the handler itself -----

  /** What becomes of one database call: done, done but reported as failed, refused as a duplicate key, or not done. */
  datatype Luck = Works | Loses | Conflicts | Breaks

  datatype Calls = Calls(find: Luck, store: Luck, findAgain: Luck, update: Luck)

  lemma Extend(start: State, before: seq<Step>, mid: State, e: Step, after: State) returns (steps: seq<Step>)
    requires IsRun(start, before, mid) && Takes(mid, e, after)
    ensures IsRun(start, steps, after)
  {
    Then(start, before, mid, e);
    steps := before + [e];
  }

  type Receipts = map<EventId, Receipt>

  /** The receipts with the later of the stored and the delivery's timestamp. */
  function Latest(receipts: Receipts, d: Delivery): Receipts
    requires d.id in receipts
  {
    var r := receipts[d.id];
    receipts[d.id := r.(signedTs := Max(r.signedTs, d.ts))]
  }

  /** A state in which handler 0 stands at `h` and nobody else is active. */
  function Alone(receipts: Receipts, applied: seq<Delivery>, marks: seq<Mark>, h: Handler): State {
    State(receipts, applied, marks, map[0 := h])
  }

  lemma LookUpAlone(r: Receipts, a: seq<Delivery>, m: seq<Mark>, d: Delivery, again: bool)
    ensures var replay := ClassifyWebhookReplay(if d.id in r then Some(r[d.id].signedTs) else None, d.ts);
            Takes(Alone(r, a, m, Looking(d, again)), LookUp(0),
                  Alone(r, a, m, match replay
                                 case New => if again then Answering(d, 500) else Storing(d)
                                 case ExactReplay => Answering(d, 401)
                                 case Retry => Updating(d)))
  {
  }

  lemma FailAlone(r: Receipts, a: seq<Delivery>, m: seq<Mark>, h: Handler)
    requires h.Looking? || h.Updating? || h.Storing?
    ensures Takes(Alone(r, a, m, h), Fail(0), Alone(r, a, m, Answering(h.d, 500)))
    ensures h.Storing? ==> Takes(Alone(r, a, m, h), Conflict(0), Alone(r, a, m, Looking(h.d, true)))
  {
  }

  lemma UpdateAlone(r: Receipts, a: seq<Delivery>, m: seq<Mark>, d: Delivery, acknowledged: bool)
    ensures var h := Answering(d, if acknowledged then 200 else 500);
            Takes(Alone(r, a, m, Updating(d)), Update(0, acknowledged),
                  if d.id in r && r[d.id].signedTs < d.ts
                  then Alone(r[d.id := r[d.id].(signedTs := d.ts)], a, m + [Mark(d.id, d.ts)], h)
                  else Alone(r, a, m, h))
  {
  }

  lemma StoreAlone(r: Receipts, a: seq<Delivery>, m: seq<Mark>, d: Delivery, acknowledged: bool)
    requires d.id !in r
    ensures Takes(Alone(r, a, m, Storing(d)), Store(0, acknowledged),
                  Alone(r[d.id := Receipt(d.ts, OutcomeOf(d.body))], if d.body.Snapshot? then a + [d] else a,
                        m + [Mark(d.id, d.ts)], Answering(d, if acknowledged then StatusOf(d.body) else 500)))
  {
  }

  lemma AnswerAlone(r: Receipts, a: seq<Delivery>, m: seq<Mark>, d: Delivery, status: nat)
    ensures Takes(Alone(r, a, m, Answering(d, status)), Answer(0),
                  Alone(r, a, if status == 200 then m + [Mark(d.id, d.ts)] else m, Idle))
  {
  }

  lemma ArriveAlone(r: Receipts, a: seq<Delivery>, m: seq<Mark>, d: Delivery)
    ensures Takes(Alone(r, a, m, Idle), Arrive(0, d), Alone(r, a, m, Looking(d, false)))
  {
  }

  /** The tables one handler works on. `marks` records what it has stored or answered. */
  class Webhook {
    var receipts: Receipts
    var applied: seq<Delivery>
    ghost var marks: seq<Mark>

    constructor ()
      ensures View(Idle) == START.(handlers := map[0 := Idle])
    {
      receipts, applied, marks := map[], [], [];
    }

    /** The tables as a state of the protocol in which handler 0 stands at `h` and nobody else is active. */
    ghost function View(h: Handler): State
      reads this
    {
      Alone(receipts, applied, marks, h)
    }

    /** The update for a retry: it keeps the latest timestamp. */
    method RecordRetry(d: Delivery, luck: Luck, ghost start: State, ghost before: seq<Step>)
      returns (status: nat, ghost steps: seq<Step>)
      requires d.id in receipts && IsRun(start, before, View(Updating(d)))
      modifies this`receipts, this`marks
      ensures IsRun(start, steps, View(Answering(d, status)))
      ensures status == (if luck.Works? then 200 else 500)
      ensures receipts == if luck.Works? || luck.Loses? then Latest(old(receipts), d) else old(receipts)
    {
      status := if luck.Works? then 200 else 500;
      if luck.Works? || luck.Loses? {
        UpdateAlone(receipts, applied, marks, d, luck.Works?);
        ghost var was := View(Updating(d));
        if receipts[d.id].signedTs < d.ts {
          receipts := receipts[d.id := receipts[d.id].(signedTs := d.ts)];
          marks := marks + [Mark(d.id, d.ts)];
        } else {
          assert receipts == Latest(receipts, d);
        }
        steps := Extend(start, before, was, Update(0, luck.Works?), View(Answering(d, status)));
      } else {
        FailAlone(receipts, applied, marks, Updating(d));
        steps := Extend(start, before, View(Updating(d)), Fail(0), View(Answering(d, 500)));
      }
    }

    /** The answer for a known event, or none for a new one; `before` is the run of the protocol so far. */
    method AnswerKnown(d: Delivery, again: bool, find: Luck, update: Luck, ghost start: State, ghost before: seq<Step>)
      returns (status: Option<nat>, ghost steps: seq<Step>)
      requires IsRun(start, before, View(Looking(d, again)))
      modifies this`receipts, this`marks
      ensures IsRun(start, steps, View(if status.Some? then Answering(d, status.value)
                                       else if again then Answering(d, 500) else Storing(d)))
      ensures status.None? <==> find.Works? && d.id !in old(receipts)
      ensures status == Some(401) <==> (find.Works? && d.id in old(receipts) && old(receipts)[d.id].signedTs == d.ts)
      ensures status == Some(200) ==> d.id in receipts && d.ts <= receipts[d.id].signedTs
      ensures find.Works? && d.id in old(receipts) && old(receipts)[d.id].signedTs != d.ts ==>
                && status == Some(if update.Works? then 200 else 500)
                && receipts == (if update.Works? || update.Loses? then Latest(old(receipts), d) else old(receipts))
      ensures !find.Works? || status == Some(401) ==> receipts == old(receipts)
      ensures receipts.Keys == old(receipts).Keys
      ensures d.id !in old(receipts) ==>
                receipts == old(receipts) && marks == old(marks) && (status.None? || status == Some(500))
    {
      if !find.Works? {
        FailAlone(receipts, applied, marks, Looking(d, again));
        steps := Extend(start, before, View(Looking(d, again)), Fail(0), View(Answering(d, 500)));
        return Some(500), steps;
      }
      LookUpAlone(receipts, applied, marks, d, again);
      var replay := ClassifyWebhookReplay(if d.id in receipts then Some(receipts[d.id].signedTs) else None, d.ts);
      match replay {
        case New =>
          steps := Extend(start, before, View(Looking(d, again)), LookUp(0),
                          View(if again then Answering(d, 500) else Storing(d)));
          status := None;
        case ExactReplay =>
          steps := Extend(start, before, View(Looking(d, again)), LookUp(0), View(Answering(d, 401)));
          status := Some(401);
        case Retry =>
          steps := Extend(start, before, View(Looking(d, again)), LookUp(0), View(Updating(d)));
          var answered;
          answered, steps := RecordRetry(d, update, start, steps);
          status := Some(answered);
      }
    }

    /** Step 9: the snapshot, the receipt and nothing else, in one transaction; or all of it rolled back. */
    method ApplyAndRecord(d: Delivery, calls: Calls, ghost start: State, ghost before: seq<Step>)
      returns (status: nat, ghost steps: seq<Step>)
      requires d.id !in receipts && IsRun(start, before, View(Storing(d)))
      modifies this
      ensures IsRun(start, steps, View(Answering(d, status)))
      ensures status == if !calls.store.Works? then 500 else if d.body.Malformed? then 422 else 200
      ensures d.id in receipts ==> Tells(receipts[d.id].outcome, d.body)
      ensures var stores := calls.store.Works? || calls.store.Loses?;
              && applied == (if stores && d.body.Snapshot? then old(applied) + [d] else old(applied))
              && receipts == (if stores then old(receipts)[d.id := Receipt(d.ts, OutcomeOf(d.body))] else old(receipts))
    {
      if calls.store.Works? || calls.store.Loses? {
        StoreAlone(receipts, applied, marks, d, calls.store.Works?);
        ghost var was := View(Storing(d));
        receipts := receipts[d.id := Receipt(d.ts, OutcomeOf(d.body))];
        applied := if d.body.Snapshot? then applied + [d] else applied;
        marks := marks + [Mark(d.id, d.ts)];
        status := if calls.store.Works? then StatusOf(d.body) else 500;
        steps := Extend(start, before, was, Store(0, calls.store.Works?), View(Answering(d, status)));
      } else {
        FailAlone(receipts, applied, marks, Storing(d));
        if calls.store.Conflicts? {
          steps := Extend(start, before, View(Storing(d)), Conflict(0), View(Looking(d, true)));
          status, steps := LookAgain(d, calls, start, steps);
        } else {
          steps := Extend(start, before, View(Storing(d)), Fail(0), View(Answering(d, 500)));
          status := 500;
        }
      }
    }

    /** After a unique violation the receipt is looked up once more; still none means the conflict was elsewhere. */
    method LookAgain(d: Delivery, calls: Calls, ghost start: State, ghost before: seq<Step>)
      returns (status: nat, ghost steps: seq<Step>)
      requires d.id !in receipts && IsRun(start, before, View(Looking(d, true)))
      modifies this`receipts, this`marks
      ensures IsRun(start, steps, View(Answering(d, status)))
      ensures status == 500 && receipts == old(receipts)
    {
      var known;
      known, steps := AnswerKnown(d, true, calls.findAgain, calls.update, start, before);
      status := if known.Some? then known.value else 500;
    }

    /**
     * Steps 7 to 9 for one verified delivery, served alone. What the handler does is a run of the protocol, so
     * everything proved of runs holds of it; and it says when the delivery is applied and when it is refused.
     */
    method Handle(d: Delivery, calls: Calls) returns (status: nat, ghost steps: seq<Step>)
      modifies this
      ensures IsRun(old(View(Idle)), steps, View(Idle))
      ensures status == 401 <==> (calls.find.Works? && d.id in old(receipts) && old(receipts)[d.id].signedTs == d.ts)
      ensures var stores := d.id !in old(receipts) && calls.find.Works? && (calls.store.Works? || calls.store.Loses?);
              && applied == (if stores && d.body.Snapshot? then old(applied) + [d] else old(applied))
              && (stores ==> receipts == old(receipts)[d.id := Receipt(d.ts, OutcomeOf(d.body))])
              && (!stores && d.id !in old(receipts) ==> receipts == old(receipts))
      ensures calls.find.Works? && d.id !in old(receipts) ==>
                status == if !calls.store.Works? then 500 else if d.body.Malformed? then 422 else 200
      ensures d.id !in old(receipts) && d.id in receipts ==> Tells(receipts[d.id].outcome, d.body)
      ensures calls.find.Works? && d.id in old(receipts) && old(receipts)[d.id].signedTs != d.ts ==>
                && status == (if calls.update.Works? then 200 else 500)
                && receipts
                == (if calls.update.Works? || calls.update.Loses? then Latest(old(receipts), d) else old(receipts))
      ensures calls.find.Works? && calls.update.Works? && d.id in old(receipts)
              && old(receipts)[d.id].signedTs != d.ts ==>
                && d.id in receipts && receipts[d.id].outcome == old(receipts)[d.id].outcome
                && receipts[d.id].signedTs
                == if old(receipts)[d.id].signedTs < d.ts then d.ts else old(receipts)[d.id].signedTs
      ensures status == 401 || !calls.find.Works? ==> receipts == old(receipts)
      ensures status == 200 ==> d.id in receipts && d.ts <= receipts[d.id].signedTs
    {
      ghost var start := View(Idle);
      ArriveAlone(receipts, applied, marks, d);
      steps := Extend(start, [], start, Arrive(0, d), View(Looking(d, false)));
      var known;
      known, steps := AnswerKnown(d, false, calls.find, calls.update, start, steps);
      if known.Some? {
        status := known.value;
      } else {
        status, steps := ApplyAndRecord(d, calls, start, steps);
      }
      AnswerAlone(receipts, applied, marks, d, status);
      ghost var was := View(Answering(d, status));
      marks := if status == 200 then marks + [Mark(d.id, d.ts)] else marks;
      steps := Extend(start, steps, was, Answer(0), View(Idle));
    }
  }
}
