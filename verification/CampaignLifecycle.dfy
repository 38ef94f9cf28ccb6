/**
 * The life of a campaign row. Several actors race on the same rows through conditional updates, and any of them can
 * crash between two of its steps: the pacer (src/services/pacer.ts), the sweeper (src/services/sweeper.ts), the Queue
 * and Review buttons (src/routes/api.ts), a manual send (src/services/send.ts), the poller (src/services/poller.ts),
 * draft retention (src/services/reconciler.ts), event retention and stranded-claim recovery. Each database call is one
 * step. As documented for the pacer, it runs together with the editorial filter, so the poller never dispatches and a
 * queued row never carries a `scheduledAt`.
 */
module CampaignLifecycle {
  import opened Prelude
  import opened Campaigns

  type Id = nat
  type Pid = nat

  /**
   * A campaign row. `sentRows` are the times of its live SENT rows, `rolledSent` the deleted ones, and `executions`
   * how often the send loop was started for it.
   */
  datatype Row = Row(
    status: Status, queue: Queue, scheduledAt: Option<int>, claimedAt: Option<int>, reviewed: bool, createdAt: int,
    sentRows: seq<int>, rolledSent: nat, lastSentAt: Option<int>, executions: nat)

  /** Which handler holds a row it is about to send. */
  datatype Origin = ByPacer | ByQueuePush | ByReviewPush | BySweeper | ByDispatch

  /** Where one actor is suspended. `rest` is what remains of a sweeper's list of due rows. */
  datatype Actor =
    | Idle
    | Picked(id: Id)
    | Holding(id: Id, origin: Origin, rest: set<Id>)
    | Approving(id: Id)
    | Executing(id: Id, rest: set<Id>)
    | Sweeping(rest: set<Id>)
    | Recovering(rolled: map<Id, nat>)
    | Judging(id: Id, delivered: bool, last: Option<int>, rolled: map<Id, nat>)

  datatype State = State(rows: map<Id, Row>, actors: map<Pid, Actor>)

  function ActorOf(s: State, p: Pid): Actor {
    if p in s.actors then s.actors[p] else Idle
  }

  predicate InQueue(r: Row) {
    r.queue == Qualified || r.queue == Fallback
  }

  /** Some actor could still claim this row and send it. */
  predicate Sendable(r: Row) {
    || (r.status == Draft && InQueue(r))
    || (r.status == Draft && r.queue == Review && !r.reviewed)
    || (r.status == Scheduled && r.scheduledAt.Some?)
  }

  predicate Delivered(r: Row) {
    r.sentRows != [] || r.rolledSent > 0
  }

  function NewRow(queue: Queue, createdAt: int): Row {
    Row(Draft, queue, None, None, false, createdAt, [], 0, None, 0)
  }

  function MaxOf(s: seq<int>): Option<int> {
    if s == [] then None
    else
      var rest := MaxOf(s[1..]);
      if rest.None? then Some(s[0]) else Some(Max(s[0], rest.value))
  }

  function Stranded(s: State, cutoff: int): map<Id, nat> {
    map id | id in s.rows && s.rows[id].status == Scheduled && s.rows[id].scheduledAt.None?
      && s.rows[id].claimedAt.Some? && s.rows[id].claimedAt.value <= cutoff :: s.rows[id].rolledSent
  }

  datatype Step =
    // the poller captures an article; a manual send creates its row
    | Capture(id: Id, queue: Queue, createdAt: int)
    | CreateForSend(p: Pid, id: Id, createdAt: int)
    | DeferSend(p: Pid, at: int)
    // the pacer
    | Pick(p: Pid, id: Id)
    | CloneForResend(p: Pid, original: Id, id: Id)
    | PacerClaim(p: Pid, now: int)
    // the Queue and Review buttons
    | QueueClaim(p: Pid, id: Id, now: int)
    | ReviewClaim(p: Pid, id: Id, approve: bool, push: bool)
    | Approve(p: Pid)
    // the sweeper
    | SweepRead(p: Pid, now: int)
    | SweepDefer(p: Pid, id: Id, nextAt: int)
    | SweepClaim(p: Pid, id: Id)
    // whoever holds a row: archive it as a dead link, or run the send loop
    | ArchiveDead(p: Pid)
    | Execute(p: Pid)
    | Deliver(p: Pid, at: int)
    | Finish(p: Pid, ok: bool, statusLands: bool, now: int)
    // retention of drafts and of events
    | ExpireStaleDrafts(cutoff: int)
    | FoldEvents(id: Id, keep: seq<int>, cutoff: int) // one batch: of the row's deliveries, `keep` are left
    // recovery of rows stranded mid-send
    | RecoverRead(p: Pid, cutoff: int)
    | RecoverLook(p: Pid, id: Id)
    | RecoverWrite(p: Pid)
    | Crash(p: Pid)

  /** A batch takes deliveries older than the cutoff, and no other. */
  predicate KeepsRecent(times: seq<int>, keep: seq<int>, cutoff: int) {
    && |keep| <= |times| && multiset(keep) <= multiset(times)
    && forall t :: t in times && cutoff <= t ==> t in keep
  }

  predicate Enabled(s: State, e: Step) {
    match e
    case Capture(id, queue, _) => id !in s.rows && queue != Unqueued
    case CreateForSend(p, id, _) => ActorOf(s, p).Idle? && id !in s.rows
    case DeferSend(p, _) => ActorOf(s, p).Holding? && ActorOf(s, p).origin == ByDispatch
    case Pick(p, id) => ActorOf(s, p).Idle? && id in s.rows && s.rows[id].status == Draft && InQueue(s.rows[id])
    case CloneForResend(p, original, id) =>
      ActorOf(s, p).Idle? && original in s.rows && InQueue(s.rows[original]) && id !in s.rows
    case PacerClaim(p, _) => ActorOf(s, p).Picked?
    case QueueClaim(p, id, _) => ActorOf(s, p).Idle? && id in s.rows
    case ReviewClaim(p, id, _, _) => ActorOf(s, p).Idle? && id in s.rows
    case Approve(p) => ActorOf(s, p).Approving?
    case SweepRead(p, _) => ActorOf(s, p).Idle?
    case SweepDefer(p, id, _) => ActorOf(s, p).Sweeping? && id in ActorOf(s, p).rest
    case SweepClaim(p, id) => ActorOf(s, p).Sweeping? && id in ActorOf(s, p).rest
    case ArchiveDead(p) => ActorOf(s, p).Holding? && ActorOf(s, p).origin in {ByPacer, ByQueuePush, ByReviewPush}
    case Execute(p) => ActorOf(s, p).Holding?
    case Deliver(p, _) => ActorOf(s, p).Executing?
    case Finish(p, _, _, _) => ActorOf(s, p).Executing?
    case ExpireStaleDrafts(_) => true
    case FoldEvents(id, keep, cutoff) => id in s.rows && KeepsRecent(s.rows[id].sentRows, keep, cutoff)
    case RecoverRead(p, _) => ActorOf(s, p).Idle?
    case RecoverLook(p, id) => ActorOf(s, p).Recovering? && id in ActorOf(s, p).rolled && id in s.rows
    case RecoverWrite(p) => ActorOf(s, p).Judging?
    case Crash(_) => true
  }

  function With(s: State, p: Pid, a: Actor, id: Id, r: Row): State {
    State(s.rows[id := r], s.actors[p := a])
  }

  function Moved(s: State, p: Pid, a: Actor): State {
    s.(actors := s.actors[p := a])
  }

  /** Back to the sweeper's list, or done. */
  function AfterSend(rest: set<Id>): Actor {
    if rest == {} then Idle else Sweeping(rest)
  }

  /** Every row an actor refers to exists; rows are never deleted. */
  ghost predicate Refers(s: State) {
    forall p :: p in s.actors ==> ActorRefers(s.rows, s.actors[p])
  }

  predicate ActorRefers(rows: map<Id, Row>, a: Actor) {
    match a
    case Idle => true
    case Picked(id) => id in rows
    case Holding(id, _, rest) => id in rows && rest <= rows.Keys
    case Approving(id) => id in rows
    case Executing(id, rest) => id in rows && rest <= rows.Keys
    case Sweeping(rest) => rest <= rows.Keys
    case Recovering(rolled) => rolled.Keys <= rows.Keys
    case Judging(id, _, _, rolled) => id in rows && rolled.Keys <= rows.Keys
  }

  /** One step. Every guard is the `where` of the call it models. */
  function Next(s: State, e: Step): State
    requires Enabled(s, e) && Refers(s)
  {
    match e
    case Capture(id, queue, createdAt) => s.(rows := s.rows[id := NewRow(queue, createdAt)])
    case CreateForSend(p, id, createdAt) => With(s, p, Holding(id, ByDispatch, {}), id, NewRow(Unqueued, createdAt))
    case DeferSend(p, at) =>
      var id := ActorOf(s, p).id;
      With(s, p, Idle, id, s.rows[id].(status := Scheduled, scheduledAt := Some(at)))
    case Pick(p, id) => Moved(s, p, Picked(id))
    case CloneForResend(p, original, id) =>
      With(s, p, Picked(id), id, NewRow(s.rows[original].queue, s.rows[original].createdAt))
    case PacerClaim(p, now) =>
      var id := ActorOf(s, p).id;
      var r := s.rows[id];
      if r.status == Draft
      then With(s, p, Holding(id, ByPacer, {}), id, r.(status := Scheduled, claimedAt := Some(now)))
      else Moved(s, p, Idle)
    case QueueClaim(p, id, now) =>
      var r := s.rows[id];
      if r.status == Draft && InQueue(r)
      then With(s, p, Holding(id, ByQueuePush, {}), id, r.(status := Scheduled, claimedAt := Some(now)))
      else s
    case ReviewClaim(p, id, approve, push) =>
      var r := s.rows[id];
      if r.status == Draft && r.queue == Review && !r.reviewed then
        var next := if approve then Approving(id) else if push then Holding(id, ByReviewPush, {}) else Idle;
        With(s, p, next, id, r.(reviewed := true))
      else s
    case Approve(p) =>
      var id := ActorOf(s, p).id;
      With(s, p, Idle, id, s.rows[id].(queue := Qualified))
    case SweepRead(p, now) =>
      Moved(s, p, Sweeping(set id | id in s.rows.Keys && s.rows[id].status == Scheduled
                             && s.rows[id].scheduledAt.Some? && s.rows[id].scheduledAt.value <= now))
    case SweepDefer(p, id, nextAt) =>
      With(s, p, AfterSend(ActorOf(s, p).rest - {id}), id, s.rows[id].(scheduledAt := Some(nextAt)))
    case SweepClaim(p, id) =>
      var r, rest := s.rows[id], ActorOf(s, p).rest - {id};
      if r.status == Scheduled then With(s, p, Holding(id, BySweeper, rest), id, r.(status := Draft))
      else Moved(s, p, AfterSend(rest))
    case ArchiveDead(p) =>
      var a := ActorOf(s, p);
      With(s, p, AfterSend(a.rest), a.id, s.rows[a.id].(status := Expired))
    case Execute(p) =>
      var a := ActorOf(s, p);
      With(s, p, Executing(a.id, a.rest), a.id, s.rows[a.id].(executions := s.rows[a.id].executions + 1))
    case Deliver(p, at) =>
      var a := ActorOf(s, p);
      With(s, p, a, a.id, s.rows[a.id].(sentRows := s.rows[a.id].sentRows + [at]))
    case Finish(p, ok, statusLands, now) =>
      var a := ActorOf(s, p);
      var r := s.rows[a.id];
      With(s, p, AfterSend(a.rest), a.id,
           if !statusLands then r
           else if ok then r.(status := Sent, lastSentAt := Some(now)) else r.(status := Failed))
    case ExpireStaleDrafts(cutoff) =>
      s.(rows := map id | id in s.rows ::
        if s.rows[id].status == Draft && s.rows[id].createdAt < cutoff
        then s.rows[id].(status := Expired) else s.rows[id])
    case FoldEvents(id, keep, _) =>
      var r := s.rows[id];
      s.(rows := s.rows[id := r.(sentRows := keep, rolledSent := r.rolledSent + (|r.sentRows| - |keep|))])
    case RecoverRead(p, cutoff) => Moved(s, p, Recovering(Stranded(s, cutoff)))
    case RecoverLook(p, id) =>
      var rolled := ActorOf(s, p).rolled;
      var last := MaxOf(s.rows[id].sentRows);
      Moved(s, p, Judging(id, last.Some? || rolled[id] > 0, last, rolled - {id}))
    case RecoverWrite(p) =>
      var a := ActorOf(s, p);
      var r := s.rows[a.id];
      if r.status == Scheduled && r.scheduledAt.None? then
        With(s, p, Recovering(a.rolled), a.id,
             if a.delivered then r.(status := Sent, lastSentAt := if a.last.Some? then a.last else r.lastSentAt)
             else r.(status := Failed))
      else Moved(s, p, Recovering(a.rolled))
    case Crash(p) => Moved(s, p, Idle)
  }

  // ----- the invariant -----

  /** The right to send a row: it lies on the row while the row is sendable, then with the actor that claimed it. */
  predicate Holds(a: Actor, id: Id) {
    (a.Holding? && a.id == id) || (a.Approving? && a.id == id)
  }

  predicate RowOk(r: Row) {
    && r.executions <= 1
    && (Sendable(r) ==> r.executions == 0)
    && (r.scheduledAt.Some? ==> r.queue == Unqueued)
  }

  predicate DueOk(rows: map<Id, Row>, rest: set<Id>) {
    forall id :: id in rest ==> id in rows && rows[id].scheduledAt.Some?
  }

  predicate ActorOk(rows: map<Id, Row>, a: Actor) {
    match a
    case Idle => true
    case Picked(id) => id in rows && InQueue(rows[id])
    case Holding(id, origin, rest) =>
      && id in rows && rows[id].executions == 0 && !Sendable(rows[id]) && DueOk(rows, rest)
      && (origin == ByDispatch ==> rows[id].queue == Unqueued)
    case Approving(id) =>
      id in rows && rows[id].executions == 0 && rows[id].queue == Review && rows[id].reviewed
    case Executing(id, rest) => id in rows && rows[id].executions == 1 && DueOk(rows, rest)
    case Sweeping(rest) => DueOk(rows, rest)
    case Recovering(rolled) => RolledOk(rows, rolled)
    case Judging(id, delivered, last, rolled) =>
      && id in rows && (delivered ==> Delivered(rows[id])) && (last.Some? ==> delivered) && RolledOk(rows, rolled)
  }

  /** A roll-up count read earlier is at most the count now: roll-ups only grow. */
  predicate RolledOk(rows: map<Id, Row>, rolled: map<Id, nat>) {
    forall id :: id in rolled ==> id in rows && rolled[id] <= rows[id].rolledSent
  }

  ghost predicate Inv(s: State) {
    && Refers(s)
    && (forall id :: id in s.rows ==> RowOk(s.rows[id]))
    && (forall p :: p in s.actors ==> ActorOk(s.rows, s.actors[p]))
    && (forall p, q, id :: p in s.actors && q in s.actors && Holds(s.actors[p], id) && Holds(s.actors[q], id) ==>
          p == q)
  }

  /** What every step leaves true of a row for the actors that do not hold it. */
  predicate Evolves(r: Row, r': Row) {
    && (InQueue(r) ==> InQueue(r'))
    && (r.scheduledAt.Some? ==> r'.scheduledAt.Some?)
    && (r.executions == 1 ==> r'.executions == 1)
    && r.rolledSent <= r'.rolledSent
    && (Delivered(r) ==> Delivered(r'))
  }

  lemma OtherActorOk(rows: map<Id, Row>, id: Id, r: Row, a: Actor)
    requires ActorOk(rows, a) && ActorRefers(rows, a)
    requires id in rows ==> Evolves(rows[id], r)
    requires id in rows && r != rows[id] ==> !Holds(a, id)
    ensures ActorOk(rows[id := r], a) && ActorRefers(rows[id := r], a)
  {
  }

  /** Changing or creating one row and moving one actor keeps the invariant if nobody else holds that row. */
  lemma UpdateKeepsInv(s: State, p: Pid, a: Actor, id: Id, r: Row)
    requires Inv(s) && RowOk(r)
    requires id in s.rows ==> Evolves(s.rows[id], r)
    requires id in s.rows && r != s.rows[id] ==> forall q :: q in s.actors && q != p ==> !Holds(s.actors[q], id)
    requires ActorOk(s.rows[id := r], a) && ActorRefers(s.rows[id := r], a)
    requires forall i, q :: Holds(a, i) && q in s.actors && Holds(s.actors[q], i) ==> q == p
    ensures Inv(With(s, p, a, id, r))
  {
    var n := With(s, p, a, id, r);
    forall q | q in n.actors
      ensures ActorOk(n.rows, n.actors[q]) && ActorRefers(n.rows, n.actors[q])
    {
      if q != p {
        OtherActorOk(s.rows, id, r, s.actors[q]);
      }
    }
  }

  /** What happens to rows behind every actor's back: nothing becomes sendable, nothing is started. */
  predicate Settles(r: Row, r': Row) {
    && Evolves(r, r') && RowOk(r')
    && r'.executions == r.executions && r'.queue == r.queue && r'.reviewed == r.reviewed
    && r'.scheduledAt == r.scheduledAt
    && (Sendable(r') ==> Sendable(r))
  }

  lemma RowsKeepInv(s: State, rows: map<Id, Row>)
    requires Inv(s) && s.rows.Keys <= rows.Keys
    requires forall id :: id in rows ==> if id in s.rows then Settles(s.rows[id], rows[id]) else RowOk(rows[id])
    ensures Inv(s.(rows := rows))
  {
    forall p | p in s.actors
      ensures ActorOk(rows, s.actors[p]) && ActorRefers(rows, s.actors[p])
    {
      assert ActorOk(s.rows, s.actors[p]) && ActorRefers(s.rows, s.actors[p]);
    }
  }

  /** An actor that only looks, or only lets go, keeps the invariant. */
  lemma MoveKeepsInv(s: State, p: Pid, a: Actor)
    requires Inv(s) && ActorOk(s.rows, a) && ActorRefers(s.rows, a) && !a.Holding? && !a.Approving?
    ensures Inv(Moved(s, p, a))
  {
  }

  lemma HolderOnly(s: State, p: Pid, id: Id)
    requires Inv(s) && p in s.actors && Holds(s.actors[p], id)
    ensures forall q :: q in s.actors && q != p ==> !Holds(s.actors[q], id)
  {
  }

  /** A sendable row is held by nobody. */
  lemma SendableIsFree(s: State, id: Id)
    requires Inv(s) && id in s.rows && Sendable(s.rows[id])
    ensures forall q :: q in s.actors ==> !Holds(s.actors[q], id)
  {
    forall q | q in s.actors
      ensures !Holds(s.actors[q], id)
    {
      assert ActorOk(s.rows, s.actors[q]);
    }
  }

  lemma PacerKeepsInv(s: State, e: Step)
    requires Inv(s) && Enabled(s, e) && (e.Pick? || e.CloneForResend? || e.PacerClaim?)
    ensures Inv(Next(s, e))
  {
    match e
    case Pick(p, id) => MoveKeepsInv(s, p, Picked(id));
    case CloneForResend(p, original, id) =>
      UpdateKeepsInv(s, p, Picked(id), id, NewRow(s.rows[original].queue, s.rows[original].createdAt));
    case PacerClaim(p, now) =>
      var id := ActorOf(s, p).id;
      var r := s.rows[id];
      if r.status == Draft {
        SendableIsFree(s, id);
        UpdateKeepsInv(s, p, Holding(id, ByPacer, {}), id, r.(status := Scheduled, claimedAt := Some(now)));
      } else {
        MoveKeepsInv(s, p, Idle);
      }
  }

  lemma ButtonsKeepInv(s: State, e: Step)
    requires Inv(s) && Enabled(s, e) && (e.QueueClaim? || e.ReviewClaim? || e.Approve?)
    ensures Inv(Next(s, e))
  {
    match e
    case QueueClaim(p, id, now) =>
      var r := s.rows[id];
      if r.status == Draft && InQueue(r) {
        SendableIsFree(s, id);
        UpdateKeepsInv(s, p, Holding(id, ByQueuePush, {}), id, r.(status := Scheduled, claimedAt := Some(now)));
      }
    case ReviewClaim(p, id, approve, push) =>
      var r := s.rows[id];
      if r.status == Draft && r.queue == Review && !r.reviewed {
        SendableIsFree(s, id);
        var next := if approve then Approving(id) else if push then Holding(id, ByReviewPush, {}) else Idle;
        UpdateKeepsInv(s, p, next, id, r.(reviewed := true));
      }
    case Approve(p) =>
      var id := ActorOf(s, p).id;
      HolderOnly(s, p, id);
      UpdateKeepsInv(s, p, Idle, id, s.rows[id].(queue := Qualified));
  }

  lemma DeferKeepsInv(s: State, p: Pid, at: int)
    requires Inv(s) && Enabled(s, DeferSend(p, at))
    ensures Inv(Next(s, DeferSend(p, at)))
  {
    var id := ActorOf(s, p).id;
    HolderOnly(s, p, id);
    UpdateKeepsInv(s, p, Idle, id, s.rows[id].(status := Scheduled, scheduledAt := Some(at)));
  }

  lemma ArchiveKeepsInv(s: State, p: Pid)
    requires Inv(s) && Enabled(s, ArchiveDead(p))
    ensures Inv(Next(s, ArchiveDead(p)))
  {
    var a := ActorOf(s, p);
    HolderOnly(s, p, a.id);
    UpdateKeepsInv(s, p, AfterSend(a.rest), a.id, s.rows[a.id].(status := Expired));
  }

  lemma ExecuteKeepsInv(s: State, p: Pid)
    requires Inv(s) && Enabled(s, Execute(p))
    ensures Inv(Next(s, Execute(p)))
  {
    var a := ActorOf(s, p);
    HolderOnly(s, p, a.id);
    var r := s.rows[a.id].(executions := s.rows[a.id].executions + 1);
    assert ActorOk(s.rows, a) && ActorRefers(s.rows, a);
    assert Next(s, Execute(p)) == With(s, p, Executing(a.id, a.rest), a.id, r);
    UpdateKeepsInv(s, p, Executing(a.id, a.rest), a.id, r);
  }

  lemma SendKeepsInv(s: State, e: Step)
    requires Inv(s) && Enabled(s, e) && (e.CreateForSend? || e.DeferSend? || e.ArchiveDead? || e.Execute?)
    ensures Inv(Next(s, e))
  {
    match e
    case CreateForSend(p, id, createdAt) =>
      UpdateKeepsInv(s, p, Holding(id, ByDispatch, {}), id, NewRow(Unqueued, createdAt));
    case DeferSend(p, at) => DeferKeepsInv(s, p, at);
    case ArchiveDead(p) => ArchiveKeepsInv(s, p);
    case Execute(p) => ExecuteKeepsInv(s, p);
  }

  lemma SweeperKeepsInv(s: State, e: Step)
    requires Inv(s) && Enabled(s, e) && (e.SweepRead? || e.SweepDefer? || e.SweepClaim?)
    ensures Inv(Next(s, e))
  {
    match e
    case SweepRead(p, now) => MoveKeepsInv(s, p, Next(s, e).actors[p]);
    case SweepDefer(p, id, nextAt) => SweepDeferKeepsInv(s, p, id, nextAt);
    case SweepClaim(p, id) =>
      var r, rest := s.rows[id], ActorOf(s, p).rest - {id};
      if r.status == Scheduled {
        SendableIsFree(s, id);
        UpdateKeepsInv(s, p, Holding(id, BySweeper, rest), id, r.(status := Draft));
      } else {
        MoveKeepsInv(s, p, AfterSend(rest));
      }
  }

  lemma StepKeepsInv(s: State, e: Step)
    requires Inv(s) && Enabled(s, e)
    ensures Inv(Next(s, e))
  {
    if e.Pick? || e.CloneForResend? || e.PacerClaim? {
      PacerKeepsInv(s, e);
    } else if e.QueueClaim? || e.ReviewClaim? || e.Approve? {
      ButtonsKeepInv(s, e);
    } else if e.CreateForSend? || e.DeferSend? || e.ArchiveDead? || e.Execute? {
      SendKeepsInv(s, e);
    } else if e.SweepRead? || e.SweepDefer? || e.SweepClaim? {
      SweeperKeepsInv(s, e);
    } else if e.Deliver? || e.Finish? {
      ExecutingKeepsInv(s, e.p, e);
    } else if e.Capture? || e.ExpireStaleDrafts? || e.FoldEvents? {
      BehindBacksKeepsInv(s, e);
    } else {
      RecoveryKeepsInv(s, e);
    }
  }

  lemma BehindBacksKeepsInv(s: State, e: Step)
    requires Inv(s) && Enabled(s, e) && (e.Capture? || e.ExpireStaleDrafts? || e.FoldEvents?)
    ensures Inv(Next(s, e))
  {
    RowsKeepInv(s, Next(s, e).rows);
  }

  lemma RecoveryKeepsInv(s: State, e: Step)
    requires Inv(s) && Enabled(s, e) && (e.RecoverRead? || e.RecoverLook? || e.RecoverWrite? || e.Crash?)
    ensures Inv(Next(s, e))
  {
    match e
    case RecoverRead(p, cutoff) => MoveKeepsInv(s, p, Next(s, e).actors[p]);
    case RecoverLook(p, id) => MoveKeepsInv(s, p, Next(s, e).actors[p]);
    case RecoverWrite(p) => RecoverWriteKeepsInv(s, p);
    case Crash(p) => MoveKeepsInv(s, p, Idle);
  }

  lemma SweepDeferKeepsInv(s: State, p: Pid, id: Id, nextAt: int)
    requires Inv(s) && Enabled(s, SweepDefer(p, id, nextAt))
    ensures Inv(Next(s, SweepDefer(p, id, nextAt)))
  {
    var rest := ActorOf(s, p).rest - {id};
    var r := s.rows[id].(scheduledAt := Some(nextAt));
    var rows := s.rows[id := r];
    // The row may be anyone's by now; its `scheduledAt` was set before and stays set.
    forall q | q in s.actors
      ensures ActorOk(rows, s.actors[q]) && ActorRefers(rows, s.actors[q])
    {
      assert ActorOk(s.rows, s.actors[q]) && ActorRefers(s.rows, s.actors[q]);
    }
    MoveKeepsInv(s.(rows := rows), p, AfterSend(rest));
    assert Next(s, SweepDefer(p, id, nextAt)) == Moved(s.(rows := rows), p, AfterSend(rest));
  }

  lemma ExecutingKeepsInv(s: State, p: Pid, e: Step)
    requires Inv(s) && Enabled(s, e) && (e.Deliver? || e.Finish?) && e.p == p
    ensures Inv(Next(s, e))
  {
    var a := ActorOf(s, p);
    var n := Next(s, e);
    forall q | q in s.actors
      ensures !Holds(s.actors[q], a.id)
    {
      assert ActorOk(s.rows, s.actors[q]) && ActorOk(s.rows, s.actors[p]);
    }
    UpdateKeepsInv(s, p, n.actors[p], a.id, n.rows[a.id]);
  }

  lemma RecoverWriteKeepsInv(s: State, p: Pid)
    requires Inv(s) && Enabled(s, RecoverWrite(p))
    ensures Inv(Next(s, RecoverWrite(p)))
  {
    var a := ActorOf(s, p);
    var n := Next(s, RecoverWrite(p));
    RowsKeepInv(s, n.rows);
    MoveKeepsInv(s.(rows := n.rows), p, Recovering(a.rolled));
    assert n == Moved(s.(rows := n.rows), p, Recovering(a.rolled));
  }

  // ----- whole runs -----

  ghost predicate IsRun(s: State, steps: seq<Step>, end: State)
    decreases |steps|
  {
    if steps == [] then end == s
    else Refers(s) && Enabled(s, steps[0]) && IsRun(Next(s, steps[0]), steps[1..], end)
  }

  lemma {:induction false} RunKeepsInv(s: State, steps: seq<Step>, end: State)
    requires Inv(s) && IsRun(s, steps, end)
    ensures Inv(end)
    decreases |steps|
  {
    if steps != [] {
      StepKeepsInv(s, steps[0]);
      RunKeepsInv(Next(s, steps[0]), steps[1..], end);
    }
  }

  /**
   * Over any interleaving of all the actors, with crashes at any step, the send loop is started at most once for
   * every campaign row — and no two actors hold one row, nor does anyone hold a row that can still be claimed.
   */
  lemma {:induction false} ExecutedAtMostOnce(steps: seq<Step>, end: State)
    requires IsRun(State(map[], map[]), steps, end)
    ensures forall id :: id in end.rows ==> end.rows[id].executions <= 1
    ensures forall id :: id in end.rows && Sendable(end.rows[id]) ==> end.rows[id].executions == 0
    ensures forall p, q, id ::
              p in end.actors && q in end.actors && Holds(end.actors[p], id) && Holds(end.actors[q], id) ==> p == q
  {
    RunKeepsInv(State(map[], map[]), steps, end);
    assert forall id :: id in end.rows ==> RowOk(end.rows[id]);
  }

  lemma StepKeepsStarted(s: State, e: Step, id: Id)
    requires Inv(s) && Enabled(s, e) && id in s.rows
    ensures id in Next(s, e).rows && s.rows[id].executions <= Next(s, e).rows[id].executions
  {
    if e.ExpireStaleDrafts? || e.FoldEvents? || e.Capture? {
      assert id in Next(s, e).rows && s.rows[id].executions == Next(s, e).rows[id].executions;
    } else if !e.Execute? {
      OthersKeepExecutions(s, e, id);
    }
  }

  lemma OthersKeepExecutions(s: State, e: Step, id: Id)
    requires Refers(s) && Enabled(s, e) && id in s.rows
    requires !e.ExpireStaleDrafts? && !e.FoldEvents? && !e.Capture? && !e.Execute?
    ensures id in Next(s, e).rows && Next(s, e).rows[id].executions == s.rows[id].executions
  {
  }

  /** A row whose send was started — finished, failed, crashed or closed out by recovery — never becomes sendable. */
  lemma {:induction false} StartedNeverSendable(s: State, steps: seq<Step>, end: State, id: Id)
    requires Inv(s) && IsRun(s, steps, end) && id in s.rows && s.rows[id].executions == 1
    ensures id in end.rows && end.rows[id].executions == 1 && !Sendable(end.rows[id])
    decreases |steps|
  {
    RunKeepsInv(s, steps, end);
    if steps == [] {
      assert RowOk(s.rows[id]);
    } else {
      StepKeepsInv(s, steps[0]);
      StepKeepsStarted(s, steps[0], id);
      assert RowOk(Next(s, steps[0]).rows[id]);
      StartedNeverSendable(Next(s, steps[0]), steps[1..], end, id);
    }
  }

  /**
   * Recovery closes a stranded row out and touches no other: it marks it Sent exactly when its two reads showed a
   * delivery, and then a delivery is recorded; otherwise Failed; either way nobody can send it. A row that something
   * else has finished meanwhile is left alone.
   */
  lemma RecoveryCloses(s: State, p: Pid)
    requires Inv(s) && Enabled(s, RecoverWrite(p))
    ensures var a, n := ActorOf(s, p), Next(s, RecoverWrite(p));
            var r, r' := s.rows[a.id], n.rows[a.id];
            && (forall id :: id in n.rows && id != a.id ==> id in s.rows && n.rows[id] == s.rows[id])
            && (r.status == Scheduled && r.scheduledAt.None? ==>
                  && !Sendable(r')
                  && r'.status == (if a.delivered then Sent else Failed)
                  && (r'.status == Sent ==> Delivered(r'))
                  && (a.last.Some? ==> r'.lastSentAt == a.last))
            && (!(r.status == Scheduled && r.scheduledAt.None?) ==> r' == r)
  {
    assert ActorOk(s.rows, ActorOf(s, p));
  }

  lemma {:induction false} MaxOfIsLatest(times: seq<int>)
    ensures MaxOf(times).None? <==> times == []
    ensures MaxOf(times).Some? ==> MaxOf(times).value in times && forall t :: t in times ==> t <= MaxOf(times).value
  {
    if times != [] {
      MaxOfIsLatest(times[1..]);
      assert times == [times[0]] + times[1..];
    }
  }

  // ----- how the parts of a life end -----

  /**
   * How a send ends: Sent when it succeeded and Failed when it did not, if that update lands; no delivery is lost
   * either way, nor is another row touched.
   */
  lemma SendEnds(s: State, p: Pid, ok: bool, lands: bool, now: int)
    requires Refers(s) && Enabled(s, Finish(p, ok, lands, now))
    ensures var id, n := ActorOf(s, p).id, Next(s, Finish(p, ok, lands, now));
            && n.rows == s.rows[id := n.rows[id]] && n.rows[id].sentRows == s.rows[id].sentRows
            && (lands && ok ==> n.rows[id].status == Sent && n.rows[id].lastSentAt == Some(now))
            && (lands && !ok ==> n.rows[id].status == Failed && n.rows[id].lastSentAt == s.rows[id].lastSentAt)
            && (!lands ==> n.rows[id] == s.rows[id])
            && ActorOf(n, p) == if ActorOf(s, p).rest == {} then Idle else Sweeping(ActorOf(s, p).rest)
  {
  }

  /** The sweeper's list: every deferred row whose time has come, and no other. */
  lemma SweeperListsTheDue(s: State, p: Pid, now: int, id: Id)
    requires Refers(s) && Enabled(s, SweepRead(p, now))
    ensures var a := ActorOf(Next(s, SweepRead(p, now)), p);
            && a.Sweeping?
            && (id in a.rest <==>
                  id in s.rows && s.rows[id].status == Scheduled
                  && exists t :: t <= now && s.rows[id].scheduledAt == Some(t))
  {
    if id in s.rows && s.rows[id].scheduledAt.Some? {
      assert s.rows[id].scheduledAt == Some(s.rows[id].scheduledAt.value);
    }
  }

  /** A captured row can be claimed by its button at once, and a queued one can be picked by the pacer. */
  lemma CapturedCanBeClaimed(s: State, id: Id, queue: Queue, createdAt: int, p: Pid, now: int)
    requires Inv(s) && Enabled(s, Capture(id, queue, createdAt)) && ActorOf(s, p).Idle?
    ensures var n := Next(s, Capture(id, queue, createdAt));
            && Refers(n) && Sendable(n.rows[id])
            && (queue == Qualified || queue == Fallback ==>
                  && Enabled(n, Pick(p, id)) && Enabled(n, QueueClaim(p, id, now))
                  && ActorOf(Next(n, QueueClaim(p, id, now)), p) == Holding(id, ByQueuePush, {}))
            && (queue == Review ==>
                  && Enabled(n, ReviewClaim(p, id, false, true)) && !Enabled(n, Pick(p, id))
                  && ActorOf(Next(n, ReviewClaim(p, id, false, true)), p) == Holding(id, ByReviewPush, {}))
  {
    StepKeepsInv(s, Capture(id, queue, createdAt));
  }

  /** A dead link is archived by the pacer and by both buttons, and by nobody else; it is never sent after that. */
  lemma DeadLinkIsArchived(s: State, p: Pid)
    requires Inv(s) && ActorOf(s, p).Holding?
    ensures Enabled(s, ArchiveDead(p)) <==> !ActorOf(s, p).origin.BySweeper? && !ActorOf(s, p).origin.ByDispatch?
    ensures Enabled(s, ArchiveDead(p)) ==>
              var id, n := ActorOf(s, p).id, Next(s, ArchiveDead(p));
              && n.rows == s.rows[id := n.rows[id]] && n.rows[id].status == Expired && n.rows[id].executions == 0
              && !Sendable(n.rows[id]) && !Holds(ActorOf(n, p), id)
  {
    assert ActorOk(s.rows, ActorOf(s, p));
  }

  /**
   * What an editor decides about a waiting row happens once: approved, it goes on to the queue; pushed, to be sent;
   * rejected, to nobody, and nobody can claim it any more.
   */
  lemma ReviewDecides(s: State, p: Pid, id: Id, approve: bool, push: bool)
    requires Inv(s) && Enabled(s, ReviewClaim(p, id, approve, push))
    ensures var r, n := s.rows[id], Next(s, ReviewClaim(p, id, approve, push));
            if r.status == Draft && r.queue == Review && !r.reviewed then
              && n.rows == s.rows[id := n.rows[id]] && n.rows[id].status == Draft && !Sendable(n.rows[id])
              && (approve ==> ActorOf(n, p) == Approving(id))
              && (!approve && push ==> ActorOf(n, p) == Holding(id, ByReviewPush, {}))
              && (!approve && !push ==> forall q :: q in n.actors ==> !Holds(n.actors[q], id))
            else n == s
  {
    var r := s.rows[id];
    if r.status == Draft && r.queue == Review && !r.reviewed {
      forall q | q in s.actors
        ensures !Holds(s.actors[q], id)
      {
        assert ActorOk(s.rows, s.actors[q]);
      }
    }
  }

  /** Approving a reviewed draft puts it into the auto queue, where it can be claimed; rejecting it does not. */
  lemma ApprovedIsQueued(s: State, p: Pid)
    requires Inv(s) && Enabled(s, Approve(p))
    ensures var id, n := ActorOf(s, p).id, Next(s, Approve(p));
            && n.rows[id].queue == Qualified && n.rows[id].status == s.rows[id].status
            && (Sendable(n.rows[id]) <==> s.rows[id].status == Draft)
  {
    assert ActorOk(s.rows, ActorOf(s, p));
  }

  /** Retention of drafts: exactly the drafts captured before the cutoff expire, whatever queue they are in. */
  lemma StaleDraftsExpire(s: State, cutoff: int, id: Id)
    requires Refers(s) && id in s.rows
    ensures var n := Next(s, ExpireStaleDrafts(cutoff));
            && id in n.rows
            && (s.rows[id].status == Draft && s.rows[id].createdAt < cutoff ==>
                  n.rows[id].status == Expired && !Sendable(n.rows[id]))
            && (s.rows[id].status != Draft || s.rows[id].createdAt >= cutoff ==> n.rows[id] == s.rows[id])
  {
  }

  // ----- recovery, from its read to its write -----

  predicate IsStranded(r: Row) {
    r.status == Scheduled && r.scheduledAt.None?
  }

  /** The deliveries on record for a row, live or rolled up. */
  function Recorded(r: Row): nat {
    |r.sentRows| + r.rolledSent
  }

  predicate Delivers(s: State, e: Step, id: Id) {
    e.Deliver? && ActorOf(s, e.p).Executing? && ActorOf(s, e.p).id == id
  }

  function FoldedBy(s: State, e: Step, id: Id): nat
    requires Enabled(s, e)
  {
    if e.FoldEvents? && e.id == id then |s.rows[id].sentRows| - |e.keep| else 0
  }

  /** The deliveries of a row that are folded along a run. */
  ghost function FoldedIn(s: State, steps: seq<Step>, end: State, id: Id): nat
    requires IsRun(s, steps, end)
    decreases |steps|
  {
    if steps == [] then 0 else FoldedBy(s, steps[0], id) + FoldedIn(Next(s, steps[0]), steps[1..], end, id)
  }

  /** The deliveries of a row that are recorded along a run. */
  ghost function DeliveredIn(s: State, steps: seq<Step>, end: State, id: Id): nat
    requires IsRun(s, steps, end)
    decreases |steps|
  {
    if steps == [] then 0
    else (if Delivers(s, steps[0], id) then 1 else 0) + DeliveredIn(Next(s, steps[0]), steps[1..], end, id)
  }

  lemma StepRecords(s: State, e: Step, id: Id)
    requires Refers(s) && Enabled(s, e) && id in s.rows
    ensures id in Next(s, e).rows
    ensures Next(s, e).rows[id].rolledSent == s.rows[id].rolledSent + FoldedBy(s, e, id)
    ensures Recorded(Next(s, e).rows[id]) == Recorded(s.rows[id]) + (if Delivers(s, e, id) then 1 else 0)
  {
  }

  /** Along a run a row's rolled count grows by what is folded, and its record by what is delivered. */
  lemma {:induction false} RunRecords(s: State, steps: seq<Step>, end: State, id: Id)
    requires IsRun(s, steps, end) && id in s.rows
    ensures id in end.rows
    ensures end.rows[id].rolledSent == s.rows[id].rolledSent + FoldedIn(s, steps, end, id)
    ensures Recorded(end.rows[id]) == Recorded(s.rows[id]) + DeliveredIn(s, steps, end, id)
    decreases |steps|
  {
    if steps != [] {
      StepRecords(s, steps[0], id);
      RunRecords(Next(s, steps[0]), steps[1..], end, id);
    }
  }

  /** The rolled count an actor has read for a row, as long as it still means to look at it. */
  predicate ReadAs(a: Actor, id: Id, rolled: nat) {
    (a.Recovering? || a.Judging?) && id in a.rolled ==> a.rolled[id] == rolled
  }

  lemma StepKeepsRead(s: State, e: Step, p: Pid, id: Id, rolled: nat)
    requires Refers(s) && Enabled(s, e) && ReadAs(ActorOf(s, p), id, rolled) && !(e.RecoverRead? && e.p == p)
    ensures ReadAs(ActorOf(Next(s, e), p), id, rolled)
  {
  }

  lemma {:induction false} RunKeepsRead(s: State, steps: seq<Step>, end: State, p: Pid, id: Id, rolled: nat)
    requires IsRun(s, steps, end) && ReadAs(ActorOf(s, p), id, rolled)
    requires forall e :: e in steps ==> !(e.RecoverRead? && e.p == p)
    ensures ReadAs(ActorOf(end, p), id, rolled)
    decreases |steps|
  {
    if steps != [] {
      StepKeepsRead(s, steps[0], p, id, rolled);
      RunKeepsRead(Next(s, steps[0]), steps[1..], end, p, id, rolled);
    }
  }

  /** The verdict an actor is about to write, if it is about to write one. */
  predicate Judges(a: Actor, id: Id, delivered: bool, last: Option<int>) {
    a.Judging? ==> a.id == id && a.delivered == delivered && a.last == last
  }

  lemma StepKeepsVerdict(s: State, e: Step, p: Pid, id: Id, delivered: bool, last: Option<int>)
    requires Refers(s) && Enabled(s, e) && Judges(ActorOf(s, p), id, delivered, last) && !(e.RecoverLook? && e.p == p)
    ensures Judges(ActorOf(Next(s, e), p), id, delivered, last)
  {
  }

  lemma {:induction false} RunKeepsVerdict(s: State, steps: seq<Step>, end: State, p: Pid, id: Id, delivered: bool,
                                           last: Option<int>)
    requires IsRun(s, steps, end) && Judges(ActorOf(s, p), id, delivered, last)
    requires forall e :: e in steps ==> !(e.RecoverLook? && e.p == p)
    ensures Judges(ActorOf(end, p), id, delivered, last)
    decreases |steps|
  {
    if steps != [] {
      StepKeepsVerdict(s, steps[0], p, id, delivered, last);
      RunKeepsVerdict(Next(s, steps[0]), steps[1..], end, p, id, delivered, last);
    }
  }

  predicate Takes(s: State, e: Step, n: State) {
    Enabled(s, e) && (forall p :: p in s.actors ==> ActorRefers(s.rows, s.actors[p])) && Next(s, e) == n
  }

  /**
   * One row's recovery within a run: at `read` the actor lists it as stranded, at `look` it looks for a live delivery,
   * at `write` it writes what it concluded. Anything else may happen in between.
   */
  datatype Recovery = Recovery(
    read: State, listed: State, before: seq<Step>, look: State, looked: State, between: seq<Step>, write: State,
    closed: State)

  ghost predicate IsRecovery(v: Recovery, p: Pid, cutoff: int, id: Id) {
    && Inv(v.read) && Takes(v.read, RecoverRead(p, cutoff), v.listed) && id in ActorOf(v.listed, p).rolled
    && IsRun(v.listed, v.before, v.look) && (forall e :: e in v.before ==> !(e.RecoverRead? && e.p == p))
    && Takes(v.look, RecoverLook(p, id), v.looked)
    && IsRun(v.looked, v.between, v.write) && (forall e :: e in v.between ==> !(e.RecoverLook? && e.p == p))
    && Takes(v.write, RecoverWrite(p), v.closed)
  }

  lemma AfterRead(s: State, p: Pid, cutoff: int, listed: State, id: Id)
    requires Inv(s) && Takes(s, RecoverRead(p, cutoff), listed) && id in ActorOf(listed, p).rolled
    ensures Inv(listed) && listed.rows == s.rows && ReadAs(ActorOf(listed, p), id, s.rows[id].rolledSent)
  {
    StepKeepsInv(s, RecoverRead(p, cutoff));
  }

  lemma AfterLook(s: State, p: Pid, id: Id, rolled: nat)
    requires Inv(s) && Enabled(s, RecoverLook(p, id)) && ReadAs(ActorOf(s, p), id, rolled)
    ensures var looked := Next(s, RecoverLook(p, id));
            && Inv(looked) && looked.rows == s.rows
            && Judges(ActorOf(looked, p), id, s.rows[id].sentRows != [] || rolled > 0, MaxOf(s.rows[id].sentRows))
  {
    StepKeepsInv(s, RecoverLook(p, id));
    MaxOfIsLatest(s.rows[id].sentRows);
  }

  /** What recovery writes was decided by the rolled count it read and the live rows it then saw. */
  lemma VerdictIsWhatItSaw(listed: State, p: Pid, id: Id, rolled: nat, before: seq<Step>, look: State, looked: State,
                           between: seq<Step>, write: State)
    requires Inv(listed) && IsRun(listed, before, look) && ReadAs(ActorOf(listed, p), id, rolled)
    requires forall e :: e in before ==> !(e.RecoverRead? && e.p == p)
    requires Takes(look, RecoverLook(p, id), looked)
    requires IsRun(looked, between, write)
    requires forall e :: e in between ==> !(e.RecoverLook? && e.p == p)
    ensures id in look.rows && Inv(look) && Inv(looked) && looked.rows == look.rows && Inv(write)
    ensures Judges(ActorOf(write, p), id, look.rows[id].sentRows != [] || rolled > 0, MaxOf(look.rows[id].sentRows))
  {
    RunKeepsInv(listed, before, look);
    RunKeepsRead(listed, before, look, p, id, rolled);
    AfterLook(look, p, id, rolled);
    RunKeepsInv(looked, between, write);
    RunKeepsVerdict(looked, between, write, p, id, look.rows[id].sentRows != [] || rolled > 0,
                    MaxOf(look.rows[id].sentRows));
  }

  /** The record of the row at the write, from what it was at the read and what happened since. */
  lemma RecordSinceRead(listed: State, id: Id, before: seq<Step>, look: State, looked: State, between: seq<Step>,
                        write: State)
    requires id in listed.rows && IsRun(listed, before, look)
    requires looked.rows == look.rows && IsRun(looked, between, write)
    ensures id in look.rows && id in write.rows
    ensures look.rows[id].sentRows == [] && listed.rows[id].rolledSent == 0 ==>
              Recorded(write.rows[id])
              == FoldedIn(listed, before, look, id) + DeliveredIn(looked, between, write, id)
    ensures Recorded(write.rows[id]) >= Recorded(look.rows[id]) >= Recorded(listed.rows[id])
  {
    RunRecords(listed, before, look, id);
    RunRecords(looked, between, write, id);
  }

  /** The truth of a verdict, once the record at the write is known. */
  lemma TruthIff(s: State, p: Pid, closed: State, id: Id, rolled: nat, live: seq<int>, since: nat)
    requires Inv(s) && Takes(s, RecoverWrite(p), closed) && id in s.rows
    requires Judges(ActorOf(s, p), id, live != [] || rolled > 0, MaxOf(live))
    requires if live == [] && rolled == 0 then Recorded(s.rows[id]) == since else Recorded(s.rows[id]) > 0
    ensures id in closed.rows
    ensures var r, r' := s.rows[id], closed.rows[id];
            if IsStranded(r) then
              && r'.status in {Sent, Failed} && !Sendable(r')
              && r'.lastSentAt == (if live == [] then r.lastSentAt else MaxOf(live))
              && ((r'.status == Sent <==> Delivered(r')) <==> (rolled > 0 || live != [] || since == 0))
            else r' == r
  {
    RecoveryCloses(s, p);
    MaxOfIsLatest(live);
    assert Delivered(s.rows[id]) <==> Recorded(s.rows[id]) > 0;
  }

  /** What stands at the write, from the state in which the row has just been listed. */
  lemma StandsAtTheWrite(listed: State, p: Pid, id: Id, before: seq<Step>, look: State, looked: State,
                         between: seq<Step>, write: State)
    requires Inv(listed) && id in listed.rows && ReadAs(ActorOf(listed, p), id, listed.rows[id].rolledSent)
    requires IsRun(listed, before, look) && forall e :: e in before ==> !(e.RecoverRead? && e.p == p)
    requires Takes(look, RecoverLook(p, id), looked)
    requires IsRun(looked, between, write) && forall e :: e in between ==> !(e.RecoverLook? && e.p == p)
    ensures id in look.rows && id in write.rows && Inv(write)
    ensures var live, rolled := look.rows[id].sentRows, listed.rows[id].rolledSent;
            && Judges(ActorOf(write, p), id, live != [] || rolled > 0, MaxOf(live))
            && if live == [] && rolled == 0
               then Recorded(write.rows[id])
                    == FoldedIn(listed, before, look, id) + DeliveredIn(looked, between, write, id)
               else Recorded(write.rows[id]) > 0
  {
    VerdictIsWhatItSaw(listed, p, id, listed.rows[id].rolledSent, before, look, looked, between, write);
    RecordSinceRead(listed, id, before, look, looked, between, write);
  }

  /**
   * A row still stranded at the write is closed out: Sent or Failed, never to be sent again, with the latest live
   * delivery seen as its time, or with the time it had. That is the truth — Sent exactly when a delivery is on record
   * — if and only if the read found a roll-up, or the look found a live row, or no delivery of the row was folded
   * between the read and the look and none recorded between the look and the write. A row that something else finished
   * meanwhile is left alone.
   */
  lemma RecoveryTellsTruthIff(v: Recovery, p: Pid, cutoff: int, id: Id)
    requires IsRecovery(v, p, cutoff, id)
    ensures id in v.look.rows && id in v.write.rows && id in v.closed.rows
    ensures var live, r, r' := v.look.rows[id].sentRows, v.write.rows[id], v.closed.rows[id];
            if IsStranded(r) then
              && r'.status in {Sent, Failed} && !Sendable(r')
              && r'.lastSentAt == (if live == [] then r.lastSentAt else MaxOf(live))
              && ((r'.status == Sent <==> Delivered(r')) <==>
                    || v.read.rows[id].rolledSent > 0 || live != []
                    || (FoldedIn(v.listed, v.before, v.look, id) == 0
                        && DeliveredIn(v.looked, v.between, v.write, id) == 0))
            else r' == r
  {
    var since := FoldedIn(v.listed, v.before, v.look, id) + DeliveredIn(v.looked, v.between, v.write, id);
    AfterRead(v.read, p, cutoff, v.listed, id);
    StandsAtTheWrite(v.listed, p, id, v.before, v.look, v.looked, v.between, v.write);
    TruthIff(v.write, p, v.closed, id, v.read.rows[id].rolledSent, v.look.rows[id].sentRows, since);
  }

  predicate IsAt(a: Actor, id: Id) {
    (a.Holding? || a.Approving? || a.Executing?) && a.id == id
  }

  /** The process that was sending the row has died: nobody is at it, and nobody can claim it any more. */
  ghost predicate Abandoned(s: State, id: Id) {
    && id in s.rows && s.rows[id].status != Draft && s.rows[id].scheduledAt.None?
    && forall q :: q in s.actors ==> !IsAt(s.actors[q], id)
  }

  lemma NotDue(s: State, p: Pid, id: Id)
    requires Inv(s) && id in s.rows && s.rows[id].scheduledAt.None?
    ensures var a := ActorOf(s, p); a.Holding? || a.Executing? || a.Sweeping? ==> id !in a.rest
  {
    if p in s.actors {
      assert ActorOk(s.rows, s.actors[p]);
    }
  }

  lemma StepKeepsAbandonedRow(s: State, e: Step, id: Id)
    requires Inv(s) && Enabled(s, e) && Abandoned(s, id)
    ensures id in Next(s, e).rows && Next(s, e).rows[id].status != Draft && Next(s, e).rows[id].scheduledAt.None?
  {
    if e.SweepDefer? || e.SweepClaim? {
      NotDue(s, e.p, id);
    }
  }

  lemma StepKeepsAbandoned(s: State, e: Step, id: Id)
    requires Inv(s) && Enabled(s, e) && Abandoned(s, id)
    ensures Abandoned(Next(s, e), id) && !Delivers(s, e, id)
  {
    StepKeepsAbandonedRow(s, e, id);
    var n := Next(s, e);
    forall q | q in n.actors
      ensures !IsAt(n.actors[q], id)
    {
      NotDue(s, q, id);
      if q in s.actors {
        assert !IsAt(s.actors[q], id);
      }
    }
  }

  lemma {:induction false} AbandonedStays(s: State, steps: seq<Step>, end: State, id: Id)
    requires Inv(s) && IsRun(s, steps, end) && Abandoned(s, id)
    ensures Abandoned(end, id) && DeliveredIn(s, steps, end, id) == 0
    decreases |steps|
  {
    if steps != [] {
      StepKeepsInv(s, steps[0]);
      StepKeepsAbandoned(s, steps[0], id);
      AbandonedStays(Next(s, steps[0]), steps[1..], end, id);
    }
  }

  /** Every batch of the run that touches the row has a cutoff no later than `t`. */
  predicate FoldsUpTo(steps: seq<Step>, id: Id, t: int) {
    forall e :: e in steps && e.FoldEvents? && e.id == id ==> e.cutoff <= t
  }

  /** A delivery no older than any cutoff stays live. */
  lemma {:induction false} RecentStaysLive(s: State, steps: seq<Step>, end: State, id: Id, t: int)
    requires IsRun(s, steps, end) && id in s.rows && t in s.rows[id].sentRows && FoldsUpTo(steps, id, t)
    ensures id in end.rows && t in end.rows[id].sentRows
    decreases |steps|
  {
    if steps != [] {
      StepKeepsLive(s, steps[0], id, t);
      RecentStaysLive(Next(s, steps[0]), steps[1..], end, id, t);
    }
  }

  lemma StepKeepsLive(s: State, e: Step, id: Id, t: int)
    requires Refers(s) && Enabled(s, e) && id in s.rows && t in s.rows[id].sentRows
    requires e.FoldEvents? && e.id == id ==> e.cutoff <= t
    ensures id in Next(s, e).rows && t in Next(s, e).rows[id].sentRows
  {
  }

  /**
   * A row whose sender has died is closed out truthfully if it had been rolled up already, or had no live delivery at
   * all, or has one that is younger than the retention window of every batch up to the look.
   */
  lemma RecoveryTellsTruth(v: Recovery, p: Pid, cutoff: int, id: Id)
    requires IsRecovery(v, p, cutoff, id) && Abandoned(v.read, id)
    requires || v.read.rows[id].rolledSent > 0 || v.read.rows[id].sentRows == []
             || exists t :: t in v.read.rows[id].sentRows && FoldsUpTo(v.before, id, t)
    ensures id in v.write.rows && id in v.closed.rows
    ensures var r, r' := v.write.rows[id], v.closed.rows[id];
            IsStranded(r) ==> r'.status in {Sent, Failed} && (r'.status == Sent <==> Delivered(r'))
  {
    RecoveryTellsTruthIff(v, p, cutoff, id);
    AfterRead(v.read, p, cutoff, v.listed, id);
    StepKeepsAbandoned(v.read, RecoverRead(p, cutoff), id);
    NothingDelivered(v.listed, id, v.before, v.look, p, v.looked, v.between, v.write);
    if v.read.rows[id].rolledSent == 0 && v.read.rows[id].sentRows != [] {
      var t :| t in v.read.rows[id].sentRows && FoldsUpTo(v.before, id, t);
      RecentStaysLive(v.listed, v.before, v.look, id, t);
    }
  }

  /** Every row that somebody is at was claimed later than the cutoff, or carries no claim time. */
  ghost predicate ClaimsAreRecent(s: State, cutoff: int) {
    forall q, id :: q in s.actors && id in s.rows && IsAt(s.actors[q], id) && s.rows[id].claimedAt.Some? ==>
      cutoff < s.rows[id].claimedAt.value
  }

  /** What recovery lists: every row stuck since the cutoff or before, with its roll-up, and nothing else. */
  lemma ListsTheStuck(s: State, p: Pid, cutoff: int, listed: State, id: Id)
    requires Takes(s, RecoverRead(p, cutoff), listed)
    ensures ActorOf(listed, p).Recovering?
    ensures id in ActorOf(listed, p).rolled <==>
              && id in s.rows && s.rows[id].status == Scheduled && s.rows[id].scheduledAt == None
              && exists t :: t <= cutoff && s.rows[id].claimedAt == Some(t)
    ensures id in ActorOf(listed, p).rolled ==> ActorOf(listed, p).rolled[id] == s.rows[id].rolledSent
  {
    if id in s.rows && s.rows[id].claimedAt.Some? {
      assert s.rows[id].claimedAt == Some(s.rows[id].claimedAt.value);
    }
  }

  /** As long as no send outlasts the cutoff, recovery lists only rows whose sender has died. */
  lemma ListsOnlyAbandoned(s: State, p: Pid, cutoff: int, listed: State, id: Id)
    requires Takes(s, RecoverRead(p, cutoff), listed) && ClaimsAreRecent(s, cutoff)
    requires id in ActorOf(listed, p).rolled
    ensures Abandoned(s, id)
  {
    ListsTheStuck(s, p, cutoff, listed, id);
  }

  /** So recovery tells the truth under conditions that hold before it starts. */
  lemma StaleClaimsToldTruly(v: Recovery, p: Pid, cutoff: int, id: Id)
    requires IsRecovery(v, p, cutoff, id) && ClaimsAreRecent(v.read, cutoff)
    requires || v.read.rows[id].rolledSent > 0 || v.read.rows[id].sentRows == []
             || exists t :: t in v.read.rows[id].sentRows && FoldsUpTo(v.before, id, t)
    ensures id in v.write.rows && id in v.closed.rows
    ensures var r, r' := v.write.rows[id], v.closed.rows[id];
            IsStranded(r) ==> r'.status in {Sent, Failed} && (r'.status == Sent <==> Delivered(r'))
  {
    ListsOnlyAbandoned(v.read, p, cutoff, v.listed, id);
    RecoveryTellsTruth(v, p, cutoff, id);
  }

  /** The actor neither means to look at the row nor is about to write it. */
  predicate LeavesAlone(a: Actor, id: Id) {
    && (a.Recovering? || a.Judging? ==> id !in a.rolled)
    && (a.Judging? ==> a.id != id)
  }

  lemma {:induction false} RunLeavesAlone(s: State, steps: seq<Step>, end: State, p: Pid, id: Id)
    requires IsRun(s, steps, end) && LeavesAlone(ActorOf(s, p), id)
    requires forall e :: e in steps ==> !(e.RecoverRead? && e.p == p)
    ensures LeavesAlone(ActorOf(end, p), id)
    decreases |steps|
  {
    if steps != [] {
      StepLeavesAlone(s, steps[0], p, id);
      RunLeavesAlone(Next(s, steps[0]), steps[1..], end, p, id);
    }
  }

  lemma StepLeavesAlone(s: State, e: Step, p: Pid, id: Id)
    requires Refers(s) && Enabled(s, e) && LeavesAlone(ActorOf(s, p), id) && !(e.RecoverRead? && e.p == p)
    ensures LeavesAlone(ActorOf(Next(s, e), p), id)
  {
  }

  /** A row claimed after the cutoff is not touched by that recovery, however long it runs and whatever happens. */
  lemma FreshClaimIsSpared(s: State, p: Pid, cutoff: int, listed: State, steps: seq<Step>, write: State, closed: State,
                           id: Id)
    requires Takes(s, RecoverRead(p, cutoff), listed) && id in s.rows
    requires s.rows[id].claimedAt.Some? && cutoff < s.rows[id].claimedAt.value
    requires IsRun(listed, steps, write) && forall e :: e in steps ==> !(e.RecoverRead? && e.p == p)
    requires Takes(write, RecoverWrite(p), closed) && id in write.rows
    ensures id in closed.rows && closed.rows[id] == write.rows[id]
  {
    ListsTheStuck(s, p, cutoff, listed, id);
    RunLeavesAlone(listed, steps, write, p, id);
  }

  lemma NothingDelivered(listed: State, id: Id, before: seq<Step>, look: State, p: Pid, looked: State,
                         between: seq<Step>, write: State)
    requires Inv(listed) && Abandoned(listed, id) && IsRun(listed, before, look)
    requires Takes(look, RecoverLook(p, id), looked)
    requires IsRun(looked, between, write)
    ensures DeliveredIn(looked, between, write, id) == 0
    ensures Recorded(listed.rows[id]) == 0 ==> FoldedIn(listed, before, look, id) == 0
  {
    RunKeepsInv(listed, before, look);
    AbandonedStays(listed, before, look, id);
    StepKeepsInv(look, RecoverLook(p, id));
    StepKeepsAbandoned(look, RecoverLook(p, id), id);
    AbandonedStays(looked, between, write, id);
    RunRecords(listed, before, look, id);
  }

  // ----- two runs, step by step -----

  lemma {:induction false} RunThrough(states: seq<State>, steps: seq<Step>)
    requires |states| == |steps| + 1
    requires forall i :: 0 <= i < |steps| ==> Takes(states[i], steps[i], states[i + 1])
    ensures IsRun(states[0], steps, states[|steps|])
    decreases |steps|
  {
    if steps != [] {
      RunThrough(states[1..], steps[1..]);
    }
  }

  function One(r: Row, actors: map<Pid, Actor>): State {
    State(map[7 := r], actors)
  }

  const MINUTE_MS := 60_000
  const DAY_MS := 1_440 * MINUTE_MS

  const QUEUED := NewRow(Qualified, 0)
  const CLAIMED := QUEUED.(status := Scheduled, claimedAt := Some(50))
  const RUNNING := CLAIMED.(executions := 1)
  const STRANDED := RUNNING.(sentRows := [100])
  const FOLDED := STRANDED.(sentRows := [], rolledSent := 1)

  lemma MissSends()
    ensures Takes(State(map[], map[]), Capture(7, Qualified, 0), One(QUEUED, map[]))
    ensures Takes(One(QUEUED, map[]), Pick(1, 7), One(QUEUED, map[1 := Picked(7)]))
    ensures Takes(One(QUEUED, map[1 := Picked(7)]), PacerClaim(1, 50), One(CLAIMED, map[1 := Holding(7, ByPacer, {})]))
  {
    assert One(QUEUED, map[]).rows[7 := CLAIMED] == map[7 := CLAIMED];
  }

  lemma MissStarts()
    ensures Takes(One(CLAIMED, map[1 := Holding(7, ByPacer, {})]), Execute(1), One(RUNNING, map[1 := Executing(7, {})]))
  {
    assert One(CLAIMED, map[]).rows[7 := RUNNING] == map[7 := RUNNING];
  }

  lemma MissDelivers()
    ensures Takes(One(RUNNING, map[1 := Executing(7, {})]), Deliver(1, 100), One(STRANDED, map[1 := Executing(7, {})]))
  {
    assert RUNNING.sentRows + [100] == [100];
    assert One(RUNNING, map[]).rows[7 := STRANDED] == map[7 := STRANDED];
  }

  lemma MissCrashes()
    ensures Takes(One(STRANDED, map[1 := Executing(7, {})]), Crash(1), One(STRANDED, map[1 := Idle]))
  {
  }

  const CUTOFF := 31 * DAY_MS - 30 * MINUTE_MS

  lemma MissReads()
    ensures Takes(One(STRANDED, map[1 := Idle]), RecoverRead(2, CUTOFF),
                  One(STRANDED, map[1 := Idle, 2 := Recovering(map[7 := 0])]))
  {
    assert Stranded(One(STRANDED, map[1 := Idle]), CUTOFF) == map[7 := 0];
  }

  lemma MissFolds()
    ensures Takes(One(STRANDED, map[1 := Idle, 2 := Recovering(map[7 := 0])]),
                  FoldEvents(7, [], 31 * DAY_MS - 30 * DAY_MS),
                  One(FOLDED, map[1 := Idle, 2 := Recovering(map[7 := 0])]))
  {
    assert One(STRANDED, map[]).rows[7 := FOLDED] == map[7 := FOLDED];
  }

  lemma MissLooks()
    ensures Takes(One(FOLDED, map[1 := Idle, 2 := Recovering(map[7 := 0])]), RecoverLook(2, 7),
                  One(FOLDED, map[1 := Idle, 2 := Judging(7, false, None, map[])]))
  {
    var none: map<Id, nat> := map[];
    assert map[7 := 0] - {7} == none;
  }

  lemma MissWrites()
    ensures Takes(One(FOLDED, map[1 := Idle, 2 := Judging(7, false, None, map[])]), RecoverWrite(2),
                  One(FOLDED.(status := Failed), map[1 := Idle, 2 := Recovering(map[])]))
  {
    assert One(FOLDED, map[]).rows[7 := FOLDED.(status := Failed)] == map[7 := FOLDED.(status := Failed)];
  }

  /**
   * The race, step by step from the empty store: a delivery at 100 ms, then the process dies. Recovery first runs 31
   * days later; between its two reads event retention, with a window of 30 days, folds that delivery, and the row is
   * closed out as Failed.
   */
  lemma RecoveryCanMiss() returns (steps: seq<Step>, end: State)
    ensures steps == [Capture(7, Qualified, 0), Pick(1, 7), PacerClaim(1, 50), Execute(1), Deliver(1, 100), Crash(1),
                      RecoverRead(2, 31 * DAY_MS - 30 * MINUTE_MS), FoldEvents(7, [], 31 * DAY_MS - 30 * DAY_MS),
                      RecoverLook(2, 7), RecoverWrite(2)]
    ensures IsRun(State(map[], map[]), steps, end)
    ensures 7 in end.rows && end.rows[7].status == Failed && Delivered(end.rows[7])
  {
    MissSends();
    MissStarts();
    MissDelivers();
    MissCrashes();
    MissReads();
    MissFolds();
    MissLooks();
    MissWrites();
    end := One(FOLDED.(status := Failed), map[1 := Idle, 2 := Recovering(map[])]);
    steps := [Capture(7, Qualified, 0), Pick(1, 7), PacerClaim(1, 50), Execute(1), Deliver(1, 100), Crash(1),
              RecoverRead(2, CUTOFF), FoldEvents(7, [], 31 * DAY_MS - 30 * DAY_MS), RecoverLook(2, 7), RecoverWrite(2)];
    var states := [State(map[], map[]), One(QUEUED, map[]), One(QUEUED, map[1 := Picked(7)]),
                   One(CLAIMED, map[1 := Holding(7, ByPacer, {})]), One(RUNNING, map[1 := Executing(7, {})]),
                   One(STRANDED, map[1 := Executing(7, {})]), One(STRANDED, map[1 := Idle]),
                   One(STRANDED, map[1 := Idle, 2 := Recovering(map[7 := 0])]),
                   One(FOLDED, map[1 := Idle, 2 := Recovering(map[7 := 0])]),
                   One(FOLDED, map[1 := Idle, 2 := Judging(7, false, None, map[])]), end];
    RunThrough(states, steps);
  }

  const QUEUED_WITH_TIME := Row(Scheduled, Qualified, Some(10), None, false, 0, [], 0, None, 0)
  const STARTED := QUEUED_WITH_TIME.(status := Draft, executions := 1)

  lemma TwiceReads()
    ensures var s := One(QUEUED_WITH_TIME, map[]);
            Takes(s, SweepRead(1, 20), One(QUEUED_WITH_TIME, map[1 := Sweeping({7})]))
  {
    var s := One(QUEUED_WITH_TIME, map[]);
    var n := Next(s, SweepRead(1, 20));
    assert 7 in n.actors[1].rest && forall id :: id in n.actors[1].rest ==> id == 7;
    assert n.actors[1].rest == {7};
  }

  lemma TwiceClaims()
    ensures var s := One(QUEUED_WITH_TIME, map[1 := Sweeping({7})]);
            Takes(s, SweepClaim(1, 7), One(QUEUED_WITH_TIME.(status := Draft), map[1 := Holding(7, BySweeper, {})]))
  {
    var s := One(QUEUED_WITH_TIME, map[1 := Sweeping({7})]);
    assert {7} - {7} == {};
    assert s.rows[7 := QUEUED_WITH_TIME.(status := Draft)] == map[7 := QUEUED_WITH_TIME.(status := Draft)];
  }

  lemma TwiceStarts()
    ensures var s := One(QUEUED_WITH_TIME.(status := Draft), map[1 := Holding(7, BySweeper, {})]);
            Takes(s, Execute(1), One(STARTED, map[1 := Executing(7, {})]))
  {
    var s := One(QUEUED_WITH_TIME.(status := Draft), map[1 := Holding(7, BySweeper, {})]);
    assert s.rows[7 := STARTED] == map[7 := STARTED];
  }

  lemma TwicePicks()
    ensures var s := One(STARTED, map[1 := Executing(7, {})]);
            Takes(s, Pick(2, 7), One(STARTED, map[1 := Executing(7, {}), 2 := Picked(7)]))
  {
  }

  lemma TwicePaces()
    ensures var s := One(STARTED, map[1 := Executing(7, {}), 2 := Picked(7)]);
            Takes(s, PacerClaim(2, 30), One(STARTED.(status := Scheduled, claimedAt := Some(30)),
                                            map[1 := Executing(7, {}), 2 := Holding(7, ByPacer, {})]))
  {
    var s := One(STARTED, map[1 := Executing(7, {}), 2 := Picked(7)]);
    var r := STARTED.(status := Scheduled, claimedAt := Some(30));
    assert s.rows[7 := r] == map[7 := r];
  }

  lemma TwiceStartsAgain()
    ensures var r := STARTED.(status := Scheduled, claimedAt := Some(30));
            Takes(One(r, map[1 := Executing(7, {}), 2 := Holding(7, ByPacer, {})]), Execute(2),
                  One(r.(executions := 2), map[1 := Executing(7, {}), 2 := Executing(7, {})]))
  {
    var r := STARTED.(status := Scheduled, claimedAt := Some(30));
    assert One(r, map[]).rows[7 := r.(executions := 2)] == map[7 := r.(executions := 2)];
  }

  /**
   * Why a queued row must not carry a `scheduledAt`: the sweeper's claim turns such a row back into a Draft that the
   * pacer can claim while the sweeper is sending it, and the send loop is started twice.
   */
  lemma ScheduledQueueRowSentTwice() returns (steps: seq<Step>, end: State)
    ensures steps == [SweepRead(1, 20), SweepClaim(1, 7), Execute(1), Pick(2, 7), PacerClaim(2, 30), Execute(2)]
    ensures IsRun(One(QUEUED_WITH_TIME, map[]), steps, end) && 7 in end.rows && end.rows[7].executions == 2
  {
    TwiceReads();
    TwiceClaims();
    TwiceStarts();
    TwicePicks();
    TwicePaces();
    TwiceStartsAgain();
    var r := STARTED.(status := Scheduled, claimedAt := Some(30));
    end := One(r.(executions := 2), map[1 := Executing(7, {}), 2 := Executing(7, {})]);
    steps := [SweepRead(1, 20), SweepClaim(1, 7), Execute(1), Pick(2, 7), PacerClaim(2, 30), Execute(2)];
    RunThrough([One(QUEUED_WITH_TIME, map[]), One(QUEUED_WITH_TIME, map[1 := Sweeping({7})]),
                One(QUEUED_WITH_TIME.(status := Draft), map[1 := Holding(7, BySweeper, {})]),
                One(STARTED, map[1 := Executing(7, {})]), One(STARTED, map[1 := Executing(7, {}), 2 := Picked(7)]),
                One(r, map[1 := Executing(7, {}), 2 := Holding(7, ByPacer, {})]), end], steps);
  }
}
