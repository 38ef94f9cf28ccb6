/**
 * What a digest's sends show (src/services/digest/stats.ts): the sends are read first, then the delivery events and the
 * live feedback side by side. A retention batch may commit between any two of these reads.
 */
module DigestStats {
  import opened Prelude
  import opened IstClock
  import opened DigestRetention

  // ----- one response -----

  /** The send's own row comes from one state of the store, the delivery events from another. */
  predicate ProvedRead(sendsFrom: Store, proofFrom: Store, send: SendId)
    requires send in sendsFrom.sends
  {
    var r := sendsFrom.sends[send];
    r.proofAt.Some? || Where(proofFrom.mails, ProofOf(send, r.mc)) != {}
  }

  function FigureRead(sendsFrom: Store, liveFrom: Store, send: SendId, typ: MailType): nat
    requires send in sendsFrom.sends
  {
    Column(sendsFrom.sends[send].rolled, typ) + |Where(liveFrom.mails, FeedbackOf(typ, send))|
  }

  function FiguresRead(sendsFrom: Store, liveFrom: Store, send: SendId): Feedback
    requires send in sendsFrom.sends
  {
    Feedback(FigureRead(sendsFrom, liveFrom, send, Unsubscribe), FigureRead(sendsFrom, liveFrom, send, HardBounce),
             FigureRead(sendsFrom, liveFrom, send, Spam))
  }

  /** What a response shows for a send: counts, or nothing for one that is not proved. */
  function ShownRead(sendsFrom: Store, proofFrom: Store, liveFrom: Store, send: SendId): (r: Option<Feedback>)
    requires send in sendsFrom.sends
    ensures sendsFrom == proofFrom == liveFrom ==> r == Shown(sendsFrom, send)
  {
    if ProvedRead(sendsFrom, proofFrom, send) then Some(FiguresRead(sendsFrom, liveFrom, send)) else None
  }

  /** One group of the live query: the feedback rows of one type for one send. */
  datatype Key = Key(send: SendId, typ: MailType)

  ghost predicate IsGroupBy(mails: map<MailId, Mail>, ids: set<SendId>, live: map<Key, nat>) {
    && (forall k :: k in live ==> k.send in ids && live[k] == |Where(mails, FeedbackOf(k.typ, k.send))|)
    && (forall send, typ :: send in ids && IsFolded(typ) && Key(send, typ) !in live ==>
          Where(mails, FeedbackOf(typ, send)) == {})
  }

  function CampaignsOf(sends: map<SendId, SendRow>): set<McId> {
    set s | s in sends && sends[s].mc.Some? :: sends[s].mc.value
  }

  predicate IsSelected(m: Mail, ids: set<SendId>, mcs: set<McId>) {
    IsProof(m) && ((m.send.Some? && m.send.value in ids) || (m.mc.Some? && m.mc.value in mcs))
  }

  /** The delivery events that name one of the sends or one of their mail campaigns. */
  ghost predicate IsProofRead(mails: map<MailId, Mail>, ids: set<SendId>, mcs: set<McId>, proof: set<Mail>) {
    forall m :: m in proof <==> IsSelected(m, ids, mcs) && exists i :: i in mails && mails[i] == m
  }

  predicate IsCovered(r: SendRow, send: SendId, coveredSend: set<SendId>, coveredCampaign: set<McId>) {
    r.proofAt.Some? || send in coveredSend || (r.mc.Some? && r.mc.value in coveredCampaign)
  }

  function SendsNamed(proof: set<Mail>): set<SendId> {
    set m | m in proof && m.send.Some? :: m.send.value
  }

  function CampaignsNamed(proof: set<Mail>): set<McId> {
    set m | m in proof && m.mc.Some? :: m.mc.value
  }

  /** The two sets of names decide what the rows themselves would. */
  lemma CoveredIsProved(sends: map<SendId, SendRow>, ids: set<SendId>, mails: map<MailId, Mail>, proof: set<Mail>,
                        send: SendId)
    requires send in sends && send in ids && IsProofRead(mails, ids, CampaignsOf(sends), proof)
    ensures var r := sends[send];
            IsCovered(r, send, SendsNamed(proof), CampaignsNamed(proof)) <==>
              (r.proofAt.Some? || Where(mails, ProofOf(send, r.mc)) != {})
  {
    var mc := sends[send].mc;
    if i :| i in Where(mails, ProofOf(send, mc)) {
      var m := mails[i];
      assert mc.Some? ==> mc.value in CampaignsOf(sends);
      assert m in proof;
    }
    if m :| m in proof && Proves(m, send, mc) {
      var i :| i in mails && mails[i] == m;
      assert i in Where(mails, ProofOf(send, mc));
    }
  }

  function CountIn(live: map<Key, nat>, seen: set<Key>, send: SendId, typ: MailType): nat {
    if Key(send, typ) in seen && Key(send, typ) in live then live[Key(send, typ)] else 0
  }

  /** The rolled figures of the covered sends, plus the groups seen so far. */
  ghost predicate Adds(out: map<SendId, Feedback>, sends: map<SendId, SendRow>, live: map<Key, nat>, seen: set<Key>) {
    forall s :: s in out ==> s in sends && AddsFor(out[s], sends[s].rolled, live, seen, s)
  }

  ghost predicate AddsFor(shown: Feedback, rolled: Feedback, live: map<Key, nat>, seen: set<Key>, send: SendId) {
    forall typ :: IsFolded(typ) ==> Column(shown, typ) == Column(rolled, typ) + CountIn(live, seen, send, typ)
  }

  function AddGroup(f: Feedback, typ: MailType, n: nat): Feedback {
    if typ == Unsubscribe then f.(unsub := f.unsub + n)
    else if typ == HardBounce then f.(bounce := f.bounce + n)
    else if typ == Spam then f.(spam := f.spam + n)
    else f
  }

  lemma AddsNext(shown: Feedback, rolled: Feedback, live: map<Key, nat>, seen: set<Key>, send: SendId, k: Key)
    requires AddsFor(shown, rolled, live, seen, send) && k in live && k !in seen
    ensures AddsFor(if k.send == send then AddGroup(shown, k.typ, live[k]) else shown, rolled, live, seen + {k}, send)
  {
    var next := if k.send == send then AddGroup(shown, k.typ, live[k]) else shown;
    forall typ | IsFolded(typ)
      ensures Column(next, typ) == Column(rolled, typ) + CountIn(live, seen + {k}, send, typ)
    {
      assert Column(shown, typ) == Column(rolled, typ) + CountIn(live, seen, send, typ);
      if Key(send, typ) == k {
        assert CountIn(live, seen + {k}, send, typ) == live[k];
      } else {
        assert CountIn(live, seen + {k}, send, typ) == CountIn(live, seen, send, typ);
      }
    }
  }

  /** The first loop: an entry, at its rolled figures, for every send that is covered. */
  method Covered(sends: map<SendId, SendRow>, coveredSend: set<SendId>, coveredCampaign: set<McId>)
    returns (out: map<SendId, Feedback>)
    ensures out == map s | s in sends && IsCovered(sends[s], s, coveredSend, coveredCampaign) :: sends[s].rolled
  {
    out := map[];
    var todo := sends.Keys;
    while todo != {}
      invariant todo <= sends.Keys
      invariant out == map s | s in sends && s !in todo && IsCovered(sends[s], s, coveredSend, coveredCampaign) ::
                         sends[s].rolled
    {
      var s :| s in todo;
      todo := todo - {s};
      if sends[s].proofAt.Some? || s in coveredSend || (sends[s].mc.Some? && sends[s].mc.value in coveredCampaign) {
        out := out[s := sends[s].rolled];
      }
    }
  }

  /** The second loop: the live groups of the sends that have an entry. */
  method AddGroups(covered: map<SendId, Feedback>, sends: map<SendId, SendRow>, live: map<Key, nat>)
    returns (out: map<SendId, Feedback>)
    requires forall s :: s in covered ==> s in sends && covered[s] == sends[s].rolled
    ensures out.Keys == covered.Keys && Adds(out, sends, live, live.Keys)
  {
    out := covered;
    var left := live.Keys;
    ghost var seen := {};
    while left != {}
      invariant seen + left == live.Keys && seen !! left
      invariant out.Keys == covered.Keys && Adds(out, sends, live, seen)
    {
      var k :| k in left;
      forall s | s in out {
        AddsNext(out[s], sends[s].rolled, live, seen, s, k);
      }
      left, seen := left - {k}, seen + {k};
      if k.send in out {
        out := out[k.send := AddGroup(out[k.send], k.typ, live[k])];
      }
    }
  }

  /** For every send found, exactly what the three states show. */
  method DigestSendStats(ids: set<SendId>, sends: map<SendId, SendRow>, proof: set<Mail>, live: map<Key, nat>,
                         ghost sendsFrom: Store, ghost proofFrom: Store, ghost liveFrom: Store)
    returns (out: map<SendId, Feedback>)
    requires sends == map s | s in ids && s in sendsFrom.sends :: sendsFrom.sends[s]
    requires IsProofRead(proofFrom.mails, ids, CampaignsOf(sends), proof) && IsGroupBy(liveFrom.mails, ids, live)
    ensures out.Keys <= sends.Keys
    ensures forall s :: s in sends ==>
              (if s in out then Some(out[s]) else None) == ShownRead(sendsFrom, proofFrom, liveFrom, s)
  {
    var covered := Covered(sends, SendsNamed(proof), CampaignsNamed(proof));
    out := AddGroups(covered, sends, live);
    forall s | s in sends
      ensures (if s in out then Some(out[s]) else None) == ShownRead(sendsFrom, proofFrom, liveFrom, s)
    {
      CoveredIsProved(sends, ids, proofFrom.mails, proof, s);
      if s in out {
        AllGroupsGiveFigures(out[s], sendsFrom, liveFrom, ids, live, s);
      }
    }
  }

  lemma AllGroupsGiveFigures(shown: Feedback, sendsFrom: Store, liveFrom: Store, ids: set<SendId>, live: map<Key, nat>,
                             send: SendId)
    requires send in sendsFrom.sends && send in ids && IsGroupBy(liveFrom.mails, ids, live)
    requires AddsFor(shown, sendsFrom.sends[send].rolled, live, live.Keys, send)
    ensures shown == FiguresRead(sendsFrom, liveFrom, send)
  {
    forall typ | IsFolded(typ)
      ensures CountIn(live, live.Keys, send, typ) == |Where(liveFrom.mails, FeedbackOf(typ, send))|
    {
    }
    assert shown.unsub == Column(shown, Unsubscribe);
    assert shown.bounce == Column(shown, HardBounce);
    assert shown.spam == Column(shown, Spam);
  }

  // ----- what retention batches between the reads do to a response -----

  /** The rows folded in a stretch of a run, in order. */
  function FoldedRows(steps: seq<Step>): seq<Row> {
    if steps == [] then [] else FoldedBy(steps[0]) + FoldedRows(steps[1..])
  }

  function FoldedBy(step: Step): seq<Row> {
    if step.Fold? then step.batch else []
  }

  /** How many feedback rows of a send and type were folded. */
  function FeedbackFolded(steps: seq<Step>, send: SendId, typ: MailType): nat {
    Count(RowIs(FeedbackOf(typ, send)), FoldedRows(steps))
  }

  lemma StepKeepsRows(p: Pair, e: Step, send: SendId, typ: MailType)
    requires Enabled(p, e) && send in p.swept.sends && send in p.unswept.sends && IsFolded(typ)
    ensures var n := Next(p, e);
            && send in n.swept.sends && send in n.unswept.sends
            && Column(n.unswept.sends[send].rolled, typ) == Column(p.unswept.sends[send].rolled, typ)
            && Column(n.swept.sends[send].rolled, typ)
            == Column(p.swept.sends[send].rolled, typ) + Count(RowIs(FeedbackOf(typ, send)), FoldedBy(e))
  {
    if e.Fold? {
      assert Next(p, e).swept.sends[send].rolled == Add(p.swept.sends[send].rolled, Tally(e.batch, send));
    } else {
      assert Next(p, e).swept.sends[send].rolled == p.swept.sends[send].rolled;
    }
  }

  /** Over a stretch of a run a send's counters grow by exactly what was folded, and without retention not at all. */
  lemma {:induction false} CountersGrow(p: Pair, steps: seq<Step>, q: Pair, send: SendId, typ: MailType)
    requires IsRun(p, steps, q) && send in p.swept.sends && send in p.unswept.sends && IsFolded(typ)
    ensures send in q.swept.sends && send in q.unswept.sends
    ensures Column(q.unswept.sends[send].rolled, typ) == Column(p.unswept.sends[send].rolled, typ)
    ensures Column(q.swept.sends[send].rolled, typ)
         == Column(p.swept.sends[send].rolled, typ) + FeedbackFolded(steps, send, typ)
    decreases |steps|
  {
    if steps != [] {
      StepKeepsRows(p, steps[0], send, typ);
      CountersGrow(Next(p, steps[0]), steps[1..], q, send, typ);
      CountConcat(RowIs(FeedbackOf(typ, send)), FoldedBy(steps[0]), FoldedRows(steps[1..]));
    }
  }

  /**
   * A count read apart from its live half falls short by exactly the feedback rows folded in between: it is right if
   * and only if there were none.
   */
  lemma FigureReadApart(p: Pair, steps: seq<Step>, q: Pair, send: SendId, typ: MailType)
    requires Agree(p) && IsRun(p, steps, q) && send in p.swept.sends && IsFolded(typ)
    ensures send in q.unswept.sends
    ensures FigureRead(p.unswept, q.unswept, send, typ) == CountOf(q.unswept, send, typ)
    ensures FigureRead(p.swept, q.swept, send, typ) + FeedbackFolded(steps, send, typ) == CountOf(q.unswept, send, typ)
  {
    assert SameFor(p.swept, p.unswept, send);
    FigureWithoutRetention(p, steps, q, send, typ);
    CountersGrow(p, steps, q, send, typ);
    SameCountAfter(p, steps, q, send, typ);
    assert CountOf(q.swept, send, typ) == FigureRead(p.swept, q.swept, send, typ) + FeedbackFolded(steps, send, typ);
  }

  lemma FigureWithoutRetention(p: Pair, steps: seq<Step>, q: Pair, send: SendId, typ: MailType)
    requires IsRun(p, steps, q) && send in p.swept.sends && send in p.unswept.sends && IsFolded(typ)
    ensures send in q.unswept.sends
    ensures FigureRead(p.unswept, q.unswept, send, typ) == CountOf(q.unswept, send, typ)
  {
    CountersGrow(p, steps, q, send, typ);
  }

  lemma SameCountAfter(p: Pair, steps: seq<Step>, q: Pair, send: SendId, typ: MailType)
    requires Agree(p) && IsRun(p, steps, q) && send in q.swept.sends && IsFolded(typ)
    ensures send in q.unswept.sends && CountOf(q.swept, send, typ) == CountOf(q.unswept, send, typ)
  {
    DigestRetention.RetentionIsInvisible(p, steps, q);
    assert SameFor(q.swept, q.unswept, send);
  }

  ghost predicate ProofFolded(steps: seq<Step>, send: SendId, mc: Option<McId>) {
    BatchProves(FoldedRows(steps), send, mc)
  }

  predicate HasProof(s: Store, send: SendId, mc: Option<McId>) {
    Where(s.mails, ProofOf(send, mc)) != {}
  }

  lemma StepKeepsProof(p: Pair, e: Step, send: SendId, mc: Option<McId>)
    requires Agree(p) && Enabled(p, e)
    ensures HasProof(p.unswept, send, mc) ==> HasProof(Next(p, e).unswept, send, mc)
    ensures BatchProves(FoldedBy(e), send, mc) ==> HasProof(p.unswept, send, mc)
    ensures (HasProof(p.swept, send, mc) <==> HasProof(p.unswept, send, mc)) && !BatchProves(FoldedBy(e), send, mc) ==>
              (HasProof(Next(p, e).swept, send, mc) <==> HasProof(Next(p, e).unswept, send, mc))
  {
    var proof := ProofOf(send, mc);
    match e
    case Receive(id, mail) =>
      WhereInsert(p.swept.mails, id, mail, proof);
      WhereInsert(p.unswept.mails, id, mail, proof);
    case NewSend(_) =>
    case AssignCampaign(_, _) =>
    case Fold(batch, now) =>
      WhereDelete(p.swept.mails, Ids(batch), proof);
      if r :| r in batch && Proves(r.mail, send, mc) {
        assert p.unswept.mails[r.id] == r.mail;
        assert r.id in Where(p.unswept.mails, proof);
      } else {
        NoneDeleted(p.swept.mails, batch, proof);
      }
  }

  lemma NoneDeleted(mails: map<MailId, Mail>, batch: seq<Row>, p: Mail -> bool)
    requires AllLive(mails, batch) && forall r :: r in batch ==> !p(r.mail)
    ensures Where(mails - Ids(batch), p) == Where(mails, p)
  {
    assert forall i :: i in Ids(batch) ==> i !in Where(mails, p);
    WhereDelete(mails, Ids(batch), p);
  }

  /** A delivery event is lost to the reader only by being folded. */
  lemma {:induction false} ProofKept(p: Pair, steps: seq<Step>, q: Pair, send: SendId, mc: Option<McId>)
    requires Agree(p) && IsRun(p, steps, q)
    ensures HasProof(p.unswept, send, mc) || ProofFolded(steps, send, mc) ==> HasProof(q.unswept, send, mc)
    ensures (HasProof(p.swept, send, mc) <==> HasProof(p.unswept, send, mc)) && !ProofFolded(steps, send, mc) ==>
              (HasProof(q.swept, send, mc) <==> HasProof(q.unswept, send, mc))
    decreases |steps|
  {
    if steps != [] {
      StepKeepsAgreement(p, steps[0]);
      StepKeepsProof(p, steps[0], send, mc);
      ProofKept(Next(p, steps[0]), steps[1..], q, send, mc);
      assert ProofFolded(steps, send, mc) <==>
          BatchProves(FoldedBy(steps[0]), send, mc) || ProofFolded(steps[1..], send, mc);
    }
  }

  /** The response still proves the send: by its stamp, because no proof was folded, or because one is left. */
  ghost predicate StaysProved(p: Pair, steps: seq<Step>, q: Pair, send: SendId)
    requires send in p.swept.sends
  {
    var r := p.swept.sends[send];
    r.proofAt.Some? || !ProofFolded(steps, send, r.mc) || HasProof(q.swept, send, r.mc)
  }

  lemma ProvedReadApart(p: Pair, steps: seq<Step>, q: Pair, send: SendId)
    requires Agree(p) && IsRun(p, steps, q) && send in p.swept.sends
    ensures send in p.unswept.sends
    ensures ProvedRead(p.swept, q.swept, send) ==> ProvedRead(p.unswept, q.unswept, send)
    ensures (ProvedRead(p.swept, q.swept, send) <==> ProvedRead(p.unswept, q.unswept, send)) <==>
              StaysProved(p, steps, q, send)
  {
    assert SameFor(p.swept, p.unswept, send);
    var mc := p.swept.sends[send].mc;
    ProofKept(p, steps, q, send, mc);
    DigestRetention.RetentionIsInvisible(p, steps, q);
    if HasProof(q.swept, send, mc) {
      var i :| i in Where(q.swept.mails, ProofOf(send, mc));
      assert i in Where(q.unswept.mails, ProofOf(send, mc));
    }
  }

  ghost predicate NoFeedbackFolded(steps: seq<Step>, send: SendId) {
    forall typ :: IsFolded(typ) ==> FeedbackFolded(steps, send, typ) == 0
  }

  lemma ShortBy(a: Feedback, b: Feedback, unsub: nat, bounce: nat, spam: nat)
    requires a.unsub + unsub == b.unsub && a.bounce + bounce == b.bounce && a.spam + spam == b.spam
    ensures a == b <==> unsub == 0 && bounce == 0 && spam == 0
  {
  }

  lemma FiguresWithoutRetention(p: Pair, steps: seq<Step>, q: Pair, send: SendId)
    requires Agree(p) && IsRun(p, steps, q) && send in p.swept.sends
    ensures send in p.unswept.sends && send in q.unswept.sends
    ensures FiguresRead(p.unswept, q.unswept, send) == Counts(q.unswept, send)
  {
    FigureReadApart(p, steps, q, send, Unsubscribe);
    FigureReadApart(p, steps, q, send, HardBounce);
    FigureReadApart(p, steps, q, send, Spam);
  }

  lemma FiguresReadApart(p: Pair, steps: seq<Step>, q: Pair, send: SendId)
    requires Agree(p) && IsRun(p, steps, q) && send in p.swept.sends
    ensures send in q.unswept.sends
    ensures FiguresRead(p.swept, q.swept, send) == Counts(q.unswept, send) <==> NoFeedbackFolded(steps, send)
  {
    FigureReadApart(p, steps, q, send, Unsubscribe);
    FigureReadApart(p, steps, q, send, HardBounce);
    FigureReadApart(p, steps, q, send, Spam);
    var u, h, s := FeedbackFolded(steps, send, Unsubscribe), FeedbackFolded(steps, send, HardBounce),
                   FeedbackFolded(steps, send, Spam);
    ShortBy(FiguresRead(p.swept, q.swept, send), Counts(q.unswept, send), u, h, s);
    NoneOfThree(steps, send);
  }

  lemma NoneOfThree(steps: seq<Step>, send: SendId)
    ensures NoFeedbackFolded(steps, send) <==>
              && FeedbackFolded(steps, send, Unsubscribe) == 0 && FeedbackFolded(steps, send, HardBounce) == 0
              && FeedbackFolded(steps, send, Spam) == 0
  {
    assert IsFolded(Unsubscribe) && IsFolded(HardBounce) && IsFolded(Spam);
  }

  /**
   * The sends are read at `p`, the delivery events at `q` and the live feedback at `r`, the last two in either order.
   * The response shows for a send what the same reads would show without retention if and only if the send stays
   * proved, and, where it is proved at all, no feedback row of it was folded before the live half was read.
   */
  lemma DigestReadApart(p: Pair, toProof: seq<Step>, q: Pair, toLive: seq<Step>, r: Pair, send: SendId)
    requires Agree(p) && IsRun(p, toProof, q) && IsRun(p, toLive, r) && send in p.swept.sends
    ensures send in p.unswept.sends
    ensures ShownRead(p.swept, q.swept, r.swept, send) == ShownRead(p.unswept, q.unswept, r.unswept, send) <==>
              && StaysProved(p, toProof, q, send)
              && (ProvedRead(p.swept, q.swept, send) ==> NoFeedbackFolded(toLive, send))
  {
    ProvedReadApart(p, toProof, q, send);
    FiguresReadApart(p, toLive, r, send);
    FiguresWithoutRetention(p, toLive, r, send);
  }

  /** Without retention the later reads of a send that got no new campaign id meanwhile show the later state. */
  lemma WithoutRetention(p: Pair, steps: seq<Step>, q: Pair, send: SendId)
    requires Agree(p) && IsRun(p, steps, q)
    requires send in p.swept.sends && send in p.unswept.sends && send in q.unswept.sends
    requires q.unswept.sends[send].mc == p.unswept.sends[send].mc
    ensures ShownRead(p.unswept, q.unswept, q.unswept, send) == Shown(q.unswept, send)
  {
    DigestRetention.RetentionIsInvisible(p, steps, q);
    FiguresWithoutRetention(p, steps, q, send);
  }

  const DELIVERED := Mail(CampaignSent, Some(0), None, 0)
  const UNSUBSCRIBED := Mail(Unsubscribe, Some(0), None, 1)
  const BOTH := [Row(0, DELIVERED), Row(1, UNSUBSCRIBED)]

  /**
   * From the empty store: one send, its delivery event and one unsubscribe, and 91 days later the batch that takes
   * both. The send shows one unsubscribe throughout. Read around that batch it shows nothing at all, or, when only the
   * live half is read after it, a proved send with no unsubscribe.
   */
  lemma ReadAroundOneFold()
    returns (before: seq<Step>, p: Pair, fold: seq<Step>, q: Pair)
    ensures IsRun(Pair(EMPTY, EMPTY), before, p) && IsRun(p, fold, q)
    ensures fold == [Fold(BOTH, 91 * DAY_MS)]
    ensures forall r :: r in BOTH ==> r.mail.receivedAt < 91 * DAY_MS - 90 * DAY_MS
    ensures 0 in p.swept.sends && 0 in p.unswept.sends && 0 in q.unswept.sends
    ensures Shown(p.unswept, 0) == Shown(q.unswept, 0) == Some(Feedback(1, 0, 0))
    ensures ShownRead(p.swept, q.swept, q.swept, 0) == None
    ensures ShownRead(p.swept, p.swept, q.swept, 0) == Some(NONE)
  {
    before, fold := [NewSend(0), Receive(0, DELIVERED), Receive(1, UNSUBSCRIBED)], [Fold(BOTH, 91 * DAY_MS)];
    p := Pair(TWO_MAILS, TWO_MAILS);
    TwoMailsArrive();
    q := Next(p, fold[0]);
    assert fold[1..] == [] && IsRun(q, fold[1..], q);
    BothAreFolded();
    TwoMailsShow(TWO_MAILS);
    NoMailsShow(TWO_MAILS, q.swept);
  }

  const TWO_MAILS := Store(map[0 := DELIVERED, 1 := UNSUBSCRIBED], map[0 := SendRow(None, NONE, None)])

  lemma TwoMailsArrive()
    ensures IsRun(Pair(EMPTY, EMPTY), [NewSend(0), Receive(0, DELIVERED), Receive(1, UNSUBSCRIBED)],
                  Pair(TWO_MAILS, TWO_MAILS))
  {
    var a, b, c := NewSend(0), Receive(0, DELIVERED), Receive(1, UNSUBSCRIBED);
    var p := Pair(EMPTY, EMPTY);
    ThreeStepsRun(p, a, b, c);
    assert Next(Next(Next(p, a), b), c).swept == TWO_MAILS;
    assert Next(Next(Next(p, a), b), c).unswept == TWO_MAILS;
  }

  lemma BothAreFolded()
    ensures AllLive(TWO_MAILS.mails, BOTH)
    ensures FoldBatch(TWO_MAILS, BOTH, 91 * DAY_MS).mails == map[]
  {
    assert BOTH[0] in BOTH && BOTH[1] in BOTH;
    assert Ids(BOTH) == {0, 1};
  }

  lemma TwoMailsShow(s: Store)
    requires s.mails == map[0 := DELIVERED, 1 := UNSUBSCRIBED] && s.sends == map[0 := SendRow(None, NONE, None)]
    ensures Shown(s, 0) == Some(Feedback(1, 0, 0))
  {
    assert 0 in Where(s.mails, ProofOf(0, None));
    assert Where(s.mails, FeedbackOf(Unsubscribe, 0)) == {1};
    assert Where(s.mails, FeedbackOf(HardBounce, 0)) == {} == Where(s.mails, FeedbackOf(Spam, 0));
  }

  lemma NoMailsShow(s: Store, later: Store)
    requires s.mails == map[0 := DELIVERED, 1 := UNSUBSCRIBED] && s.sends == map[0 := SendRow(None, NONE, None)]
    requires later.mails == map[]
    ensures ShownRead(s, later, later, 0) == None
    ensures ShownRead(s, s, later, 0) == Some(NONE)
  {
    assert 0 in Where(s.mails, ProofOf(0, None));
    assert Where(later.mails, ProofOf(0, None)) == {};
    assert Where(later.mails, FeedbackOf(Unsubscribe, 0)) == {};
    assert Where(later.mails, FeedbackOf(HardBounce, 0)) == {} == Where(later.mails, FeedbackOf(Spam, 0));
  }

  // ----- when a response is right, told before it is asked for -----

  /** The batches of a stretch take only events older than `t`: none has a later cutoff. */
  ghost predicate TakesOnlyAged(steps: seq<Step>, t: int) {
    forall r :: r in FoldedRows(steps) ==> r.mail.receivedAt < t
  }

  /** An event that a send's entry depends on. */
  predicate Matters(m: Mail, send: SendId, mc: Option<McId>) {
    IsFeedbackOf(m, send) || Proves(m, send, mc)
  }

  predicate IsFeedbackOf(m: Mail, send: SendId) {
    IsFolded(m.typ) && m.send == Some(send)
  }

  /** Events that arrive in the stretch are stamped when they arrive. */
  ghost predicate ArrivesLate(steps: seq<Step>, send: SendId, mc: Option<McId>, t: int) {
    forall s :: s in steps && s.Receive? && Matters(s.mail, send, mc) ==> t <= s.mail.receivedAt
  }

  ghost predicate FeedbackIsRecent(mails: map<MailId, Mail>, send: SendId, t: int) {
    forall i :: i in mails && IsFeedbackOf(mails[i], send) ==> t <= mails[i].receivedAt
  }

  ghost predicate ProofIsRecent(mails: map<MailId, Mail>, send: SendId, mc: Option<McId>, t: int) {
    forall i :: i in mails && Proves(mails[i], send, mc) ==> t <= mails[i].receivedAt
  }

  ghost predicate SomeProofIsRecent(mails: map<MailId, Mail>, send: SendId, mc: Option<McId>, t: int) {
    exists i :: i in mails && Proves(mails[i], send, mc) && t <= mails[i].receivedAt
  }

  /** What can be seen of a send: no feedback is aged; and it is stamped, or no proof is aged, or not every one is. */
  ghost predicate SafeToRead(s: Store, send: SendId, t: int)
    requires send in s.sends
  {
    var r := s.sends[send];
    && FeedbackIsRecent(s.mails, send, t)
    && (r.proofAt.Some? || ProofIsRecent(s.mails, send, r.mc, t) || SomeProofIsRecent(s.mails, send, r.mc, t))
  }

  /** An event that is folded was live at the start or arrived on the way. */
  lemma {:induction false} FoldedWasThere(p: Pair, steps: seq<Step>, q: Pair, r: Row)
    requires IsRun(p, steps, q) && r in FoldedRows(steps)
    ensures (r.id in p.swept.mails && p.swept.mails[r.id] == r.mail) || Receive(r.id, r.mail) in steps
    decreases |steps|
  {
    var n := Next(p, steps[0]);
    if r in FoldedBy(steps[0]) {
      assert AllLive(p.swept.mails, steps[0].batch);
    } else {
      FoldedWasThere(n, steps[1..], q, r);
    }
  }

  lemma NoFeedbackIsFolded(p: Pair, steps: seq<Step>, q: Pair, send: SendId, mc: Option<McId>, t: int)
    requires IsRun(p, steps, q) && TakesOnlyAged(steps, t) && ArrivesLate(steps, send, mc, t)
    requires FeedbackIsRecent(p.swept.mails, send, t)
    ensures NoFeedbackFolded(steps, send)
  {
    forall r | r in FoldedRows(steps)
      ensures !IsFeedbackOf(r.mail, send)
    {
      FoldedWasThere(p, steps, q, r);
    }
    forall typ | IsFolded(typ)
      ensures FeedbackFolded(steps, send, typ) == 0
    {
      CountNone(RowIs(FeedbackOf(typ, send)), FoldedRows(steps));
    }
  }

  lemma NoProofIsFolded(p: Pair, steps: seq<Step>, q: Pair, send: SendId, mc: Option<McId>, t: int)
    requires IsRun(p, steps, q) && TakesOnlyAged(steps, t) && ArrivesLate(steps, send, mc, t)
    requires ProofIsRecent(p.swept.mails, send, mc, t)
    ensures !ProofFolded(steps, send, mc)
  {
    forall r | r in FoldedRows(steps)
      ensures !Proves(r.mail, send, mc)
    {
      FoldedWasThere(p, steps, q, r);
    }
  }

  lemma {:induction false} RecentStaysLive(p: Pair, steps: seq<Step>, q: Pair, id: MailId, t: int)
    requires Agree(p) && IsRun(p, steps, q) && TakesOnlyAged(steps, t)
    requires id in p.swept.mails && t <= p.swept.mails[id].receivedAt
    ensures id in q.swept.mails && q.swept.mails[id] == p.swept.mails[id]
    decreases |steps|
  {
    if steps != [] {
      StepKeepsAgreement(p, steps[0]);
      assert forall r :: r in FoldedBy(steps[0]) ==> r in FoldedRows(steps);
      assert forall r :: r in FoldedRows(steps[1..]) ==> r in FoldedRows(steps);
      RecentStaysLive(Next(p, steps[0]), steps[1..], q, id, t);
    }
  }

  lemma SafelyProved(p: Pair, steps: seq<Step>, q: Pair, send: SendId, t: int)
    requires Agree(p) && IsRun(p, steps, q) && send in p.swept.sends && SafeToRead(p.swept, send, t)
    requires TakesOnlyAged(steps, t) && ArrivesLate(steps, send, p.swept.sends[send].mc, t)
    ensures StaysProved(p, steps, q, send)
  {
    var row := p.swept.sends[send];
    if ProofIsRecent(p.swept.mails, send, row.mc, t) {
      NoProofIsFolded(p, steps, q, send, row.mc, t);
    } else if row.proofAt.None? {
      var i :| i in p.swept.mails && Proves(p.swept.mails[i], send, row.mc) && t <= p.swept.mails[i].receivedAt;
      RecentStaysLive(p, steps, q, i, t);
      assert i in Where(q.swept.mails, ProofOf(send, row.mc));
    }
  }

  /** The three reads of one response, in either order of the last two, with batches up to the cutoff meanwhile. */
  ghost predicate IsResponse(p: Pair, toProof: seq<Step>, q: Pair, toLive: seq<Step>, r: Pair, send: SendId, t: int)
    requires send in p.swept.sends
  {
    var mc := p.swept.sends[send].mc;
    && IsRun(p, toProof, q) && IsRun(p, toLive, r) && (toProof <= toLive || toLive <= toProof)
    && TakesOnlyAged(toProof, t) && TakesOnlyAged(toLive, t)
    && ArrivesLate(toProof, send, mc, t) && ArrivesLate(toLive, send, mc, t)
  }

  ghost predicate StaysRight(p: Pair, send: SendId, t: int)
    requires send in p.swept.sends && send in p.unswept.sends
  {
    forall toProof, q, toLive, r :: IsResponse(p, toProof, q, toLive, r, send, t) ==>
      ShownRead(p.swept, q.swept, r.swept, send) == ShownRead(p.unswept, q.unswept, r.unswept, send)
  }

  lemma ReadsSafely(p: Pair, toProof: seq<Step>, q: Pair, toLive: seq<Step>, r: Pair, send: SendId, t: int)
    requires Agree(p) && send in p.swept.sends && SafeToRead(p.swept, send, t)
    requires IsResponse(p, toProof, q, toLive, r, send, t)
    ensures send in p.unswept.sends
    ensures ShownRead(p.swept, q.swept, r.swept, send) == ShownRead(p.unswept, q.unswept, r.unswept, send)
  {
    NoFeedbackIsFolded(p, toLive, r, send, p.swept.sends[send].mc, t);
    SafelyProved(p, toProof, q, send, t);
    DigestReadApart(p, toProof, q, toLive, r, send);
  }

  lemma {:induction false} FreshId(ids: set<MailId>) returns (id: MailId)
    ensures forall i :: i in ids ==> i < id
  {
    if ids == {} {
      id := 0;
    } else {
      var x :| x in ids;
      var below := FreshId(ids - {x});
      id := if x < below then below else x + 1;
      assert forall i :: i in ids ==> i == x || i in ids - {x};
    }
  }

  lemma {:induction false} BatchOf(mails: map<MailId, Mail>, ids: set<MailId>) returns (batch: seq<Row>)
    requires ids <= mails.Keys
    ensures AllLive(mails, batch) && Ids(batch) == ids
  {
    if ids == {} {
      batch := [];
    } else {
      var x :| x in ids;
      var rest := BatchOf(mails, ids - {x});
      batch := rest + [Row(x, mails[x])];
      assert forall n :: 0 <= n < |rest| ==> rest[n].id in Ids(rest);
      assert Ids(batch) == Ids(rest) + {x};
    }
  }

  lemma TwoStepsRun(p: Pair, a: Step, b: Step)
    requires Enabled(p, a) && Enabled(Next(p, a), b)
    ensures IsRun(p, [a, b], Next(Next(p, a), b))
    ensures FoldedRows([a, b]) == FoldedBy(a) + FoldedBy(b)
  {
    assert [a, b][1..] == [b] && [b][1..] == [];
    assert IsRun(Next(Next(p, a), b), [], Next(Next(p, a), b));
    assert IsRun(Next(p, a), [b], Next(Next(p, a), b));
    assert FoldedRows([b]) == FoldedBy(b) + FoldedRows([]);
  }

  lemma OneStepRuns(p: Pair, a: Step)
    requires Enabled(p, a)
    ensures IsRun(p, [a], Next(p, a)) && FoldedRows([a]) == FoldedBy(a)
  {
    assert [a][1..] == [] && IsRun(Next(p, a), [], Next(p, a));
    assert FoldedRows([a]) == FoldedBy(a) + FoldedRows([]);
  }

  /** A response whose last two reads see one state is wrong when what they go by was folded before. */
  lemma WrongAt(p: Pair, steps: seq<Step>, q: Pair, send: SendId)
    requires Agree(p) && IsRun(p, steps, q) && send in p.swept.sends
    requires if ProvedRead(p.swept, q.swept, send) then !NoFeedbackFolded(steps, send)
             else !StaysProved(p, steps, q, send)
    ensures send in p.unswept.sends
    ensures ShownRead(p.swept, q.swept, q.swept, send) != ShownRead(p.unswept, q.unswept, q.unswept, send)
  {
    DigestReadApart(p, steps, q, steps, q, send);
  }

  lemma OneFeedbackFolded(steps: seq<Step>, row: Row, send: SendId)
    requires FoldedRows(steps) == [row] && IsFeedbackOf(row.mail, send)
    ensures !NoFeedbackFolded(steps, send)
  {
    assert FeedbackFolded(steps, send, row.mail.typ) == 1;
  }

  /** A proof arrives, then an aged feedback event is folded: the send is proved and the event is in neither half. */
  lemma AgedFeedbackGoesMissing(p: Pair, send: SendId, t: int, i: MailId) returns (steps: seq<Step>, q: Pair)
    requires Agree(p) && send in p.swept.sends && send in p.unswept.sends
    requires i in p.swept.mails && IsFeedbackOf(p.swept.mails[i], send) && p.swept.mails[i].receivedAt < t
    ensures IsResponse(p, steps, q, steps, q, send, t)
    ensures ShownRead(p.swept, q.swept, q.swept, send) != ShownRead(p.unswept, q.unswept, q.unswept, send)
  {
    var id := FreshId(p.unswept.mails.Keys);
    var row := Row(i, p.swept.mails[i]);
    steps, q := ProofThenFold(p, id, row, send, t);
    OneFeedbackFolded(steps, row, send);
    ProofIsLeft(p.swept, id, row, send, t);
    WrongAt(p, steps, q, send);
  }

  lemma ProofThenFold(p: Pair, id: MailId, row: Row, send: SendId, t: int) returns (steps: seq<Step>, q: Pair)
    requires Agree(p) && send in p.swept.sends && send in p.unswept.sends && id !in p.unswept.mails
    requires row.id in p.swept.mails && p.swept.mails[row.id] == row.mail && row.mail.receivedAt < t
    ensures IsResponse(p, steps, q, steps, q, send, t) && FoldedRows(steps) == [row]
    ensures q.swept == Apply(Apply(p.swept, Receive(id, Mail(CampaignSent, Some(send), None, t))), Fold([row], t))
  {
    var proof := Mail(CampaignSent, Some(send), None, t);
    steps, q := ArriveThenFold(p, id, proof, row, t);
    AsResponse(p, steps, q, send, t);
  }

  lemma ArriveThenFold(p: Pair, id: MailId, mail: Mail, row: Row, t: int) returns (steps: seq<Step>, q: Pair)
    requires Enabled(p, Receive(id, mail)) && id !in p.swept.mails
    requires row.id in p.swept.mails && p.swept.mails[row.id] == row.mail
    ensures steps == [Receive(id, mail), Fold([row], t)] && IsRun(p, steps, q) && FoldedRows(steps) == [row]
    ensures q.swept == Apply(Apply(p.swept, Receive(id, mail)), Fold([row], t))
  {
    var n := Next(p, Receive(id, mail));
    assert Enabled(n, Fold([row], t)) by {
      assert n.swept.mails[row.id] == row.mail;
    }
    steps, q := [Receive(id, mail), Fold([row], t)], Next(n, Fold([row], t));
    TwoStepsRun(p, Receive(id, mail), Fold([row], t));
  }

  lemma AsResponse(p: Pair, steps: seq<Step>, q: Pair, send: SendId, t: int)
    requires IsRun(p, steps, q) && send in p.swept.sends && TakesOnlyAged(steps, t)
    requires forall s :: s in steps && s.Receive? ==> t <= s.mail.receivedAt
    ensures IsResponse(p, steps, q, steps, q, send, t)
  {
  }

  lemma ProofIsLeft(s: Store, id: MailId, row: Row, send: SendId, t: int)
    requires id !in s.mails && row.id in s.mails && send in s.sends
    ensures var later := Apply(Apply(s, Receive(id, Mail(CampaignSent, Some(send), None, t))), Fold([row], t));
            ProvedRead(s, later, send)
  {
    var later := Apply(Apply(s, Receive(id, Mail(CampaignSent, Some(send), None, t))), Fold([row], t));
    assert Ids([row]) == {row.id};
    assert id in Where(later.mails, ProofOf(send, s.sends[send].mc));
  }

  /** A batch of all the live proofs of a send leaves none. */
  lemma NoProofIsLeft(mails: map<MailId, Mail>, batch: seq<Row>, send: SendId, mc: Option<McId>, t: int)
    requires AllLive(mails, batch) && Ids(batch) == Where(mails, ProofOf(send, mc))
    requires !ProofIsRecent(mails, send, mc, t) && !SomeProofIsRecent(mails, send, mc, t)
    ensures Where(mails - Ids(batch), ProofOf(send, mc)) == {}
    ensures BatchProves(batch, send, mc) && forall r :: r in batch ==> r.mail.receivedAt < t
  {
    WhereDelete(mails, Ids(batch), ProofOf(send, mc));
    forall r | r in batch
      ensures r.mail.receivedAt < t && Proves(r.mail, send, mc)
    {
      assert r.id in Ids(batch);
    }
    var i :| i in mails && Proves(mails[i], send, mc);
    assert i in Ids(batch);
  }

  /** All proofs of an unstamped send are aged, and folded between the reads: nothing is shown. */
  lemma AgedProofsGoMissing(p: Pair, send: SendId, t: int) returns (steps: seq<Step>, q: Pair)
    requires Agree(p) && send in p.swept.sends && send in p.unswept.sends
    requires var r := p.swept.sends[send];
             && r.proofAt.None? && !ProofIsRecent(p.swept.mails, send, r.mc, t)
             && !SomeProofIsRecent(p.swept.mails, send, r.mc, t)
    ensures IsResponse(p, steps, q, steps, q, send, t)
    ensures ShownRead(p.swept, q.swept, q.swept, send) != ShownRead(p.unswept, q.unswept, q.unswept, send)
  {
    var mc := p.swept.sends[send].mc;
    var batch := BatchOf(p.swept.mails, Where(p.swept.mails, ProofOf(send, mc)));
    NoProofIsLeft(p.swept.mails, batch, send, mc, t);
    steps, q := FoldIsResponse(p, batch, send, t);
    Unproved(p, steps, q, send);
  }

  lemma FoldIsResponse(p: Pair, batch: seq<Row>, send: SendId, t: int) returns (steps: seq<Step>, q: Pair)
    requires AllLive(p.swept.mails, batch) && send in p.swept.sends
    requires forall r :: r in batch ==> r.mail.receivedAt < t
    ensures IsResponse(p, steps, q, steps, q, send, t)
    ensures FoldedRows(steps) == batch && q.swept.mails == p.swept.mails - Ids(batch)
  {
    steps, q := [Fold(batch, t)], Next(p, Fold(batch, t));
    OneStepRuns(p, Fold(batch, t));
  }

  lemma Unproved(p: Pair, steps: seq<Step>, q: Pair, send: SendId)
    requires Agree(p) && IsRun(p, steps, q) && send in p.swept.sends && p.swept.sends[send].proofAt.None?
    requires BatchProves(FoldedRows(steps), send, p.swept.sends[send].mc)
    requires Where(q.swept.mails, ProofOf(send, p.swept.sends[send].mc)) == {}
    ensures send in p.unswept.sends
    ensures ShownRead(p.swept, q.swept, q.swept, send) != ShownRead(p.unswept, q.unswept, q.unswept, send)
  {
    WrongAt(p, steps, q, send);
  }

  /**
   * What can be checked before asking: a send's entry is right whatever batches run during the three reads if and only
   * if no live feedback event of it is older than their cutoff and, unless it is stamped, no live proof is or not every
   * one.
   */
  lemma StaysRightIff(p: Pair, send: SendId, t: int)
    requires Agree(p) && send in p.swept.sends && send in p.unswept.sends
    ensures StaysRight(p, send, t) <==> SafeToRead(p.swept, send, t)
  {
    if SafeToRead(p.swept, send, t) {
      forall toProof, q, toLive, r | IsResponse(p, toProof, q, toLive, r, send, t)
        ensures ShownRead(p.swept, q.swept, r.swept, send) == ShownRead(p.unswept, q.unswept, r.unswept, send)
      {
        ReadsSafely(p, toProof, q, toLive, r, send, t);
      }
    } else if !FeedbackIsRecent(p.swept.mails, send, t) {
      var i :| i in p.swept.mails && IsFeedbackOf(p.swept.mails[i], send) && p.swept.mails[i].receivedAt < t;
      var steps, q := AgedFeedbackGoesMissing(p, send, t, i);
      assert !StaysRight(p, send, t);
    } else {
      var steps, q := AgedProofsGoMissing(p, send, t);
      assert !StaysRight(p, send, t);
    }
  }
}
