/**
 * Digest retention (src/sweepers/digestRetention.ts) and the one statistic it must not change
 * (src/services/digest/stats.ts): reader feedback per send, "rolled up + live", shown only for a send that is proved —
 * by a live delivery event naming the send or its mail campaign, or by the stamp the sweep leaves behind.
 */
module DigestRetention {
  import opened Prelude
  import opened IstClock
  import opened StableSort

  type MailId = nat
  type SendId = nat
  type McId = nat

  datatype MailType = Unsubscribe | HardBounce | Spam | CampaignSent | CampaignError | NoAddress | OtherType

  datatype Mail = Mail(typ: MailType, send: Option<SendId>, mc: Option<McId>, receivedAt: int)

  datatype Feedback = Feedback(unsub: nat, bounce: nat, spam: nat)

  datatype SendRow = SendRow(mc: Option<McId>, rolled: Feedback, proofAt: Option<int>)

  datatype Store = Store(mails: map<MailId, Mail>, sends: map<SendId, SendRow>)

  datatype Row = Row(id: MailId, mail: Mail)

  const NONE := Feedback(0, 0, 0)

  // ----- the statistic -----

  predicate IsFeedback(m: Mail, typ: MailType, send: SendId) {
    m.typ == typ && m.send == Some(send)
  }

  function FeedbackOf(typ: MailType, send: SendId): Mail -> bool {
    m => IsFeedback(m, typ, send)
  }

  function Add(a: Feedback, b: Feedback): Feedback {
    Feedback(a.unsub + b.unsub, a.bounce + b.bounce, a.spam + b.spam)
  }

  predicate IsProof(m: Mail) {
    m.typ == CampaignSent || m.typ == CampaignError
  }

  /** A delivery event that names the send, or the mail campaign it went out as. */
  predicate Proves(m: Mail, send: SendId, mc: Option<McId>) {
    IsProof(m) && (m.send == Some(send) || (mc.Some? && m.mc == mc))
  }

  function ProofOf(send: SendId, mc: Option<McId>): Mail -> bool {
    m => Proves(m, send, mc)
  }

  predicate IsProved(s: Store, send: SendId)
    requires send in s.sends
  {
    s.sends[send].proofAt.Some? || Where(s.mails, ProofOf(send, s.sends[send].mc)) != {}
  }

  /** The counter a type of feedback is folded into. */
  function Column(f: Feedback, typ: MailType): nat {
    match typ
    case Unsubscribe => f.unsub
    case HardBounce => f.bounce
    case Spam => f.spam
    case _ => 0
  }

  predicate IsFolded(typ: MailType) {
    typ == Unsubscribe || typ == HardBounce || typ == Spam
  }

  /** One figure of one send: rolled + live. */
  function CountOf(s: Store, send: SendId, typ: MailType): nat
    requires send in s.sends
  {
    Column(s.sends[send].rolled, typ) + |Where(s.mails, FeedbackOf(typ, send))|
  }

  function Counts(s: Store, send: SendId): Feedback
    requires send in s.sends
  {
    Feedback(CountOf(s, send, Unsubscribe), CountOf(s, send, HardBounce), CountOf(s, send, Spam))
  }

  /** What the screen shows: counts for a proved send, nothing for any other. */
  function Shown(s: Store, send: SendId): Option<Feedback>
    requires send in s.sends
  {
    if IsProved(s, send) then Some(Counts(s, send)) else None
  }

  function LiveOf(mails: map<MailId, Mail>, send: SendId, typ: MailType): set<MailId> {
    set i | i in mails && mails[i].typ == typ && mails[i].send == Some(send)
  }

  /**
   * The screen, said of the tables: counts are shown if and only if the send is stamped, or some sent or failed
   * delivery names it or the mail campaign it has; each is what was rolled up and what is live.
   */
  lemma ShownMeans(s: Store, send: SendId)
    requires send in s.sends
    ensures Shown(s, send).Some? <==>
              || s.sends[send].proofAt.Some?
              || exists i :: i in s.mails && s.mails[i].typ in {CampaignSent, CampaignError}
                             && (s.mails[i].send == Some(send)
                                 || (s.mails[i].mc.Some? && s.mails[i].mc == s.sends[send].mc))
    ensures Shown(s, send).Some? ==>
              var shown, rolled := Shown(s, send).value, s.sends[send].rolled;
              && shown.unsub == rolled.unsub + |LiveOf(s.mails, send, Unsubscribe)|
              && shown.bounce == rolled.bounce + |LiveOf(s.mails, send, HardBounce)|
              && shown.spam == rolled.spam + |LiveOf(s.mails, send, Spam)|
  {
    forall typ
      ensures LiveOf(s.mails, send, typ) == Where(s.mails, FeedbackOf(typ, send))
    {
    }
    var proofs := Where(s.mails, ProofOf(send, s.sends[send].mc));
    assert forall i :: i in proofs <==> i in s.mails && Proves(s.mails[i], send, s.sends[send].mc);
  }

  predicate SameFor(s: Store, t: Store, send: SendId) {
    && send in s.sends && send in t.sends && s.sends[send].mc == t.sends[send].mc
    && (forall typ :: IsFolded(typ) ==> CountOf(s, send, typ) == CountOf(t, send, typ))
    && (IsProved(s, send) <==> IsProved(t, send))
  }

  lemma SameForShown(s: Store, t: Store, send: SendId)
    requires SameFor(s, t, send)
    ensures Shown(s, send) == Shown(t, send)
  {
    assert IsFolded(Unsubscribe) && IsFolded(HardBounce) && IsFolded(Spam);
  }

  ghost predicate SameStatistics(s: Store, t: Store) {
    s.sends.Keys == t.sends.Keys && forall send :: send in s.sends ==> SameFor(s, t, send)
  }

  // ----- what one batch does -----

  function RowIs(p: Mail -> bool): Row -> bool {
    (r: Row) => p(r.mail)
  }

  function Tally(batch: seq<Row>, send: SendId): Feedback {
    Feedback(Count(RowIs(FeedbackOf(Unsubscribe, send)), batch), Count(RowIs(FeedbackOf(HardBounce, send)), batch),
             Count(RowIs(FeedbackOf(Spam, send)), batch))
  }

  predicate BatchProves(batch: seq<Row>, send: SendId, mc: Option<McId>) {
    exists r :: r in batch && Proves(r.mail, send, mc)
  }

  function Ids(batch: seq<Row>): set<MailId> {
    set r | r in batch :: r.id
  }

  /** The batch lists rows still in the table, each once. */
  ghost predicate AllLive(mails: map<MailId, Mail>, batch: seq<Row>) {
    && (forall r :: r in batch ==> r.id in mails && mails[r.id] == r.mail)
    && (forall i, j :: 0 <= i < j < |batch| ==> batch[i].id != batch[j].id)
  }

  function Folded(r: SendRow, tally: Feedback, proves: bool, now: int): SendRow {
    SendRow(r.mc, Add(r.rolled, tally), if r.proofAt.None? && proves then Some(now) else r.proofAt)
  }

  /** The committed transaction: counters up, proofs stamped, rows gone. */
  function FoldBatch(s: Store, batch: seq<Row>, now: int): Store {
    Store(s.mails - Ids(batch),
          map send | send in s.sends ::
            Folded(s.sends[send], Tally(batch, send), BatchProves(batch, send, s.sends[send].mc), now))
  }

  lemma {:induction false} DeletedAreCounted(mails: map<MailId, Mail>, batch: seq<Row>, p: Mail -> bool)
    requires AllLive(mails, batch)
    ensures |Where(mails, p)| == |Where(mails - Ids(batch), p)| + Count(RowIs(p), batch)
    decreases |batch|
  {
    if batch == [] {
      assert mails - Ids(batch) == mails;
    } else {
      var init, last := batch[..|batch| - 1], batch[|batch| - 1];
      assert batch == init + [last];
      DeletedAreCounted(mails, init, p);
      CountLast(RowIs(p), batch);
      var rest := mails - Ids(init);
      assert last.id in rest;
      assert mails - Ids(batch) == rest - {last.id};
      WhereDelete(rest, {last.id}, p);
      assert p(last.mail) <==> last.id in Where(rest, p);
    }
  }

  /** A batch changes no send's counts and no send's standing: what it deletes it has rolled up, and stamped. */
  lemma FoldKeepsStatistics(s: Store, batch: seq<Row>, now: int)
    requires AllLive(s.mails, batch)
    ensures SameStatistics(FoldBatch(s, batch, now), s)
  {
    forall send | send in s.sends
      ensures SameFor(FoldBatch(s, batch, now), s, send)
    {
      FoldKeepsSend(s, batch, now, send);
    }
  }

  lemma FoldKeepsSend(s: Store, batch: seq<Row>, now: int, send: SendId)
    requires AllLive(s.mails, batch) && send in s.sends
    ensures SameFor(FoldBatch(s, batch, now), s, send)
  {
    forall typ | IsFolded(typ)
      ensures CountOf(FoldBatch(s, batch, now), send, typ) == CountOf(s, send, typ)
    {
      FoldKeepsCount(s, batch, now, send, typ);
    }
    ProofSurvives(s, batch, now, send);
  }

  lemma FoldKeepsCount(s: Store, batch: seq<Row>, now: int, send: SendId, typ: MailType)
    requires AllLive(s.mails, batch) && send in s.sends && IsFolded(typ)
    ensures CountOf(FoldBatch(s, batch, now), send, typ) == CountOf(s, send, typ)
  {
    DeletedAreCounted(s.mails, batch, FeedbackOf(typ, send));
    var r := FoldBatch(s, batch, now).sends[send];
    assert r.rolled == Add(s.sends[send].rolled, Tally(batch, send));
  }

  lemma ProofSurvives(s: Store, batch: seq<Row>, now: int, send: SendId)
    requires AllLive(s.mails, batch) && send in s.sends
    ensures IsProved(FoldBatch(s, batch, now), send) <==> IsProved(s, send)
  {
    var p := ProofOf(send, s.sends[send].mc);
    WhereDelete(s.mails, Ids(batch), p);
    if i :| i in Where(s.mails, p) {
      if i in Ids(batch) {
        var r :| r in batch && r.id == i;
        assert Proves(r.mail, send, s.sends[send].mc);
      } else {
        assert i in Where(FoldBatch(s, batch, now).mails, p);
      }
    }
    if r :| r in batch && Proves(r.mail, send, s.sends[send].mc) {
      assert r.id in Where(s.mails, p);
    }
  }

  // ----- with and without retention -----

  datatype Step =
    | Receive(id: MailId, mail: Mail)
    | NewSend(send: SendId)
    | AssignCampaign(send: SendId, mc: McId)
    | Fold(batch: seq<Row>, now: int) // one committed batch; a batch that crashes or rolls back is no step

  /** The store with the sweep running, beside the store of the same run without it. */
  datatype Pair = Pair(swept: Store, unswept: Store)

  /** No delivery event naming the campaign has been swept. */
  ghost predicate NoneSwept(p: Pair, mc: McId) {
    forall i :: i in p.unswept.mails && i !in p.swept.mails && IsProof(p.unswept.mails[i]) ==>
      p.unswept.mails[i].mc != Some(mc)
  }

  ghost predicate Enabled(p: Pair, e: Step) {
    match e
    case Receive(id, mail) => id !in p.unswept.mails && (mail.send.Some? ==> mail.send.value in p.unswept.sends)
    case NewSend(send) => send !in p.unswept.sends
    case AssignCampaign(send, mc) => send in p.swept.sends && p.swept.sends[send].mc.None? && NoneSwept(p, mc)
    case Fold(batch, _) => AllLive(p.swept.mails, batch)
  }

  function Apply(s: Store, e: Step): Store {
    match e
    case Receive(id, mail) => s.(mails := s.mails[id := mail])
    case NewSend(send) => s.(sends := s.sends[send := SendRow(None, NONE, None)])
    case AssignCampaign(send, mc) =>
      if send in s.sends then s.(sends := s.sends[send := s.sends[send].(mc := Some(mc))]) else s
    case Fold(batch, now) => FoldBatch(s, batch, now)
  }

  function Next(p: Pair, e: Step): Pair {
    Pair(Apply(p.swept, e), if e.Fold? then p.unswept else Apply(p.unswept, e))
  }

  ghost predicate Agree(p: Pair) {
    && SameStatistics(p.swept, p.unswept)
    && (forall i :: i in p.swept.mails ==> i in p.unswept.mails && p.unswept.mails[i] == p.swept.mails[i])
    && (forall i :: i in p.unswept.mails && p.unswept.mails[i].send.Some? ==>
          p.unswept.mails[i].send.value in p.unswept.sends)
    && (forall send :: send in p.unswept.sends ==> p.unswept.sends[send].proofAt.None?)
  }

  function One(mail: Mail, send: SendId): Feedback {
    Feedback(if IsFeedback(mail, Unsubscribe, send) then 1 else 0, if IsFeedback(mail, HardBounce, send) then 1 else 0,
             if IsFeedback(mail, Spam, send) then 1 else 0)
  }

  lemma ReceiveCounts(s: Store, id: MailId, mail: Mail, send: SendId, typ: MailType)
    requires id !in s.mails && send in s.sends
    ensures CountOf(Apply(s, Receive(id, mail)), send, typ)
         == CountOf(s, send, typ) + (if IsFeedback(mail, typ, send) then 1 else 0)
  {
    WhereInsert(s.mails, id, mail, FeedbackOf(typ, send));
  }

  lemma ReceiveProof(s: Store, id: MailId, mail: Mail, send: SendId)
    requires id !in s.mails && send in s.sends
    ensures IsProved(Apply(s, Receive(id, mail)), send) <==> (IsProved(s, send) || Proves(mail, send, s.sends[send].mc))
  {
    WhereInsert(s.mails, id, mail, ProofOf(send, s.sends[send].mc));
  }

  lemma ReceiveKeepsSend(p: Pair, id: MailId, mail: Mail, send: SendId)
    requires Agree(p) && Enabled(p, Receive(id, mail)) && send in p.swept.sends
    ensures SameFor(Next(p, Receive(id, mail)).swept, Next(p, Receive(id, mail)).unswept, send)
  {
    assert SameFor(p.swept, p.unswept, send);
    forall typ | IsFolded(typ)
      ensures CountOf(Apply(p.swept, Receive(id, mail)), send, typ)
           == CountOf(Apply(p.unswept, Receive(id, mail)), send, typ)
    {
      ReceiveCounts(p.swept, id, mail, send, typ);
      ReceiveCounts(p.unswept, id, mail, send, typ);
    }
    ReceiveProof(p.swept, id, mail, send);
    ReceiveProof(p.unswept, id, mail, send);
  }

  lemma ReceiveKeepsAgreement(p: Pair, id: MailId, mail: Mail)
    requires Agree(p) && Enabled(p, Receive(id, mail))
    ensures Agree(Next(p, Receive(id, mail)))
  {
    var n := Next(p, Receive(id, mail));
    forall send | send in p.swept.sends
      ensures SameFor(n.swept, n.unswept, send)
    {
      ReceiveKeepsSend(p, id, mail, send);
    }
  }

  /** A send is shown by its own row and the mails. */
  lemma OwnRowDecides(s: Store, n: Store, id: SendId)
    requires id in s.sends && id in n.sends && n.sends[id] == s.sends[id] && n.mails == s.mails
    ensures SameFor(n, s, id)
  {
  }

  lemma SameForChain(a: Store, b: Store, c: Store, d: Store, id: SendId)
    requires SameFor(a, b, id) && SameFor(b, c, id) && SameFor(d, c, id)
    ensures SameFor(a, d, id)
  {
    forall typ | IsFolded(typ)
      ensures CountOf(a, id, typ) == CountOf(d, id, typ)
    {
      assert CountOf(a, id, typ) == CountOf(b, id, typ) && CountOf(b, id, typ) == CountOf(c, id, typ);
    }
  }

  lemma NewSendShowsNothing(s: Store, send: SendId, typ: MailType)
    requires NobodyNames(s.mails, send)
    ensures CountOf(Apply(s, NewSend(send)), send, typ) == 0 && !IsProved(Apply(s, NewSend(send)), send)
  {
    assert Where(s.mails, FeedbackOf(typ, send)) == {};
    assert Where(s.mails, ProofOf(send, None)) == {};
  }

  lemma NewSendSame(p: Pair, send: SendId, id: SendId)
    requires SameStatistics(p.swept, p.unswept) && send !in p.unswept.sends && id in p.swept.sends
    ensures SameFor(Apply(p.swept, NewSend(send)), Apply(p.unswept, NewSend(send)), id)
  {
    OwnRowDecides(p.swept, Apply(p.swept, NewSend(send)), id);
    OwnRowDecides(p.unswept, Apply(p.unswept, NewSend(send)), id);
    SameForChain(Apply(p.swept, NewSend(send)), p.swept, p.unswept, Apply(p.unswept, NewSend(send)), id);
  }

  ghost predicate NobodyNames(mails: map<MailId, Mail>, send: SendId) {
    forall i :: i in mails ==> mails[i].send != Some(send)
  }

  lemma NewSendAgrees(p: Pair, send: SendId)
    requires NobodyNames(p.swept.mails, send) && NobodyNames(p.unswept.mails, send)
    ensures SameFor(Apply(p.swept, NewSend(send)), Apply(p.unswept, NewSend(send)), send)
  {
    forall typ | IsFolded(typ)
      ensures CountOf(Apply(p.swept, NewSend(send)), send, typ) == CountOf(Apply(p.unswept, NewSend(send)), send, typ)
    {
      NewSendShowsNothing(p.swept, send, typ);
      NewSendShowsNothing(p.unswept, send, typ);
    }
    NewSendShowsNothing(p.swept, send, Spam);
    NewSendShowsNothing(p.unswept, send, Spam);
  }

  lemma NewSendKeeps(p: Pair, send: SendId, id: SendId)
    requires SameStatistics(p.swept, p.unswept) && send !in p.unswept.sends && (id == send || id in p.swept.sends)
    requires NobodyNames(p.swept.mails, send) && NobodyNames(p.unswept.mails, send)
    ensures SameFor(Apply(p.swept, NewSend(send)), Apply(p.unswept, NewSend(send)), id)
  {
    if id == send {
      NewSendAgrees(p, send);
    } else {
      NewSendSame(p, send, id);
    }
  }

  /** A new send has no events yet: they refer to it by a foreign key. */
  lemma NewSendKeepsAgreement(p: Pair, send: SendId)
    requires Agree(p) && Enabled(p, NewSend(send))
    ensures Agree(Next(p, NewSend(send)))
  {
    assert NobodyNames(p.unswept.mails, send);
    assert NobodyNames(p.swept.mails, send);
    forall id | id == send || id in p.swept.sends
      ensures SameFor(Apply(p.swept, NewSend(send)), Apply(p.unswept, NewSend(send)), id)
    {
      NewSendKeeps(p, send, id);
    }
  }

  lemma AssignKeepsCounts(s: Store, send: SendId, mc: McId, typ: MailType)
    requires send in s.sends
    ensures CountOf(Apply(s, AssignCampaign(send, mc)), send, typ) == CountOf(s, send, typ)
  {
  }

  lemma AssignedAgrees(p: Pair, send: SendId, mc: McId)
    requires Agree(p) && Enabled(p, AssignCampaign(send, mc))
    ensures SameFor(Apply(p.swept, AssignCampaign(send, mc)), Apply(p.unswept, AssignCampaign(send, mc)), send)
  {
    assert SameFor(p.swept, p.unswept, send);
    forall typ | IsFolded(typ)
      ensures CountOf(Apply(p.swept, AssignCampaign(send, mc)), send, typ)
           == CountOf(Apply(p.unswept, AssignCampaign(send, mc)), send, typ)
    {
      AssignKeepsCounts(p.swept, send, mc, typ);
      AssignKeepsCounts(p.unswept, send, mc, typ);
    }
    AssignProof(p.swept, send, mc);
    AssignProof(p.unswept, send, mc);
    SameCampaignProof(p, mc);
  }

  lemma AssignKeepsOther(p: Pair, send: SendId, mc: McId, id: SendId)
    requires Agree(p) && Enabled(p, AssignCampaign(send, mc)) && id in p.swept.sends && id != send
    ensures SameFor(Apply(p.swept, AssignCampaign(send, mc)), Apply(p.unswept, AssignCampaign(send, mc)), id)
  {
    var a, b := Apply(p.swept, AssignCampaign(send, mc)), Apply(p.unswept, AssignCampaign(send, mc));
    OwnRowDecides(p.swept, a, id);
    OwnRowDecides(p.unswept, b, id);
    SameForChain(a, p.swept, p.unswept, b, id);
  }

  lemma AssignKeeps(p: Pair, send: SendId, mc: McId, id: SendId)
    requires Agree(p) && Enabled(p, AssignCampaign(send, mc)) && id in p.swept.sends
    ensures SameFor(Apply(p.swept, AssignCampaign(send, mc)), Apply(p.unswept, AssignCampaign(send, mc)), id)
  {
    if id == send {
      AssignedAgrees(p, send, mc);
    } else {
      AssignKeepsOther(p, send, mc, id);
    }
  }

  lemma AssignKeepsAgreement(p: Pair, send: SendId, mc: McId)
    requires Agree(p) && Enabled(p, AssignCampaign(send, mc))
    ensures Agree(Next(p, AssignCampaign(send, mc)))
  {
    forall id | id in p.swept.sends
      ensures SameFor(Apply(p.swept, AssignCampaign(send, mc)), Apply(p.unswept, AssignCampaign(send, mc)), id)
    {
      AssignKeeps(p, send, mc, id);
    }
  }

  predicate NamesCampaign(m: Mail, mc: McId) {
    IsProof(m) && m.mc == Some(mc)
  }

  function Naming(mc: McId): Mail -> bool {
    m => NamesCampaign(m, mc)
  }

  lemma AssignProof(s: Store, send: SendId, mc: McId)
    requires send in s.sends && s.sends[send].mc.None?
    ensures IsProved(Apply(s, AssignCampaign(send, mc)), send) <==>
              IsProved(s, send) || Where(s.mails, Naming(mc)) != {}
  {
    assert Where(s.mails, ProofOf(send, Some(mc))) == Where(s.mails, ProofOf(send, None)) + Where(s.mails, Naming(mc));
  }

  lemma SameCampaignProof(p: Pair, mc: McId)
    requires Agree(p) && NoneSwept(p, mc)
    ensures Where(p.swept.mails, Naming(mc)) == Where(p.unswept.mails, Naming(mc))
  {
  }

  lemma StepKeepsAgreement(p: Pair, e: Step)
    requires Agree(p) && Enabled(p, e)
    ensures Agree(Next(p, e))
  {
    match e
    case Receive(id, mail) => ReceiveKeepsAgreement(p, id, mail);
    case NewSend(send) => NewSendKeepsAgreement(p, send);
    case AssignCampaign(send, mc) => AssignKeepsAgreement(p, send, mc);
    case Fold(batch, now) => FoldKeepsStatistics(p.swept, batch, now);
  }

  ghost predicate IsRun(p: Pair, steps: seq<Step>, end: Pair)
    decreases |steps|
  {
    if steps == [] then end == p
    else Enabled(p, steps[0]) && IsRun(Next(p, steps[0]), steps[1..], end)
  }

  /**
   * Over any run that interleaves new events and sends with committed batches — any cutoffs, sizes, stops or crashes
   * between batches — every send shows what it would have shown with no retention. A send must get its mail campaign's
   * id before that campaign's delivery events are swept; `LateCampaignLosesProof` shows why.
   */
  lemma {:induction false} RetentionIsInvisible(p: Pair, steps: seq<Step>, end: Pair)
    requires Agree(p) && IsRun(p, steps, end)
    ensures Agree(end) && forall send :: send in end.swept.sends ==> Shown(end.swept, send) == Shown(end.unswept, send)
    decreases |steps|
  {
    if steps != [] {
      StepKeepsAgreement(p, steps[0]);
      RetentionIsInvisible(Next(p, steps[0]), steps[1..], end);
    } else {
      forall send | send in p.swept.sends
        ensures Shown(p.swept, send) == Shown(p.unswept, send)
      {
        SameForShown(p.swept, p.unswept, send);
      }
    }
  }

  /** Assigning a campaign id agrees with the run without retention exactly when the send was proved, or is so still. */
  lemma LateCampaignLosesProof(p: Pair, send: SendId, mc: McId)
    requires Agree(p) && send in p.swept.sends && p.swept.sends[send].mc.None?
    ensures var n := Next(p, AssignCampaign(send, mc));
            Shown(n.swept, send) == Shown(n.unswept, send) <==>
              || IsProved(p.swept, send)
              || Where(p.swept.mails, Naming(mc)) != {} || Where(p.unswept.mails, Naming(mc)) == {}
  {
    var a, b := Apply(p.swept, AssignCampaign(send, mc)), Apply(p.unswept, AssignCampaign(send, mc));
    AssignProof(p.swept, send, mc);
    AssignProof(p.unswept, send, mc);
    assert Where(p.swept.mails, Naming(mc)) <= Where(p.unswept.mails, Naming(mc));
    assert Counts(a, send) == Counts(b, send) by {
      SameForCounts(p.swept, p.unswept, send);
      assert a.mails == p.swept.mails && a.sends[send].rolled == p.swept.sends[send].rolled;
      assert b.mails == p.unswept.mails && b.sends[send].rolled == p.unswept.sends[send].rolled;
    }
  }

  const EMPTY := Store(map[], map[])
  const NAMES_CAMPAIGN := Mail(CampaignSent, None, Some(5), 0)

  /**
   * From the empty store: a send whose campaign's only delivery event was swept 91 days later, before the send was told
   * its campaign. Without retention the send is then proved; with it, nothing is shown.
   */
  lemma SweptBeforeAssigned() returns (steps: seq<Step>, p: Pair)
    ensures steps == [NewSend(0), Receive(0, NAMES_CAMPAIGN), Fold([Row(0, NAMES_CAMPAIGN)], 91 * DAY_MS)]
    ensures NAMES_CAMPAIGN.receivedAt < 91 * DAY_MS - 90 * DAY_MS
    ensures IsRun(Pair(EMPTY, EMPTY), steps, p) && 0 in p.swept.sends && 0 in p.unswept.sends
    ensures Shown(Apply(p.swept, AssignCampaign(0, 5)), 0) == None
    ensures Shown(Apply(p.unswept, AssignCampaign(0, 5)), 0) == Some(NONE)
  {
    var row := Row(0, NAMES_CAMPAIGN);
    steps := [NewSend(0), Receive(0, NAMES_CAMPAIGN), Fold([row], 91 * DAY_MS)];
    ThreeStepsRun(Pair(EMPTY, EMPTY), steps[0], steps[1], steps[2]);
    p := Next(Next(Next(Pair(EMPTY, EMPTY), steps[0]), steps[1]), steps[2]);
    var s := Store(map[0 := NAMES_CAMPAIGN], map[0 := SendRow(None, NONE, None)]);
    assert Next(Next(Pair(EMPTY, EMPTY), steps[0]), steps[1]) == Pair(s, s);
    assert p.swept == FoldBatch(s, [row], 91 * DAY_MS) && p.unswept == s;
    FoldedUnproved(s, row);
    UnsweptProved(s);
  }

  lemma FoldedUnproved(s: Store, row: Row)
    requires row == Row(0, NAMES_CAMPAIGN) && s == Store(map[0 := row.mail], map[0 := SendRow(None, NONE, None)])
    ensures Shown(Apply(FoldBatch(s, [row], 91 * DAY_MS), AssignCampaign(0, 5)), 0) == None
  {
    var f := FoldBatch(s, [row], 91 * DAY_MS);
    assert Ids([row]) == {0} && f.mails == map[];
    assert Where(f.mails, ProofOf(0, Some(5))) == {};
    assert f.sends[0].proofAt == None by {
      assert !BatchProves([row], 0, None);
    }
  }

  lemma UnsweptProved(s: Store)
    requires s == Store(map[0 := NAMES_CAMPAIGN], map[0 := SendRow(None, NONE, None)])
    ensures Shown(Apply(s, AssignCampaign(0, 5)), 0) == Some(NONE)
  {
    assert 0 in Where(s.mails, ProofOf(0, Some(5)));
    assert forall typ :: Where(s.mails, FeedbackOf(typ, 0)) == {};
  }

  lemma ThreeStepsRun(p: Pair, a: Step, b: Step, c: Step)
    requires Enabled(p, a) && Enabled(Next(p, a), b) && Enabled(Next(Next(p, a), b), c)
    ensures IsRun(p, [a, b, c], Next(Next(Next(p, a), b), c))
  {
    assert [a, b, c][1..] == [b, c] && [b, c][1..] == [c] && [c][1..] == [];
    assert IsRun(Next(Next(Next(p, a), b), c), [], Next(Next(Next(p, a), b), c));
    assert IsRun(Next(Next(p, a), b), [c], Next(Next(Next(p, a), b), c));
    assert IsRun(Next(p, a), [b, c], Next(Next(Next(p, a), b), c));
  }

  lemma SameForCounts(s: Store, t: Store, send: SendId)
    requires SameFor(s, t, send)
    ensures Counts(s, send) == Counts(t, send)
  {
    assert IsFolded(Unsubscribe) && IsFolded(HardBounce) && IsFolded(Spam);
  }

  // ----- the sweep itself -----

  function TallyOf(perSend: map<SendId, Feedback>, send: SendId): Feedback {
    if send in perSend then perSend[send] else NONE
  }

  predicate IsFoldable(m: Mail) {
    (m.typ == Unsubscribe || m.typ == HardBounce || m.typ == Spam) && m.send.Some?
  }

  function BumpOne(f: Feedback, typ: MailType): Feedback {
    match typ
    case Unsubscribe => f.(unsub := f.unsub + 1)
    case HardBounce => f.(bounce := f.bounce + 1)
    case Spam => f.(spam := f.spam + 1)
    case _ => f
  }

  function ProofSends(batch: seq<Row>): set<SendId> {
    set r | r in batch && IsProof(r.mail) && r.mail.send.Some? :: r.mail.send.value
  }

  function ProofCampaigns(batch: seq<Row>): set<McId> {
    set r | r in batch && IsProof(r.mail) && r.mail.mc.Some? :: r.mail.mc.value
  }

  lemma TallyNext(batch: seq<Row>, n: nat, send: SendId)
    requires n < |batch|
    ensures Tally(batch[..n + 1], send) == Add(Tally(batch[..n], send), One(batch[n].mail, send))
  {
    assert batch[..n + 1][..n] == batch[..n];
    CountLast(RowIs(FeedbackOf(Unsubscribe, send)), batch[..n + 1]);
    CountLast(RowIs(FeedbackOf(HardBounce, send)), batch[..n + 1]);
    CountLast(RowIs(FeedbackOf(Spam, send)), batch[..n + 1]);
  }

  function Bumped(perSend: map<SendId, Feedback>, m: Mail): map<SendId, Feedback> {
    if IsFoldable(m) then perSend[m.send.value := BumpOne(TallyOf(perSend, m.send.value), m.typ)] else perSend
  }

  lemma BumpIsOne(perSend: map<SendId, Feedback>, m: Mail, send: SendId)
    ensures TallyOf(Bumped(perSend, m), send) == Add(TallyOf(perSend, send), One(m, send))
  {
    var was := TallyOf(perSend, send);
    if IsFoldable(m) && m.send == Some(send) {
      assert TallyOf(Bumped(perSend, m), send) == BumpOne(was, m.typ);
      BumpAdds(was, m, send);
    } else {
      assert TallyOf(Bumped(perSend, m), send) == was;
      assert One(m, send) == NONE by {
        assert !IsFeedback(m, Unsubscribe, send) && !IsFeedback(m, HardBounce, send) && !IsFeedback(m, Spam, send);
      }
      AddNothing(was);
    }
  }

  lemma AddNothing(f: Feedback)
    ensures Add(f, NONE) == f
  {
    assert NONE.unsub == 0 && NONE.bounce == 0 && NONE.spam == 0;
    var sum := Add(f, NONE);
    assert sum.unsub == f.unsub && sum.bounce == f.bounce && sum.spam == f.spam;
  }

  lemma BumpAdds(f: Feedback, m: Mail, send: SendId)
    requires IsFoldable(m) && m.send == Some(send)
    ensures BumpOne(f, m.typ) == Add(f, One(m, send))
  {
    match m.typ
    case Unsubscribe => assert One(m, send) == Feedback(1, 0, 0);
    case HardBounce => assert One(m, send) == Feedback(0, 1, 0);
    case Spam => assert One(m, send) == Feedback(0, 0, 1);
  }

  lemma ProofNext(batch: seq<Row>, n: nat)
    requires n < |batch|
    ensures var m := batch[n].mail;
            && ProofSends(batch[..n + 1])
            == ProofSends(batch[..n]) + (if IsProof(m) && m.send.Some? then {m.send.value} else {})
            && ProofCampaigns(batch[..n + 1])
            == ProofCampaigns(batch[..n]) + (if IsProof(m) && m.mc.Some? then {m.mc.value} else {})
  {
    assert batch[..n + 1] == batch[..n] + [batch[n]];
  }

  /** The first pass over a batch. */
  method TallyBatch(batch: seq<Row>)
    returns (perSend: map<SendId, Feedback>, proofSends: set<SendId>, proofCampaigns: set<McId>, folded: nat)
    ensures forall send :: TallyOf(perSend, send) == Tally(batch, send)
    ensures proofSends == ProofSends(batch) && proofCampaigns == ProofCampaigns(batch)
    ensures folded == Count(RowIs(IsFoldable), batch)
  {
    perSend, proofSends, proofCampaigns, folded := map[], {}, {}, 0;
    for n := 0 to |batch|
      invariant forall send :: TallyOf(perSend, send) == Tally(batch[..n], send)
      invariant proofSends == ProofSends(batch[..n]) && proofCampaigns == ProofCampaigns(batch[..n])
      invariant folded == Count(RowIs(IsFoldable), batch[..n])
    {
      var r := batch[n].mail;
      assert batch[..n + 1][..n] == batch[..n];
      CountLast(RowIs(IsFoldable), batch[..n + 1]);
      ProofNext(batch, n);
      ghost var bumped := Bumped(perSend, r);
      forall send
        ensures TallyOf(bumped, send) == Tally(batch[..n + 1], send)
      {
        TallyNext(batch, n, send);
        BumpIsOne(perSend, r, send);
      }
      if (r.typ == Unsubscribe || r.typ == HardBounce || r.typ == Spam) && r.send.Some? {
        perSend := perSend[r.send.value := BumpOne(TallyOf(perSend, r.send.value), r.typ)];
        folded := folded + 1;
      } else if IsProof(r) {
        proofSends := proofSends + (if r.send.Some? then {r.send.value} else {});
        proofCampaigns := proofCampaigns + (if r.mc.Some? then {r.mc.value} else {});
      }
      assert perSend == bumped;
    }
    assert batch[..|batch|] == batch;
  }

  lemma SetsProve(batch: seq<Row>, send: SendId, mc: Option<McId>)
    ensures send in ProofSends(batch) || (mc.Some? && mc.value in ProofCampaigns(batch)) <==>
              BatchProves(batch, send, mc)
  {
    if r :| r in batch && Proves(r.mail, send, mc) {
      assert r.mail.send == Some(send) ==> send in ProofSends(batch);
    }
  }

  predicate Stamps(r: SendRow, send: SendId, proofSends: set<SendId>, proofCampaigns: set<McId>) {
    r.proofAt.None? && (send in proofSends || (r.mc.Some? && r.mc.value in proofCampaigns))
  }

  function NewlyStamped(sends: map<SendId, SendRow>, batch: seq<Row>): set<SendId> {
    set send | send in sends && Stamps(sends[send], send, ProofSends(batch), ProofCampaigns(batch))
  }

  /** Stamping and then incrementing comes to `Folded`. */
  lemma SendsAreFolded(before: map<SendId, SendRow>, after: map<SendId, SendRow>, batch: seq<Row>,
                       perSend: map<SendId, Feedback>, now: int)
    requires forall send :: TallyOf(perSend, send) == Tally(batch, send)
    requires after.Keys == before.Keys
    requires forall send :: send in before ==>
               var r := before[send];
               var stamped :=
                 if Stamps(r, send, ProofSends(batch), ProofCampaigns(batch)) then r.(proofAt := Some(now)) else r;
               after[send] == stamped.(rolled := Add(stamped.rolled, TallyOf(perSend, send)))
    ensures after == map send | send in before ::
              Folded(before[send], Tally(batch, send), BatchProves(batch, send, before[send].mc), now)
  {
    forall send | send in before
      ensures after[send] == Folded(before[send], Tally(batch, send), BatchProves(batch, send, before[send].mc), now)
    {
      SetsProve(batch, send, before[send].mc);
      assert TallyOf(perSend, send) == Tally(batch, send);
    }
  }

  function OldestFirst(a: Row, b: Row): int {
    if a.mail.receivedAt != b.mail.receivedAt then a.mail.receivedAt - b.mail.receivedAt else a.id - b.id
  }

  function IsAged(cutoff: int): Mail -> bool {
    (m: Mail) => m.receivedAt < cutoff
  }

  /** `r` goes before `i`: received earlier, or at the same time and of the smaller id. */
  predicate GoesBefore(r: Row, i: MailId, m: Mail) {
    r.mail.receivedAt < m.receivedAt || (r.mail.receivedAt == m.receivedAt && r.id < i)
  }

  /** A slice of the aged rows: each of them goes before every aged row left out. */
  ghost predicate IsNextBatch(mails: map<MailId, Mail>, cutoff: int, take: nat, batch: seq<Row>) {
    && AllLive(mails, batch)
    && Ids(batch) <= Where(mails, IsAged(cutoff))
    && |batch| == Min(take, |Where(mails, IsAged(cutoff))|)
    && forall r, i :: r in batch && i in Where(mails, IsAged(cutoff)) - Ids(batch) ==> GoesBefore(r, i, mails[i])
  }

  /** The stored HTML and text of a send, the IST day of its run, and when they were purged. */
  datatype Content = Content(html: Option<string>, text: Option<string>, runDay: int, purgedAt: Option<int>)

  predicate HasOldContent(c: Content, keepFrom: int) {
    (c.html.Some? || c.text.Some?) && c.runDay < keepFrom
  }

  function OldContent(keepFrom: int): Content -> bool {
    (c: Content) => HasOldContent(c, keepFrom)
  }

  function Purged(contents: map<SendId, Content>, keepFrom: int, now: int): map<SendId, Content> {
    map send | send in contents ::
      if HasOldContent(contents[send], keepFrom)
      then contents[send].(html := None, text := None, purgedAt := Some(now)) else contents[send]
  }

  /** Content of a run more than `htmlDays` days ago is gone, and marked; any other content is as it was. */
  predicate IsPurgedRight(before: Content, after: Content, now: int, htmlDays: int) {
    if IstDay(now) - before.runDay > htmlDays && (before.html != None || before.text != None)
    then after == Content(None, None, before.runDay, Some(now)) else after == before
  }

  /** What is purged is exactly what was old, and a later run with the same bound finds nothing more to do. */
  lemma PurgedOnce(contents: map<SendId, Content>, keepFrom: int, now: int, later: int)
    ensures Where(Purged(contents, keepFrom, now), OldContent(keepFrom)) == {}
    ensures Purged(Purged(contents, keepFrom, now), keepFrom, later) == Purged(contents, keepFrom, now)
    ensures forall send :: send in contents && contents[send].runDay >= keepFrom ==>
              Purged(contents, keepFrom, now)[send] == contents[send]
  {
  }

  class DigestDb {
    var mails: map<MailId, Mail>
    var sends: map<SendId, SendRow>
    var contents: map<SendId, Content>

    constructor ()
      ensures View() == Store(map[], map[]) && contents == map[]
    {
      mails, sends, contents := map[], map[], map[];
    }

    ghost function View(): Store
      reads this
    {
      Store(mails, sends)
    }

    /** The transaction of one batch. The stamp is set first, and only where there is none. */
    method FoldAndDelete(batch: seq<Row>, now: int) returns (folded: nat, proofStamped: nat)
      modifies this`mails, this`sends
      ensures View() == FoldBatch(old(View()), batch, now)
      ensures folded == Count(RowIs(IsFoldable), batch)
      ensures proofStamped == |NewlyStamped(old(sends), batch)|
    {
      var perSend, proofSends, proofCampaigns;
      perSend, proofSends, proofCampaigns, folded := TallyBatch(batch);
      proofStamped := StampProofs(proofSends, proofCampaigns, now);
      IncrementSends(perSend);
      mails := mails - Ids(batch);
      SendsAreFolded(old(sends), sends, batch, perSend, now);
    }

    /** The stamp, only where there is none. */
    method StampProofs(proofSends: set<SendId>, proofCampaigns: set<McId>, now: int) returns (count: nat)
      modifies this`sends
      ensures sends == map send | send in old(sends) ::
                if Stamps(old(sends)[send], send, proofSends, proofCampaigns)
                then old(sends)[send].(proofAt := Some(now)) else old(sends)[send]
      ensures count == |set send | send in old(sends) && Stamps(old(sends)[send], send, proofSends, proofCampaigns)|
    {
      var stamped := set send | send in sends && Stamps(sends[send], send, proofSends, proofCampaigns);
      sends := map send | send in sends :: if send in stamped then sends[send].(proofAt := Some(now)) else sends[send];
      count := |stamped|;
    }

    /** One fenced `updateMany` over the sends of old runs that still have content. */
    method PurgeContents(keepFrom: int, now: int) returns (count: nat)
      modifies this`contents
      ensures contents == Purged(old(contents), keepFrom, now)
      ensures count == |Where(old(contents), OldContent(keepFrom))|
    {
      count := |Where(contents, OldContent(keepFrom))|;
      contents := Purged(contents, keepFrom, now);
    }

    /** `updateMany`: a send that no longer exists is skipped. */
    method IncrementSends(perSend: map<SendId, Feedback>)
      modifies this`sends
      ensures sends == map send | send in old(sends) ::
                old(sends)[send].(rolled := Add(old(sends)[send].rolled, TallyOf(perSend, send)))
    {
      var todo := perSend.Keys;
      while todo != {}
        invariant todo <= perSend.Keys
        invariant sends == map send | send in old(sends) ::
                    if send in todo then old(sends)[send]
                    else old(sends)[send].(rolled := Add(old(sends)[send].rolled, TallyOf(perSend, send)))
      {
        var send :| send in todo;
        todo := todo - {send};
        if send in sends {
          sends := sends[send := sends[send].(rolled := Add(sends[send].rolled, perSend[send]))];
        }
      }
    }

    /** Every row a query selects, in no particular order. */
    method Read(ids: set<MailId>) returns (rows: seq<Row>)
      requires ids <= mails.Keys
      ensures AllLive(mails, rows) && Ids(rows) == ids && |rows| == |ids|
    {
      rows := [];
      var todo := ids;
      while todo != {}
        invariant todo <= ids && AllLive(mails, rows) && Ids(rows) == ids - todo && |rows| + |todo| == |ids|
      {
        var i :| i in todo;
        todo := todo - {i};
        assert forall n :: 0 <= n < |rows| ==> rows[n].id in Ids(rows);
        assert Ids(rows + [Row(i, mails[i])]) == Ids(rows) + {i};
        rows := rows + [Row(i, mails[i])];
      }
    }

    /** `findMany` ordered by `receivedAt`, then id, with `take`. */
    method NextBatch(cutoff: int, take: nat) returns (batch: seq<Row>)
      ensures IsNextBatch(mails, cutoff, take, batch)
    {
      var rows := Read(Where(mails, IsAged(cutoff)));
      var sorted := Sort(OldestFirst, rows);
      batch := sorted[..Min(take, |sorted|)];
      TakesOldest(mails, Where(mails, IsAged(cutoff)), rows, |batch|);
    }
  }

  lemma OldestFirstIsTotalPreorder()
    ensures TotalPreorder(OldestFirst)
  {
  }

  lemma SortIsSorted(rows: seq<Row>)
    ensures Sorted(OldestFirst, Sort(OldestFirst, rows))
  {
    OldestFirstIsTotalPreorder();
    SortSorts(OldestFirst, rows);
  }

  lemma SortStaysLive(mails: map<MailId, Mail>, rows: seq<Row>)
    requires AllLive(mails, rows)
    ensures AllLive(mails, Sort(OldestFirst, rows)) && Ids(Sort(OldestFirst, rows)) == Ids(rows)
  {
    var sorted := Sort(OldestFirst, rows);
    SortPermutes(OldestFirst, rows);
    assert Distinct(rows);
    SameElements(sorted, rows);
    forall i, j | 0 <= i < j < |sorted|
      ensures sorted[i].id != sorted[j].id
    {
      assert sorted[i] in rows && sorted[j] in rows && sorted[i] != sorted[j];
    }
  }

  lemma TakesOldest(mails: map<MailId, Mail>, ids: set<MailId>, rows: seq<Row>, n: nat)
    requires AllLive(mails, rows) && Ids(rows) == ids && n <= |rows|
    ensures var batch := Sort(OldestFirst, rows)[..n];
            && AllLive(mails, batch) && Ids(batch) <= ids
            && forall r, i :: r in batch && i in ids - Ids(batch) ==> GoesBefore(r, i, mails[i])
  {
    var sorted := Sort(OldestFirst, rows);
    SortStaysLive(mails, rows);
    SortIsSorted(rows);
    assert sorted == sorted[..n] + sorted[n..];
    forall r, i | r in sorted[..n] && i in ids - Ids(sorted[..n])
      ensures GoesBefore(r, i, mails[i])
    {
      var x :| x in sorted && x.id == i;
      assert x in sorted[n..];
      AcrossCut(sorted, n, r, x);
      assert r.id in Ids(sorted[..n]) && x == Row(i, mails[i]);
    }
  }

  lemma AcrossCut(sorted: seq<Row>, n: nat, r: Row, x: Row)
    requires Sorted(OldestFirst, sorted) && n <= |sorted| && r in sorted[..n] && x in sorted[n..]
    ensures OldestFirst(r, x) <= 0
  {
    var m :| 0 <= m < |sorted[..n]| && sorted[..n][m] == r;
    var k :| 0 <= k < |sorted[n..]| && sorted[n..][k] == x;
    assert sorted[m] == r && sorted[n + k] == x;
  }

  // ----- the run -----

  datatype SweepResult = SweepResult(
    deleted: map<MailType, nat>, folded: nat, proofStamped: nat, contentsPurged: nat, batches: nat, more: bool)

  function DeletedOf(deleted: map<MailType, nat>, typ: MailType): nat {
    if typ in deleted then deleted[typ] else 0
  }

  function OfType(typ: MailType): Mail -> bool {
    (m: Mail) => m.typ == typ
  }

  predicate IsAgedAnd(m: Mail, cutoff: int, p: Mail -> bool) {
    m.receivedAt < cutoff && p(m)
  }

  function AgedAnd(cutoff: int, p: Mail -> bool): Mail -> bool {
    (m: Mail) => IsAgedAnd(m, cutoff, p)
  }

  /** Rows that satisfy `p` and went from `before` to `after`. */
  function Gone(before: map<MailId, Mail>, after: map<MailId, Mail>, p: Mail -> bool): int {
    |Where(before, p)| - |Where(after, p)|
  }

  ghost predicate Bumps(r: map<MailType, nat>, deleted: map<MailType, nat>, batch: seq<Row>) {
    forall typ :: DeletedOf(r, typ) == DeletedOf(deleted, typ) + Count(RowIs(OfType(typ)), batch)
  }

  /** The counts say how many rows of each type went from `before` to `after`. */
  ghost predicate CountsGone(deleted: map<MailType, nat>, before: map<MailId, Mail>, after: map<MailId, Mail>) {
    forall typ :: DeletedOf(deleted, typ) == Gone(before, after, OfType(typ))
  }

  lemma MoreGone(before: map<MailId, Mail>, mails: map<MailId, Mail>, batch: seq<Row>, p: Mail -> bool)
    requires AllLive(mails, batch)
    ensures Gone(before, mails - Ids(batch), p) == Gone(before, mails, p) + Count(RowIs(p), batch)
  {
    DeletedAreCounted(mails, batch, p);
  }

  lemma MoreDeleted(before: map<MailId, Mail>, mails: map<MailId, Mail>, batch: seq<Row>, deleted: map<MailType, nat>)
    requires AllLive(mails, batch) && CountsGone(deleted, before, mails)
    ensures forall r :: Bumps(r, deleted, batch) ==> CountsGone(r, before, mails - Ids(batch))
  {
    forall typ {
      MoreGone(before, mails, batch, OfType(typ));
    }
  }

  /** `for (const row of batch) bump(row.type, 1)`. */
  method BumpDeleted(deleted: map<MailType, nat>, batch: seq<Row>) returns (r: map<MailType, nat>)
    ensures Bumps(r, deleted, batch)
  {
    r := deleted;
    for n := 0 to |batch|
      invariant forall typ :: DeletedOf(r, typ) == DeletedOf(deleted, typ) + Count(RowIs(OfType(typ)), batch[..n])
    {
      ghost var was := r;
      r := r[batch[n].mail.typ := DeletedOf(r, batch[n].mail.typ) + 1];
      forall typ
        ensures DeletedOf(r, typ) == DeletedOf(deleted, typ) + Count(RowIs(OfType(typ)), batch[..n + 1])
      {
        CountNextOf(batch, n, OfType(typ));
        assert DeletedOf(r, typ) == DeletedOf(was, typ) + (if batch[n].mail.typ == typ then 1 else 0);
      }
    }
    assert batch[..|batch|] == batch;
  }

  lemma CountNextOf(batch: seq<Row>, n: nat, p: Mail -> bool)
    requires n < |batch|
    ensures Count(RowIs(p), batch[..n + 1]) == Count(RowIs(p), batch[..n]) + (if p(batch[n].mail) then 1 else 0)
  {
    assert batch[..n + 1][..n] == batch[..n];
    CountLast(RowIs(p), batch[..n + 1]);
  }

  /** A dry run counts the aged rows: exactly what a run that clears the backlog deletes. */
  lemma DryRunPredicts(before: Store, after: Store, cutoff: int, p: Mail -> bool)
    requires SweptFrom(before, after, cutoff) && Where(after.mails, IsAged(cutoff)) == {}
    ensures |Where(before.mails, AgedAnd(cutoff, p))| == Gone(before.mails, after.mails, p)
  {
    forall i | i in before.mails
      ensures i in after.mails <==> before.mails[i].receivedAt >= cutoff
    {
      assert i !in Where(after.mails, IsAged(cutoff));
    }
    SplitByAge(before.mails, after.mails, cutoff, p);
  }

  lemma SplitByAge(before: map<MailId, Mail>, after: map<MailId, Mail>, cutoff: int, p: Mail -> bool)
    requires forall i :: i in after ==> i in before && after[i] == before[i]
    requires forall i :: i in before ==> (i in after <==> before[i].receivedAt >= cutoff)
    ensures Where(before, p) == Where(after, p) + Where(before, AgedAnd(cutoff, p))
    ensures Where(after, p) !! Where(before, AgedAnd(cutoff, p))
  {
    forall i
      ensures i in Where(before, p) <==> i in Where(after, p) || i in Where(before, AgedAnd(cutoff, p))
      ensures !(i in Where(after, p) && i in Where(before, AgedAnd(cutoff, p)))
    {
    }
  }

  /** What a sweep may do: only aged rows go, and every send keeps its counts and its standing. */
  ghost predicate SweptFrom(before: Store, after: Store, cutoff: int) {
    && SameStatistics(after, before)
    && (forall i :: i in after.mails ==> i in before.mails && after.mails[i] == before.mails[i])
    && (forall i :: i in before.mails && i !in after.mails ==> before.mails[i].receivedAt < cutoff)
  }

  lemma BatchSweeps(before: Store, s: Store, cutoff: int, take: nat, batch: seq<Row>, now: int)
    requires SweptFrom(before, s, cutoff) && IsNextBatch(s.mails, cutoff, take, batch)
    ensures SweptFrom(before, FoldBatch(s, batch, now), cutoff)
    ensures |Where(FoldBatch(s, batch, now).mails, IsAged(cutoff))| == |Where(s.mails, IsAged(cutoff))| - |batch|
  {
    FoldKeepsStatistics(s, batch, now);
    DeletedAreCounted(s.mails, batch, IsAged(cutoff));
    forall r | r in batch
      ensures RowIs(IsAged(cutoff))(r)
    {
      assert r.id in Ids(batch);
    }
    CountAll(RowIs(IsAged(cutoff)), batch);
  }

  function Stamped(sends: map<SendId, SendRow>): set<SendId> {
    set send | send in sends && sends[send].proofAt.Some?
  }

  lemma StampedByBatch(s: Store, batch: seq<Row>, now: int)
    ensures Stamped(FoldBatch(s, batch, now).sends) == Stamped(s.sends) + NewlyStamped(s.sends, batch)
  {
    forall send | send in s.sends
      ensures send in Stamped(FoldBatch(s, batch, now).sends)
         <==> send in Stamped(s.sends) || send in NewlyStamped(s.sends, batch)
    {
      SetsProve(batch, send, s.sends[send].mc);
    }
  }

  /** The sends a batch stamps are exactly those that were not stamped before. */
  lemma StampsAreCounted(s: Store, batch: seq<Row>, now: int)
    ensures |Stamped(FoldBatch(s, batch, now).sends)| == |Stamped(s.sends)| + |NewlyStamped(s.sends, batch)|
  {
    StampedByBatch(s, batch, now);
    assert Stamped(s.sends) !! NewlyStamped(s.sends, batch);
  }

  /** The first day whose content is kept. */
  function KeepFrom(now: int, htmlDays: int): int {
    IstDay(now) - htmlDays
  }

  /** The batches of one run: aged rows go, what they count stays, and the counts say what went. */
  method SweepBatches(db: DigestDb, now: int, cutoff: int, batchSize: nat, maxBatches: nat) returns (r: SweepResult)
    modifies db`mails, db`sends
    ensures SweptFrom(old(db.View()), db.View(), cutoff)
    ensures !r.more && batchSize > 0 ==> Where(db.mails, IsAged(cutoff)) == {}
    ensures r.more ==> maxBatches > 0 && r.batches == maxBatches
    ensures CountsGone(r.deleted, old(db.mails), db.mails)
    ensures r.folded == Gone(old(db.mails), db.mails, IsFoldable) && r.contentsPurged == 0
    ensures r.proofStamped == |Stamped(db.sends)| - |Stamped(old(db.sends))|
  {
    var deleted: map<MailType, nat> := map[];
    var batches, folded, proofStamped := 0, 0, 0;
    ghost var before := db.View();
    while true
      invariant SweptFrom(before, db.View(), cutoff)
      invariant maxBatches > 0 ==> batches <= maxBatches
      invariant CountsGone(deleted, before.mails, db.mails)
      invariant folded == Gone(before.mails, db.mails, IsFoldable)
      invariant proofStamped == |Stamped(db.sends)| - |Stamped(before.sends)|
      decreases |Where(db.mails, IsAged(cutoff))|
    {
      if maxBatches > 0 && batches >= maxBatches {
        return SweepResult(deleted, folded, proofStamped, 0, batches, true);
      }
      var batch := db.NextBatch(cutoff, batchSize);
      if |batch| == 0 {
        break;
      }
      BatchSweeps(before, db.View(), cutoff, batchSize, batch, now);
      StampsAreCounted(db.View(), batch, now);
      MoreGone(before.mails, db.mails, batch, IsFoldable);
      MoreDeleted(before.mails, db.mails, batch, deleted);
      var f, p := db.FoldAndDelete(batch, now);
      folded, proofStamped := folded + f, proofStamped + p;
      deleted := BumpDeleted(deleted, batch);
      batches := batches + 1;
      if |batch| < batchSize {
        break;
      }
    }
    r := SweepResult(deleted, folded, proofStamped, 0, batches, false);
  }

  /** What a dry run reports: nothing is touched. */
  method CountOnly(db: DigestDb, cutoff: int, keepFrom: int) returns (r: SweepResult)
    ensures forall typ :: DeletedOf(r.deleted, typ) == |Where(db.mails, AgedAnd(cutoff, OfType(typ)))|
    ensures r.folded == |Where(db.mails, AgedAnd(cutoff, IsFoldable))| && r.proofStamped == 0
    ensures r.contentsPurged == |Where(db.contents, OldContent(keepFrom))| && r.batches == 0 && !r.more
  {
    var deleted := map typ: MailType | Where(db.mails, AgedAnd(cutoff, OfType(typ))) != {} ::
                     |Where(db.mails, AgedAnd(cutoff, OfType(typ)))|;
    forall typ
      ensures DeletedOf(deleted, typ) == |Where(db.mails, AgedAnd(cutoff, OfType(typ)))|
    {
      if typ !in deleted {
        assert Where(db.mails, AgedAnd(cutoff, OfType(typ))) == {};
      }
    }
    r := SweepResult(deleted, |Where(db.mails, AgedAnd(cutoff, IsFoldable))|, 0,
                     |Where(db.contents, OldContent(keepFrom))|, 0, false);
  }

  /**
   * One run over `db`, any batch size and batch limit (0 = no limit). It refuses a window that is not positive. A dry
   * run touches nothing and counts what is aged and what content is old. Any other deletes aged rows only, changes no
   * send's counts or standing, purges exactly the old content, and says how much of each went; one that ends with
   * `more == false` has left none.
   */
  method SweepDigestRetention(db: DigestDb, now: int, eventDays: int, htmlDays: int, batchSize: nat, maxBatches: nat,
                              dryRun: bool)
    returns (r: Option<SweepResult>)
    modifies db
    ensures r.None? <==> eventDays <= 0 || htmlDays <= 0
    ensures r.None? || dryRun ==> db.View() == old(db.View()) && db.contents == old(db.contents)
    ensures SweptFrom(old(db.View()), db.View(), now - eventDays * DAY_MS)
    ensures r.Some? && !dryRun && !r.value.more && batchSize > 0 ==>
              Where(db.mails, IsAged(now - eventDays * DAY_MS)) == {}
    ensures r.Some? && r.value.more ==> maxBatches > 0 && r.value.batches == maxBatches
    ensures r.Some? ==>
              forall typ :: DeletedOf(r.value.deleted, typ)
                            == if dryRun then |Where(db.mails, AgedAnd(now - eventDays * DAY_MS, OfType(typ)))|
                               else Gone(old(db.mails), db.mails, OfType(typ))
    ensures r.Some? ==>
              r.value.folded == if dryRun then |Where(db.mails, AgedAnd(now - eventDays * DAY_MS, IsFoldable))|
                                else Gone(old(db.mails), db.mails, IsFoldable)
    ensures r.Some? ==> r.value.proofStamped == |Stamped(db.sends)| - |Stamped(old(db.sends))|
    ensures r.Some? && !dryRun ==> db.contents == Purged(old(db.contents), KeepFrom(now, htmlDays), now)
    ensures r.Some? ==> r.value.contentsPurged == |Where(old(db.contents), OldContent(KeepFrom(now, htmlDays)))|
    ensures r.Some? && !dryRun ==>
              && db.contents.Keys == old(db.contents).Keys
              && forall send :: send in db.contents ==>
                   IsPurgedRight(old(db.contents)[send], db.contents[send], now, htmlDays)
  {
    if !(eventDays > 0) || !(htmlDays > 0) {
      return None;
    }
    var cutoff := now - eventDays * DAY_MS;
    if dryRun {
      var counts := CountOnly(db, cutoff, KeepFrom(now, htmlDays));
      return Some(counts);
    }
    var swept := SweepBatches(db, now, cutoff, batchSize, maxBatches);
    var purged := db.PurgeContents(KeepFrom(now, htmlDays), now);
    r := Some(swept.(contentsPurged := purged));
  }
}
