/** Statements about whole runs of the ledger: what a session row looks like in
    every reachable state, and what later requests can never change. */
module LedgerHistory {
  import opened Common
  import opened Hours
  import opened Schema
  import opened Ledger
  import opened LedgerInvariants

  /** In every reachable state, however a session was closed, its redundant columns
      tell one story. The status does not decide closure: a corrected session may
      still have no time-out. */
  lemma SessionColumnsAgree(cfg: Config, es: seq<Event>, i: Id)
    requires i < |Run(cfg, es).sessions|
    ensures ColumnsAgree(Run(cfg, es), i)
  {
    RunKeeps(cfg, es);
    AgreementSpelledOut(Run(cfg, es), i);
  }

  ghost predicate ColumnsAgree(db: Db, i: Id)
    requires i < |db.sessions|
  {
    var s := db.sessions[i];
    var outs := Count(db.evidence, EvidenceOf(i, TimeOutAction));
    var approvals := Count(db.adjustments, AdjustmentOf(i));
    var journals := Count(db.journals, JournalOf(i));
    && (s.effectiveIn, s.effectiveOut) == OverlayOf(db, i)
    && outs <= 1 && (outs == 1 <==> s.originalOut.Some?)
    && s.version == 1 + outs + approvals
    && (s.effectiveOut.Some? <==> s.credited.Some?)
    && (s.effectiveOut.Some? <==> s.closedAt.Some?)
    && (s.effectiveOut.Some? <==> journals == 1)
    && (s.effectiveOut.None? <==> journals == 0)
    && (s.status == Open ==> s.effectiveOut.None?)
    && (s.status == Valid || s.status == Flagged ==> s.effectiveOut.Some?)
    && (s.status == Valid ==> s.flags == [])
    && (s.status == Flagged ==> s.flags != [])
    && (s.status == Corrected <==> approvals > 0)
    && (s.effectiveOut.Some? ==> s.effectiveOut.value > s.effectiveIn)
  }

  lemma AgreementSpelledOut(db: Db, i: Id)
    requires i < |db.sessions| && SessionOk(db, i)
    ensures ColumnsAgree(db, i)
  {
    if Count(db.adjustments, AdjustmentOf(i)) == 0 {
      OverlayUntouched(i, Originals(db.sessions[i]), db.adjustments, db.corrections);
    }
  }

  /** `corrected` does not mean closed: approving a location dispute on an open
      session leaves it corrected with no time-out and no journal. */
  lemma CorrectedMayBeUnclosed(cfg: Config, reason: string)
    requires Text.TrimSpace(reason) != "" && cfg.localDate(5) == 1
    ensures var db := Run(cfg, DisputeOnOpenSession(reason));
            && |db.sessions| == 1 && db.sessions[0].status == Corrected
            && db.sessions[0].effectiveOut.None? && db.journals == []
  {
    DisputeFiled(cfg, reason);
    var es := DisputeOnOpenSession(reason);
    RunSnoc(cfg, es, 3);
    assert es[..4] == es;
    ApprovedDispute(Run(cfg, es[..3]), 9);
  }

  lemma DisputeFiled(cfg: Config, reason: string)
    requires Text.TrimSpace(reason) != "" && cfg.localDate(5) == 1
    ensures var db := Run(cfg, DisputeOnOpenSession(reason)[..3]);
      && |db.sessions| == 1 && db.sessions[0].effectiveOut.None? && db.adjustments == [] && db.journals == []
      && db.corrections == [Correction(0, 0, GpsIssue, None, None, Pending)]
  {
    DisputeOpened(cfg, reason);
    ThirdFilesDispute(cfg, DisputeOnOpenSession(reason));
  }

  lemma ThirdFilesDispute(cfg: Config, es: seq<Event>)
    requires |es| > 2 && es[2].Request? && var p := es[2].proposal;
      && p.trainee == 0 && p.session == 0 && p.kind == GpsIssue && Text.TrimSpace(p.reason) != ""
      && p.proposedIn.None? && p.proposedOut.None?
    requires var db := Run(cfg, es[..2]);
      |db.sessions| == 1 && db.sessions[0].trainee == 0 && db.corrections == []
    ensures Run(cfg, es[..3]) == Run(cfg, es[..2]).(corrections := [Correction(0, 0, GpsIssue, None, None, Pending)])
  {
    RunSnoc(cfg, es, 2);
    FirstDispute(Run(cfg, es[..2]), es[2].proposal);
  }

  lemma DisputeOpened(cfg: Config, reason: string)
    requires cfg.localDate(5) == 1
    ensures var db := Run(cfg, DisputeOnOpenSession(reason)[..2]);
      && |db.sessions| == 1 && db.sessions[0].trainee == 0 && db.sessions[0].effectiveOut.None?
      && db.corrections == [] && db.adjustments == [] && db.journals == []
  {
    var es := DisputeOnOpenSession(reason);
    var a := es[0].edited[0];
    RunSnoc(cfg, es, 0);
    RunSnoc(cfg, es, 1);
    assert Run(cfg, es[..1]) == EMPTY.(assignments := [a]);
    FirstTimeIn(cfg, EMPTY.(assignments := [a]), es[1].capture, a);
  }

  lemma FirstTimeIn(cfg: Config, db: Db, c: Capture, a: Assignment)
    requires db == EMPTY.(assignments := [a]) && Covers(c.trainee, cfg.localDate(c.now))(a) && !MissingReason(c)
    ensures ApplyTimeIn(cfg, db, c) == (OpenSession(db, c, 0, cfg.localDate(c.now)), Created(0))
  {
  }

  lemma FirstDispute(db: Db, p: Proposal)
    requires |db.sessions| == 1 && db.sessions[0].trainee == p.trainee && db.corrections == []
    requires p.session == 0 && p.kind == GpsIssue && Text.TrimSpace(p.reason) != "" && p.proposedIn.None? && p.proposedOut.None?
    ensures ApplyRequest(db, p).0 == db.(corrections := [Correction(0, p.trainee, GpsIssue, None, None, Pending)])
  {
  }

  lemma ApprovedDispute(db: Db, now: Time)
    requires |db.sessions| == 1 && db.sessions[0].effectiveOut.None? && db.adjustments == [] && db.journals == []
    requires db.corrections == [Correction(0, 0, GpsIssue, None, None, Pending)]
    ensures var after := ApplyDecide(db, 0, Approve, now).0;
      |after.sessions| == 1 && after.sessions[0].status == Corrected && after.sessions[0].effectiveOut.None? && after.journals == []
  {
  }

  /** Adjustment m of session i came from a correction that proposed a time-out. */
  predicate SetsTimeOut(i: Id, adjustments: seq<Adjustment>, corrections: seq<Correction>, m: nat) {
    && m < |adjustments| && adjustments[m].attendance == i && adjustments[m].correction < |corrections|
    && corrections[adjustments[m].correction].proposedOut.Some?
  }

  lemma {:induction false} OverlaySetsTimeOut(i: Id, base: Times, adjustments: seq<Adjustment>, corrections: seq<Correction>)
    ensures Overlay(i, base, adjustments, corrections).1.Some? <==>
      base.1.Some? || exists m: nat :: SetsTimeOut(i, adjustments, corrections, m)
  {
    if adjustments != [] {
      var n := |adjustments| - 1;
      OverlaySetsTimeOut(i, base, adjustments[..n], corrections);
      assert SetsTimeOut(i, adjustments, corrections, n) ==> Overlay(i, base, adjustments, corrections).1.Some?;
      if m: nat :| SetsTimeOut(i, adjustments[..n], corrections, m) { assert SetsTimeOut(i, adjustments, corrections, m); }
      if m: nat :| SetsTimeOut(i, adjustments, corrections, m) && m < n { assert SetsTimeOut(i, adjustments[..n], corrections, m); }
    }
  }

  /** Exactly when a session is closed, a corrected one in particular: it was timed
      out, or some approved correction of it proposed a time-out. */
  lemma ClosedExactly(cfg: Config, es: seq<Event>, i: Id)
    requires i < |Run(cfg, es).sessions|
    ensures var db := Run(cfg, es);
            var s := db.sessions[i];
            && (s.effectiveOut.Some? <==>
                  s.originalOut.Some? || exists m: nat :: SetsTimeOut(i, db.adjustments, db.corrections, m))
            && (s.status == Corrected && s.effectiveOut.None? <==>
                  && Count(db.adjustments, AdjustmentOf(i)) > 0 && s.originalOut.None?
                  && forall m: nat :: !SetsTimeOut(i, db.adjustments, db.corrections, m))
  {
    var db := Run(cfg, es);
    SessionColumnsAgree(cfg, es, i);
    OverlaySetsTimeOut(i, Originals(db.sessions[i]), db.adjustments, db.corrections);
    RunKeeps(cfg, es);
    assert SessionOk(db, i);
  }

  /** Right after an approval its session is closed exactly when it already was or the
      correction proposes a time-out. */
  lemma ApprovalClosesExactly(db: Db, k: Id, now: Time)
    requires Inv(db) && ApplyDecide(db, k, Approve, now).1 == Done
    ensures var i := db.corrections[k].attendance;
            var after := ApplyDecide(db, k, Approve, now).0;
            && i < |db.sessions| && |after.sessions| == |db.sessions| && after.sessions[i].status == Corrected
            && (after.sessions[i].effectiveOut.Some? <==>
                  db.sessions[i].effectiveOut.Some? || db.corrections[k].proposedOut.Some?)
  {
  }

  lemma RunSnoc(cfg: Config, es: seq<Event>, n: nat)
    requires n < |es|
    ensures Run(cfg, es[..n + 1]) == Apply(cfg, Run(cfg, es[..n]), es[n]).0
    ensures Run(cfg, []) == EMPTY && es[..0] == []
  {
    assert es[..n + 1][..n] == es[..n];
  }

  function DisputeOnOpenSession(reason: string): seq<Event> {
    [EditAssignments([Assignment(0, true, 1, None, 60, BreakRule(NoBreak, 0, 0), {})]),
     TimeIn(Capture(0, 7, Verified, false, 1, 2, 5)),
     Request(Proposal(0, 0, GpsIssue, reason, None, None, 5, 6)),
     Decide(0, Approve, 9)]
  }

  /** Adjustments and approved corrections correspond one to one, and an adjustment
      row holds the projection that was in force right after its approval. */
  lemma AdjustmentsMatchApprovals(cfg: Config, es: seq<Event>)
    ensures var db := Run(cfg, es);
            && (forall k :: 0 <= k < |db.corrections| ==>
                  Count(db.adjustments, FromCorrection(k)) == (if db.corrections[k].status == Approved then 1 else 0))
            && (forall k :: 0 <= k < |db.adjustments| ==>
                  var a := db.adjustments[k];
                  && a.correction < |db.corrections| && db.corrections[a.correction].attendance == a.attendance < |db.sessions|
                  && (a.effectiveIn, a.effectiveOut) ==
                     Overlay(a.attendance, Originals(db.sessions[a.attendance]), db.adjustments[..k + 1], db.corrections))
  {
    RunKeeps(cfg, es);
  }

  // ---- What never changes ----

  ghost predicate SessionGrows(s: Session, t: Session) {
    && t.trainee == s.trainee && t.assignment == s.assignment && t.date == s.date
    && t.originalIn == s.originalIn
    && (s.originalOut.Some? ==> t.originalOut == s.originalOut)
    && (s.effectiveOut.Some? ==> t.effectiveOut.Some?)
    && (s.closedAt.Some? ==> t.closedAt == s.closedAt)
    && (t.status == Open ==> t == s)
    && s.version <= t.version
    && (s.version == t.version ==> s == t)
  }

  ghost predicate Grows(a: Db, b: Db) {
    && |a.assignments| <= |b.assignments|
    && |a.sessions| <= |b.sessions|
    && (forall i :: 0 <= i < |a.sessions| ==> SessionGrows(a.sessions[i], b.sessions[i]))
    && a.evidence <= b.evidence
    && |a.corrections| <= |b.corrections|
    && (forall k :: 0 <= k < |a.corrections| ==>
          && b.corrections[k] == a.corrections[k].(status := b.corrections[k].status)
          && (a.corrections[k].status != Pending ==> b.corrections[k].status == a.corrections[k].status))
    && a.adjustments <= b.adjustments
    && a.reviews <= b.reviews
    && |a.journals| <= |b.journals|
    && (forall k :: 0 <= k < |a.journals| ==>
          b.journals[k].attendance == a.journals[k].attendance && b.journals[k].trainee == a.journals[k].trainee)
  }

  lemma TimeInGrows(cfg: Config, db: Db, c: Capture)
    ensures Grows(db, ApplyTimeIn(cfg, db, c).0)
  {
  }

  lemma CloseGrows(db: Db, i: Id, s: Session, row: Evidence, journals: seq<Journal>)
    requires i < |db.sessions| && SessionGrows(db.sessions[i], s)
    requires journals == EnsureJournal(db.journals, i, s.trainee)
    ensures Grows(db, db.(evidence := db.evidence + [row], sessions := db.sessions[i := s], journals := journals))
  {
  }

  lemma TimeOutGrows(cfg: Config, db: Db, c: Capture, i: Id)
    requires Inv(db)
    ensures Grows(db, ApplyTimeOut(cfg, db, c, i).0)
  {
    var (after, outcome) := ApplyTimeOut(cfg, db, c, i);
    if outcome.Created? {
      assert SessionOk(db, i);
      OverlayUntouched(i, Originals(db.sessions[i]), db.adjustments, db.corrections);
      CloseGrows(db, i, after.sessions[i], EvidenceRow(c, i, TimeOutAction), after.journals);
    } else {
      assert after == db;
    }
  }

  lemma RequestGrows(db: Db, p: Proposal)
    ensures Grows(db, ApplyRequest(db, p).0)
  {
  }

  lemma ApproveGrows(db: Db, k: Id, s: Session, row: Adjustment, journals: seq<Journal>)
    requires Links(db) && k < |db.corrections| && db.corrections[k].status == Pending
    requires var i := db.corrections[k].attendance;
             SessionGrows(db.sessions[i], s) && (journals == db.journals || journals == EnsureJournal(db.journals, i, s.trainee))
    ensures var i := db.corrections[k].attendance;
            Grows(db, db.(adjustments := db.adjustments + [row], sessions := db.sessions[i := s],
                          corrections := db.corrections[k := db.corrections[k].(status := Approved)], journals := journals))
  {
  }

  lemma DecideGrows(db: Db, k: Id, verdict: Verdict, now: Time)
    requires Inv(db)
    ensures Grows(db, ApplyDecide(db, k, verdict, now).0)
  {
    var (after, outcome) := ApplyDecide(db, k, verdict, now);
    if outcome.Done? && verdict == Approve {
      var i := db.corrections[k].attendance;
      assert SessionOk(db, i);
      ApproveGrows(db, k, after.sessions[i], after.adjustments[|db.adjustments|], after.journals);
    }
  }

  lemma JournalWriteGrows(db: Db, k: Id, j: Journal, reviews: seq<Review>)
    requires k < |db.journals| && db.reviews <= reviews
    requires j.attendance == db.journals[k].attendance && j.trainee == db.journals[k].trainee
    ensures Grows(db, db.(journals := db.journals[k := j], reviews := reviews))
  {
  }

  lemma SaveDraftGrows(db: Db, k: Id, text: string)
    ensures Grows(db, ApplySaveDraft(db, k, text).0)
  {
    if k < |db.journals| { JournalWriteGrows(db, k, SaveDraftRow(db.journals[k], text), db.reviews); }
  }

  lemma SubmitGrows(db: Db, k: Id, text: string)
    ensures Grows(db, ApplySubmit(db, k, text).0)
  {
    if k < |db.journals| { JournalWriteGrows(db, k, SubmitRow(db.journals[k], text), db.reviews); }
  }

  lemma ReviewGrows(db: Db, k: Id, reviewer: Id, decision: JournalStatus, comment: Option<string>)
    ensures Grows(db, ApplyReview(db, k, reviewer, decision, comment).0)
  {
    if k < |db.journals| {
      JournalWriteGrows(db, k, ReviewRow(db.journals[k], decision), db.reviews + [Review(k, reviewer, decision, comment)]);
    }
  }

  lemma StepGrows(cfg: Config, db: Db, e: Event)
    requires Inv(db)
    ensures Grows(db, Apply(cfg, db, e).0)
  {
    match e
    case TimeIn(c) => TimeInGrows(cfg, db, c);
    case TimeOut(c, i) => TimeOutGrows(cfg, db, c, i);
    case Request(p) => RequestGrows(db, p);
    case Decide(k, verdict, now) => DecideGrows(db, k, verdict, now);
    case SaveDraft(k, text) => SaveDraftGrows(db, k, text);
    case Submit(k, text) => SubmitGrows(db, k, text);
    case ReviewJournal(k, reviewer, decision, comment) => ReviewGrows(db, k, reviewer, decision, comment);
    case EditAssignments(edited) =>
  }

  lemma GrowsTransitive(a: Db, b: Db, c: Db)
    requires Grows(a, b) && Grows(b, c)
    ensures Grows(a, c)
  {
    forall i | 0 <= i < |a.sessions| ensures SessionGrows(a.sessions[i], c.sessions[i]) {
      assert SessionGrows(a.sessions[i], b.sessions[i]) && SessionGrows(b.sessions[i], c.sessions[i]);
    }
    forall k | 0 <= k < |a.corrections|
      ensures c.corrections[k] == a.corrections[k].(status := c.corrections[k].status)
      ensures a.corrections[k].status != Pending ==> c.corrections[k].status == a.corrections[k].status
    {
      assert b.corrections[k] == a.corrections[k].(status := b.corrections[k].status);
      assert c.corrections[k] == b.corrections[k].(status := c.corrections[k].status);
    }
  }

  /** Over any continuation of any run: original times are written at most once,
      `open` is never re-entered, decisions stand, and evidence, adjustments and
      reviews are append-only. */
  lemma {:induction false} RunsGrow(cfg: Config, es: seq<Event>, more: seq<Event>)
    ensures Grows(Run(cfg, es), Run(cfg, es + more))
  {
    if more == [] {
      assert es + more == es;
    } else {
      var n := |more| - 1;
      RunsGrow(cfg, es, more[..n]);
      RunKeeps(cfg, es + more[..n]);
      assert (es + more)[..|es + more| - 1] == es + more[..n];
      StepGrows(cfg, Run(cfg, es + more[..n]), more[n]);
      GrowsTransitive(Run(cfg, es), Run(cfg, es + more[..n]), Run(cfg, es + more));
    }
  }

  // ---- Times stay behind the clock ----

  predicate NotAfter(t: Option<Time>, clock: Time) { t.Some? ==> t.value <= clock }

  function TimeOf(e: Event, clock: Time): Time {
    match e
    case TimeIn(c) => c.now
    case TimeOut(c, _) => c.now
    case Request(p) => p.now
    case Decide(_, _, now) => now
    case _ => clock
  }

  ghost predicate BehindClock(db: Db, clock: Time) {
    && (forall i :: 0 <= i < |db.sessions| ==>
          && db.sessions[i].originalIn <= clock && NotAfter(db.sessions[i].originalOut, clock)
          && db.sessions[i].effectiveIn <= clock && NotAfter(db.sessions[i].effectiveOut, clock))
    && (forall k :: 0 <= k < |db.corrections| ==>
          NotAfter(db.corrections[k].proposedIn, clock) && NotAfter(db.corrections[k].proposedOut, clock))
  }

  /** If every request took its timestamp no later than `clock`, no stored time is
      later, although a proposal is validated against a time-in read earlier. */
  lemma {:induction false} TimesBehindClock(cfg: Config, es: seq<Event>, clock: Time)
    requires forall k :: 0 <= k < |es| ==> TimeOf(es[k], clock) <= clock
    ensures BehindClock(Run(cfg, es), clock)
  {
    if es != [] {
      var n := |es| - 1;
      assert forall k :: 0 <= k < n ==> es[..n][k] == es[k];
      TimesBehindClock(cfg, es[..n], clock);
      StepBehindClock(cfg, Run(cfg, es[..n]), es[n], clock);
    }
  }

  lemma StepBehindClock(cfg: Config, db: Db, e: Event, clock: Time)
    requires BehindClock(db, clock) && TimeOf(e, clock) <= clock
    ensures BehindClock(Apply(cfg, db, e).0, clock)
  {
    match e
    case TimeIn(c) =>
    case TimeOut(c, i) => TimeOutBehindClock(cfg, db, c, i, clock);
    case Request(p) => RequestBehindClock(db, p, clock);
    case Decide(k, verdict, now) => DecideBehindClock(db, k, verdict, now, clock);
    case _ => JournalsLeaveTimes(cfg, db, e);
  }

  lemma TimeOutBehindClock(cfg: Config, db: Db, c: Capture, i: Id, clock: Time)
    requires BehindClock(db, clock) && c.now <= clock
    ensures BehindClock(ApplyTimeOut(cfg, db, c, i).0, clock)
  {
  }

  lemma RequestBehindClock(db: Db, p: Proposal, clock: Time)
    requires BehindClock(db, clock) && p.now <= clock
    ensures BehindClock(ApplyRequest(db, p).0, clock)
  {
  }

  lemma DecideBehindClock(db: Db, k: Id, verdict: Verdict, now: Time, clock: Time)
    requires BehindClock(db, clock)
    ensures BehindClock(ApplyDecide(db, k, verdict, now).0, clock)
  {
  }

  lemma JournalsLeaveTimes(cfg: Config, db: Db, e: Event)
    requires e.SaveDraft? || e.Submit? || e.ReviewJournal? || e.EditAssignments?
    ensures var after := Apply(cfg, db, e).0;
      after.sessions == db.sessions && after.corrections == db.corrections
  {
  }

  // ---- Idempotent retries ----

  /** Once a Time In committed, a retry with its action id, after any further
      requests, answers with the same session and writes nothing as long as an
      assignment covers the day of the retry; without one it is refused, and still
      writes nothing. */
  lemma TimeInRetry(cfg: Config, es: seq<Event>, c: Capture, more: seq<Event>, retry: Capture)
    requires ApplyTimeIn(cfg, Run(cfg, es), c).1.Created?
    requires retry.trainee == c.trainee && retry.clientAction == c.clientAction
    ensures var id := ApplyTimeIn(cfg, Run(cfg, es), c).1.id;
            var db := Run(cfg, es + [TimeIn(c)] + more);
            && ApplyTimeIn(cfg, db, retry).0 == db
            && ApplyTimeIn(cfg, db, retry).1 ==
               if ActiveSite(db, c.trainee, cfg.localDate(retry.now)).Some? then Replayed(id) else Refused(NoActiveAssignment)
  {
    var first := Run(cfg, es + [TimeIn(c)]);
    assert (es + [TimeIn(c)])[..|es|] == es;
    RunKeeps(cfg, es + [TimeIn(c)] + more);
    RunsGrow(cfg, es + [TimeIn(c)], more);
    var db := Run(cfg, es + [TimeIn(c)] + more);
    var k := |Run(cfg, es).evidence|;
    assert db.evidence[k] == first.evidence[k] == EvidenceRow(c, |Run(cfg, es).sessions|, TimeInAction);
    OnlyMatch(db, k);
  }

  /** A Time Out retry is answered from its committed evidence, whatever was
      corrected in between. */
  lemma TimeOutRetry(cfg: Config, es: seq<Event>, c: Capture, i: Id, more: seq<Event>, retry: Capture)
    requires ApplyTimeOut(cfg, Run(cfg, es), c, i).1.Created?
    requires retry.trainee == c.trainee && retry.clientAction == c.clientAction
    ensures var db := Run(cfg, es + [TimeOut(c, i)] + more);
            ApplyTimeOut(cfg, db, retry, i) == (db, Replayed(i))
  {
    var first := Run(cfg, es + [TimeOut(c, i)]);
    assert (es + [TimeOut(c, i)])[..|es|] == es;
    RunKeeps(cfg, es + [TimeOut(c, i)] + more);
    RunsGrow(cfg, es + [TimeOut(c, i)], more);
    var db := Run(cfg, es + [TimeOut(c, i)] + more);
    var k := |Run(cfg, es).evidence|;
    assert db.evidence[k] == first.evidence[k] == EvidenceRow(c, i, TimeOutAction);
    OnlyMatch(db, k);
    assert SessionGrows(first.sessions[i], db.sessions[i]);
  }

  /** Under the unique index, an evidence row is the one its own action id finds. */
  lemma OnlyMatch(db: Db, k: nat)
    requires Unique(db) && k < |db.evidence|
    ensures Find(db.evidence, WithAction(db.evidence[k].trainee, db.evidence[k].clientAction)) == Some(k)
  {
    var e := db.evidence[k];
    var r := Find(db.evidence, WithAction(e.trainee, e.clientAction));
    assert WithAction(e.trainee, e.clientAction)(db.evidence[k]);
    assert r.Some? && WithAction(e.trainee, e.clientAction)(db.evidence[r.value]);
  }

  /** At most one session per trainee and day, one evidence row per session and
      action, and one per trainee and action id. */
  lemma NoDuplicates(cfg: Config, es: seq<Event>)
    ensures var db := Run(cfg, es);
            && (forall i, j :: 0 <= i < |db.sessions| && 0 <= j < |db.sessions| && i != j ==>
                  (db.sessions[i].trainee, db.sessions[i].date) != (db.sessions[j].trainee, db.sessions[j].date))
            && (forall k, l :: 0 <= k < |db.evidence| && 0 <= l < |db.evidence| && k != l ==>
                  (db.evidence[k].trainee, db.evidence[k].clientAction) != (db.evidence[l].trainee, db.evidence[l].clientAction))
            && (forall i, action :: 0 <= i < |db.sessions| ==> Count(db.evidence, EvidenceOf(i, action)) <= 1)
  {
    RunKeeps(cfg, es);
    var db := Run(cfg, es);
    forall i, action | 0 <= i < |db.sessions| ensures Count(db.evidence, EvidenceOf(i, action)) <= 1 {
      assert SessionOk(db, i);
      assert action == TimeInAction || action == TimeOutAction;
    }
    forall i, j | 0 <= i < |db.sessions| && 0 <= j < |db.sessions| && i != j
      ensures (db.sessions[i].trainee, db.sessions[i].date) != (db.sessions[j].trainee, db.sessions[j].date)
    {
      if i < j { } else { assert j < i; }
    }
  }
}
