/** What every request of the ledger answers and writes, as conditions on the rows
    themselves: when each answer is given, and the whole state after a commit. */
module Answers {
  import opened Common
  import opened Hours
  import opened Text
  import opened Schema
  import opened Ledger
  import opened LedgerInvariants

  // ---- the rows the answers depend on ----

  /** Assignment a is the trainee's, active, and runs on that day, its last included. */
  predicate OnDuty(db: Db, t: Id, day: Date, a: nat) {
    && a < |db.assignments| && db.assignments[a].trainee == t && db.assignments[a].active
    && db.assignments[a].start <= day && (db.assignments[a].end.None? || day <= db.assignments[a].end.value)
  }

  /** Evidence k carries the trainee's action id. */
  predicate Carries(db: Db, t: Id, x: Id, k: nat) {
    k < |db.evidence| && db.evidence[k].trainee == t && db.evidence[k].clientAction == x
  }

  predicate SessionOfDay(db: Db, t: Id, day: Date, i: nat) {
    i < |db.sessions| && db.sessions[i].trainee == t && db.sessions[i].date == day
  }

  ghost predicate Assigned(db: Db, t: Id, day: Date) { exists a: nat :: OnDuty(db, t, day, a) }

  ghost predicate Used(db: Db, t: Id, x: Id) { exists k: nat :: Carries(db, t, x, k) }

  ghost predicate Attended(db: Db, t: Id, day: Date) { exists i: nat :: SessionOfDay(db, t, day, i) }

  lemma SiteIsOnDuty(db: Db, t: Id, day: Date)
    ensures Assigned(db, t, day) <==> ActiveSite(db, t, day).Some?
    ensures Assigned(db, t, day) ==> OnDuty(db, t, day, ActiveSite(db, t, day).value)
  {
    var site := ActiveSite(db, t, day);
    if site.Some? { assert Covers(t, day)(db.assignments[site.value]) && OnDuty(db, t, day, site.value); }
    if a: nat :| OnDuty(db, t, day, a) { assert Covers(t, day)(db.assignments[a]); }
  }

  lemma ActionIsUsed(db: Db, t: Id, x: Id)
    ensures var k := Find(db.evidence, WithAction(t, x));
      (Used(db, t, x) <==> k.Some?) && (k.Some? ==> Carries(db, t, x, k.value))
  {
    var k := Find(db.evidence, WithAction(t, x));
    if k.Some? { assert WithAction(t, x)(db.evidence[k.value]) && Carries(db, t, x, k.value); }
    if m: nat :| Carries(db, t, x, m) { assert WithAction(t, x)(db.evidence[m]); }
  }

  lemma DayIsAttended(db: Db, t: Id, day: Date)
    ensures Attended(db, t, day) <==> Find(db.sessions, OnDay(t, day)).Some?
  {
    var i := Find(db.sessions, OnDay(t, day));
    if i.Some? { assert OnDay(t, day)(db.sessions[i.value]) && SessionOfDay(db, t, day, i.value); }
    if m: nat :| SessionOfDay(db, t, day, m) { assert OnDay(t, day)(db.sessions[m]); }
  }

  // ---- Time In ----

  /** Each answer of Time In, by the rows. The refusals come in this order. */
  lemma TimeInAnswers(cfg: Config, db: Db, c: Capture)
    ensures var (after, o) := ApplyTimeIn(cfg, db, c);
            var day := cfg.localDate(c.now);
            var covered, used, attended := Assigned(db, c.trainee, day), Used(db, c.trainee, c.clientAction), Attended(db, c.trainee, day);
            var unexplained := c.location == Unavailable && !c.hasReason;
      && (o == Refused(NoActiveAssignment) <==> !covered)
      && (o.Replayed? <==> covered && used)
      && (o == Refused(LocationReasonRequired) <==> covered && !used && unexplained)
      && (o == Refused(AttendanceExistsToday) <==> covered && !used && !unexplained && attended)
      && (o.Created? <==> covered && !used && !unexplained && !attended)
      && (o.Replayed? ==> exists k: nat :: Carries(db, c.trainee, c.clientAction, k) && db.evidence[k].attendance == o.id)
      && (!o.Created? ==> after == db)
  {
    SiteIsOnDuty(db, c.trainee, cfg.localDate(c.now));
    ActionIsUsed(db, c.trainee, c.clientAction);
    DayIsAttended(db, c.trainee, cfg.localDate(c.now));
  }

  /** The rows a Time In adds: an open session on an assignment that runs that day, with
      the flag of its location if any, and its evidence. */
  lemma TimeInWrites(cfg: Config, db: Db, c: Capture)
    requires ApplyTimeIn(cfg, db, c).1.Created?
    ensures var (after, o) := ApplyTimeIn(cfg, db, c);
            var day, n := cfg.localDate(c.now), |db.sessions|;
      && o == Created(n) && |after.sessions| == n + 1 && after.sessions[..n] == db.sessions
      && var s := after.sessions[n];
         && OnDuty(db, c.trainee, day, s.assignment)
         && s == Session(c.trainee, s.assignment, day, c.now, None, c.now, None, None, Open, s.flags, 1, None, None)
         && (c.location == Verified ==> s.flags == [])
         && (c.location == OutsideRadius ==> s.flags == [FlagOutsideRadius])
         && (c.location == LowAccuracy ==> s.flags == [FlagLowAccuracy])
         && (c.location == Unavailable ==> s.flags == [FlagUnavailableLocation])
         && after == db.(sessions := after.sessions, evidence := db.evidence +
              [Evidence(n, c.trainee, TimeInAction, c.clientAction, c.now, c.location, c.originalKey, c.watermarkedKey)])
  {
    SiteIsOnDuty(db, c.trainee, cfg.localDate(c.now));
  }

  // ---- Time Out ----

  /** Evidence k is the time-out of session i under the trainee's action id. */
  predicate TimedOutBy(db: Db, t: Id, x: Id, i: Id, k: nat) {
    Carries(db, t, x, k) && db.evidence[k].action == TimeOutAction && db.evidence[k].attendance == i
  }

  ghost predicate AlreadyTimedOut(db: Db, t: Id, x: Id, i: Id) { exists k: nat :: TimedOutBy(db, t, x, i, k) }

  lemma ReplayIsTimedOut(db: Db, t: Id, x: Id, i: Id)
    requires Unique(db)
    ensures AlreadyTimedOut(db, t, x, i) <==> ReplaysTimeOut(db, t, x, i)
  {
    ActionIsUsed(db, t, x);
    var k := Find(db.evidence, WithAction(t, x));
    if ReplaysTimeOut(db, t, x, i) { assert TimedOutBy(db, t, x, i, k.value); }
    if m: nat :| TimedOutBy(db, t, x, i, m) { assert Carries(db, t, x, k.value) && m == k.value; }
  }

  /** An open session still has its original time-in and no time-out, credit or journal. */
  lemma OpenIsUntouched(db: Db, i: Id)
    requires Inv(db) && i < |db.sessions| && db.sessions[i].status == Open
    ensures var s := db.sessions[i];
      && s.effectiveIn == s.originalIn && s.effectiveOut.None? && s.credited.None? && s.closedAt.None?
      && Find(db.evidence, EvidenceOf(i, TimeOutAction)).None? && Find(db.journals, JournalOf(i)).None?
  {
    assert SessionOk(db, i);
    OverlayUntouched(i, Originals(db.sessions[i]), db.adjustments, db.corrections);
    CountNone(db.evidence, EvidenceOf(i, TimeOutAction));
    CountNone(db.journals, JournalOf(i));
  }

  /** Each answer of Time Out, by the rows. */
  lemma TimeOutAnswers(cfg: Config, db: Db, c: Capture, i: Id)
    requires Inv(db)
    ensures var (after, o) := ApplyTimeOut(cfg, db, c, i);
            var own := i < |db.sessions| && db.sessions[i].trainee == c.trainee;
            var mine := own && !AlreadyTimedOut(db, c.trainee, c.clientAction, i);
            var open := mine && db.sessions[i].status == Open;
            var explained := open && (c.location == Unavailable ==> c.hasReason);
            var fits := explained && !Used(db, c.trainee, c.clientAction) && c.now > db.sessions[i].effectiveIn;
      && (o == Refused(AttendanceNotFound) <==> !own)
      && (o == Replayed(i) <==> own && !mine)
      && (o == Refused(AttendanceNotOpen) <==> mine && !open)
      && (o == Refused(LocationReasonRequired) <==> open && !explained)
      && (o == Refused(Internal) <==> explained && !fits)
      && (o == Created(i) <==> fits)
      && (o != Created(i) ==> after == db)
  {
    if i < |db.sessions| && db.sessions[i].trainee == c.trainee {
      ReplayIsTimedOut(db, c.trainee, c.clientAction, i);
      ActionIsUsed(db, c.trainee, c.clientAction);
      if db.sessions[i].status == Open { OpenIsUntouched(db, i); }
    }
  }

  /** The flags after a Time Out: those before, that of the location, and
      `unusual_duration` exactly when the threshold's minutes have passed. */
  predicate FlagsAfter(cfg: Config, s: Session, c: Capture, flags: seq<Flag>) {
    && (FlagOutsideRadius in flags <==> FlagOutsideRadius in s.flags || c.location == OutsideRadius)
    && (FlagLowAccuracy in flags <==> FlagLowAccuracy in s.flags || c.location == LowAccuracy)
    && (FlagUnavailableLocation in flags <==> FlagUnavailableLocation in s.flags || c.location == Unavailable)
    && (FlagUnusualDuration in flags <==>
          FlagUnusualDuration in s.flags || c.now - s.effectiveIn >= cfg.unusualMinutes * 60_000_000_000)
    && (forall m, n :: 0 <= m < n < |flags| ==> flags[m] != flags[n])
  }

  /** The minutes elapsed reach a threshold exactly when the time does. */
  lemma MinutesReach(timeIn: Time, timeOut: Time, rule: BreakRule, minutes: int)
    requires timeOut > timeIn
    ensures CreditedMinutes(timeIn, timeOut, rule).elapsed >= minutes <==> timeOut - timeIn >= minutes * 60_000_000_000
  {
    if minutes > 0 { QuotientReaches(timeOut - timeIn, minutes, NANOS_PER_MINUTE); }
  }

  lemma LocationFlags(before: seq<Flag>, location: Location)
    ensures var flags := Merge(before, FlagsFor(location));
      && (FlagOutsideRadius in flags <==> FlagOutsideRadius in before || location == OutsideRadius)
      && (FlagLowAccuracy in flags <==> FlagLowAccuracy in before || location == LowAccuracy)
      && (FlagUnavailableLocation in flags <==> FlagUnavailableLocation in before || location == Unavailable)
      && (FlagUnusualDuration in flags <==> FlagUnusualDuration in before)
  {
    MergeIsUnion(before, FlagsFor(location));
  }

  lemma MergeIsUnion(a: seq<Flag>, b: seq<Flag>)
    ensures forall f :: f in Merge(a, b) <==> f in a || f in b
    ensures forall m, n :: 0 <= m < n < |Merge(a, b)| ==> Merge(a, b)[m] != Merge(a, b)[n]
  {
  }

  lemma ClosedFlags(cfg: Config, s: Session, c: Capture, rule: BreakRule)
    requires c.now > s.effectiveIn
    ensures FlagsAfter(cfg, s, c, Closed(cfg, s, c, s.effectiveIn, s.flags, rule).flags)
  {
    var merged := Merge(s.flags, FlagsFor(c.location));
    MinutesReach(s.effectiveIn, c.now, rule, cfg.unusualMinutes);
    LocationFlags(s.flags, c.location);
    MergeIsUnion(merged, [FlagUnusualDuration]);
  }

  /** The rows a Time Out writes: the session closed at the clock reading, `valid` only
      without a flag, its credit by the assignment's rule; its evidence; its journal. */
  lemma TimeOutWrites(cfg: Config, db: Db, c: Capture, i: Id)
    requires Inv(db) && ApplyTimeOut(cfg, db, c, i).1.Created?
    ensures var after := ApplyTimeOut(cfg, db, c, i).0;
            var s := db.sessions[i];
            var rule := db.assignments[s.assignment].rule;
      && |after.sessions| == |db.sessions| && (forall m :: 0 <= m < |db.sessions| && m != i ==> after.sessions[m] == db.sessions[m])
      && var r := after.sessions[i];
         && FlagsAfter(cfg, s, c, r.flags)
         && r == s.(originalOut := Some(c.now), effectiveOut := Some(c.now), closedAt := Some(c.now),
                    credited := Some(CreditedMinutes(s.effectiveIn, c.now, rule).credited), ruleUsed := Some(rule),
                    flags := r.flags, status := if r.flags == [] then Valid else Flagged, version := s.version + 1)
         && after == db.(sessions := after.sessions, evidence := db.evidence +
              [Evidence(i, c.trainee, TimeOutAction, c.clientAction, c.now, c.location, c.originalKey, c.watermarkedKey)],
              journals := db.journals + [Journal(i, c.trainee, None, Draft, 0)])
  {
    OpenIsUntouched(db, i);
    ClosedFlags(cfg, db.sessions[i], c, RuleOf(db, i));
  }

  // ---- corrections ----

  /** The proposed times are not what the kind needs, lie after the request, or do not
      end after they begin; a missing time-in stands for the one the handler read. */
  predicate Untimely(p: Proposal) {
    || (p.kind == MissedTimeOut && p.proposedOut.None?)
    || ((p.kind == IncorrectTime || p.kind == FieldAssignment) && p.proposedIn.None? && p.proposedOut.None?)
    || (p.proposedIn.Some? && p.proposedIn.value > p.now)
    || (p.proposedOut.Some? && p.proposedOut.value > p.now)
    || (p.proposedOut.Some? && p.proposedIn.Some? && p.proposedOut.value <= p.proposedIn.value)
    || (p.proposedOut.Some? && p.proposedIn.None? && p.proposedOut.value <= p.seenIn)
  }

  predicate PendingRow(db: Db, i: Id, k: nat) {
    k < |db.corrections| && db.corrections[k].attendance == i && db.corrections[k].status == Pending
  }

  ghost predicate Disputed(db: Db, i: Id) { exists k: nat :: PendingRow(db, i, k) }

  lemma DisputeIsPending(db: Db, i: Id)
    ensures Disputed(db, i) <==> Find(db.corrections, PendingFor(i)).Some?
  {
    var k := Find(db.corrections, PendingFor(i));
    if k.Some? { assert PendingFor(i)(db.corrections[k.value]) && PendingRow(db, i, k.value); }
    if m: nat :| PendingRow(db, i, m) { assert PendingFor(i)(db.corrections[m]); }
  }

  lemma BlankMeans(s: string)
    ensures TrimSpace(s) == "" <==> Blank(s)
  {
    TrimLeftDrops(s);
    TrimRightDrops(TrimLeft(s));
  }

  /** Each answer of a correction request, by the rows. */
  lemma RequestAnswers(db: Db, p: Proposal)
    ensures var (after, o) := ApplyRequest(db, p);
            var own := p.session < |db.sessions| && db.sessions[p.session].trainee == p.trainee;
            var stated := own && p.kind != UnknownType && exists k :: 0 <= k < |p.reason| && !IsSpace(p.reason[k]);
            var timely := stated && !Untimely(p);
      && (o == Refused(NotFound) <==> !own)
      && (o == Refused(Validation) <==> own && !stated)
      && (o == Refused(InvalidProposedTime) <==> stated && !timely)
      && (o == Refused(CorrectionAlreadyPending) <==> timely && Disputed(db, p.session))
      && (o.Created? <==> timely && !Disputed(db, p.session))
      && (o.Created? ==> after == db.(corrections := db.corrections +
            [Correction(p.session, p.trainee, p.kind, p.proposedIn, p.proposedOut, Pending)]) && o.id == |db.corrections|)
      && (!o.Created? ==> after == db)
  {
    BlankMeans(p.reason);
    DisputeIsPending(db, p.session);
  }

  /** The times an approval puts in force: a proposed one replaces the current one. */
  function InForce(proposed: Option<Time>, current: Option<Time>): Option<Time> {
    match proposed
    case Some(_) => proposed
    case None => current
  }

  /** Each answer of a decision, by the rows. */
  lemma DecideAnswers(db: Db, k: Id, verdict: Verdict, now: Time)
    requires Inv(db)
    ensures var (after, o) := ApplyDecide(db, k, verdict, now);
            var known := verdict == Approve || verdict == Reject;
            var found := known && k < |db.corrections|;
            var pending := found && db.corrections[k].status == Pending;
            var backwards := pending && verdict == Approve &&
              var c := db.corrections[k];
              var s := db.sessions[c.attendance];
              var newIn, newOut := InForce(c.proposedIn, Some(s.effectiveIn)).value, InForce(c.proposedOut, s.effectiveOut);
              newOut.Some? && newOut.value <= newIn;
      && (o == Refused(Validation) <==> !known)
      && (o == Refused(NotFound) <==> known && !found)
      && (o == Refused(CorrectionNotPending) <==> found && !pending)
      && (o == Refused(InvalidEffectiveDuration) <==> backwards)
      && (o == Done <==> pending && !backwards)
      && (o != Done ==> after == db)
  {
    CountNone(db.adjustments, FromCorrection(k));
  }

  /** A rejection marks its row rejected and writes nothing else. */
  lemma RejectWrites(db: Db, k: Id, now: Time)
    requires ApplyDecide(db, k, Reject, now).1 == Done
    ensures var after := ApplyDecide(db, k, Reject, now).0;
      && after == db.(corrections := after.corrections) && |after.corrections| == |db.corrections|
      && after.corrections[k] == db.corrections[k].(status := Rejected)
      && forall m :: 0 <= m < |db.corrections| && m != k ==> after.corrections[m] == db.corrections[m]
  {
  }

  /** An approval marks its row approved, puts the proposed times in force, computes the
      credit by the assignment's rule, records the adjustment, and gives a session it
      closes its closing time and its journal. */
  lemma ApproveWrites(db: Db, k: Id, now: Time)
    requires Inv(db) && ApplyDecide(db, k, Approve, now).1 == Done
    ensures var after := ApplyDecide(db, k, Approve, now).0;
            var c := db.corrections[k];
            var s := db.sessions[c.attendance];
            var rule := db.assignments[s.assignment].rule;
            var newIn, newOut := InForce(c.proposedIn, Some(s.effectiveIn)).value, InForce(c.proposedOut, s.effectiveOut);
            var credited := if newOut.Some? then Some(CreditedMinutes(newIn, newOut.value, rule).credited) else None;
            var closes := newOut.Some? && s.effectiveOut.None?;
      && |after.corrections| == |db.corrections| && after.corrections[k] == c.(status := Approved)
      && (forall m :: 0 <= m < |db.corrections| && m != k ==> after.corrections[m] == db.corrections[m])
      && |after.sessions| == |db.sessions|
      && after.sessions[c.attendance] ==
           s.(effectiveIn := newIn, effectiveOut := newOut, credited := credited, status := Corrected, version := s.version + 1,
              closedAt := if closes then Some(now) else s.closedAt, ruleUsed := if newOut.Some? then Some(rule) else None)
      && (forall m :: 0 <= m < |db.sessions| && m != c.attendance ==> after.sessions[m] == db.sessions[m])
      && after.adjustments == db.adjustments + [Adjustment(c.attendance, k, newIn, newOut, credited)]
      && after.journals == db.journals + (if closes then [Journal(c.attendance, c.trainee, None, Draft, 0)] else [])
      && after.assignments == db.assignments && after.evidence == db.evidence && after.reviews == db.reviews
  {
    UnclosedIsBlank(db, db.corrections[k].attendance);
  }

  lemma UnclosedIsBlank(db: Db, i: Id)
    requires Inv(db) && i < |db.sessions|
    ensures var s := db.sessions[i];
      && (s.effectiveOut.None? <==> Find(db.journals, JournalOf(i)).None?)
      && (s.effectiveOut.None? ==> s.credited.None? && s.closedAt.None? && s.ruleUsed.None?)
      && (s.effectiveOut.Some? ==> s.closedAt.Some?)
  {
    assert SessionOk(db, i);
    CountNone(db.journals, JournalOf(i));
  }

  // ---- journals ----

  /** Every other row and table is as before. */
  predicate OnlyJournal(db: Db, after: Db, k: Id, j: Journal) {
    && after == db.(journals := after.journals, reviews := after.reviews)
    && k < |db.journals| == |after.journals| && after.journals[k] == j
    && forall m :: 0 <= m < |db.journals| && m != k ==> after.journals[m] == db.journals[m]
  }

  lemma SaveDraftAnswers(db: Db, k: Id, text: string)
    ensures var (after, o) := ApplySaveDraft(db, k, text);
            var editable := k < |db.journals| && (db.journals[k].status == Draft || db.journals[k].status == NeedsRevision);
      && (o == Done <==> editable) && (o == Refused(JournalNotEditable) <==> !editable)
      && (editable ==> OnlyJournal(db, after, k, db.journals[k].(narrative := Some(text))) && after.reviews == db.reviews)
      && (!editable ==> after == db)
  {
  }

  lemma SubmitAnswers(db: Db, k: Id, text: string)
    ensures var (after, o) := ApplySubmit(db, k, text);
            var told := ByteLength(TrimSpace(text)) >= 20;
            var found := told && k < |db.journals|;
            var editable := found && (db.journals[k].status == Draft || db.journals[k].status == NeedsRevision);
      && (o == Refused(NarrativeRequired) <==> !told)
      && (o == Refused(NotFound) <==> told && !found)
      && (o == Refused(JournalNotEditable) <==> found && !editable)
      && (o == Done <==> editable)
      && (editable ==> OnlyJournal(db, after, k, db.journals[k].(narrative := Some(TrimSpace(text)), status := Submitted))
                       && after.reviews == db.reviews)
      && (!editable ==> after == db)
  {
  }

  lemma ReviewAnswers(db: Db, k: Id, reviewer: Id, decision: JournalStatus, comment: Option<string>)
    ensures var (after, o) := ApplyReview(db, k, reviewer, decision, comment);
            var known := decision == Reviewed || decision == NeedsRevision;
            var reasoned := known && (decision == NeedsRevision ==>
              comment.Some? && exists m :: 0 <= m < |comment.value| && !IsSpace(comment.value[m]));
            var found := reasoned && k < |db.journals|;
            var waiting := found && db.journals[k].status == Submitted;
      && (o == Refused(Validation) <==> !known)
      && (o == Refused(ReviewCommentRequired) <==> known && !reasoned)
      && (o == Refused(NotFound) <==> reasoned && !found)
      && (o == Refused(JournalNotSubmitted) <==> found && !waiting)
      && (o == Done <==> waiting)
      && (waiting ==>
            && OnlyJournal(db, after, k, db.journals[k].(status := decision,
                 revisions := if decision == NeedsRevision then db.journals[k].revisions + 1 else db.journals[k].revisions))
            && after.reviews == db.reviews + [Review(k, reviewer, decision, comment)])
      && (!waiting ==> after == db)
  {
    if comment.Some? { BlankMeans(comment.value); }
  }

  // ---- staff edits ----

  lemma EditAnswers(db: Db, edited: seq<Assignment>)
    ensures var (after, o) := ApplyEdit(db, edited);
            var allowed :=
              && |db.assignments| <= |edited|
              && (forall a :: 0 <= a < |db.assignments| ==> edited[a].trainee == db.assignments[a].trainee)
              && (forall a :: 0 <= a < |edited| ==> edited[a].required > 0)
              && (forall a, b :: 0 <= a < b < |edited| && edited[a].active && edited[b].active ==> edited[a].trainee != edited[b].trainee);
      && (o == Done <==> allowed) && (o == Refused(Validation) <==> !allowed)
      && after == if allowed then db.(assignments := edited) else db
  {
  }
}
