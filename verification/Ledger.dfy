/** Each request of the attendance, correction and journal services as one atomic
    transition of the tables. Branch order, refusals and constants follow the
    handlers; a constraint violation rolls the whole transaction back. */
module Ledger {
  import opened Common
  import opened Hours
  import opened Text
  import opened Schema

  const NARRATIVE_MIN_BYTES := 20

  // ---- Time In ----

  /** The active assignment covering a day. At most one assignment per trainee is
      active, so the query's ORDER BY and LIMIT never choose. */
  function ActiveSite(db: Db, trainee: Id, day: Date): Option<Id> {
    Find(db.assignments, Covers(trainee, day))
  }

  predicate MissingReason(c: Capture) { c.location == Unavailable && !c.hasReason }

  function FlagsFor(location: Location): seq<Flag> {
    match location
    case OutsideRadius => [FlagOutsideRadius]
    case LowAccuracy => [FlagLowAccuracy]
    case Unavailable => [FlagUnavailableLocation]
    case Verified => []
  }

  function EvidenceRow(c: Capture, session: Id, action: Action): Evidence {
    Evidence(session, c.trainee, action, c.clientAction, c.now, c.location, c.originalKey, c.watermarkedKey)
  }

  function OpenSession(db: Db, c: Capture, assignment: Id, day: Date): Db {
    db.(sessions := db.sessions +
          [Session(c.trainee, assignment, day, c.now, None, c.now, None, None, Open, FlagsFor(c.location), 1, None, None)],
        evidence := db.evidence + [EvidenceRow(c, |db.sessions|, TimeInAction)])
  }

  /** The insert transaction of Time In: the session row first, then its evidence. */
  function InsertTimeIn(db: Db, c: Capture, assignment: Id, day: Date): (Db, Outcome) {
    if Find(db.sessions, OnDay(c.trainee, day)).Some? then (db, Refused(AttendanceExistsToday))
    else if Find(db.evidence, WithAction(c.trainee, c.clientAction)).Some? then (db, Refused(Internal))
    else (OpenSession(db, c, assignment, day), Created(|db.sessions|))
  }

  /** findReplay: the session of the committed evidence row with this action id. */
  function FindReplay(db: Db, trainee: Id, clientAction: Id): Option<Id> {
    var k := Find(db.evidence, WithAction(trainee, clientAction));
    if k.Some? then Some(db.evidence[k.value].attendance) else None
  }

  function ApplyTimeIn(cfg: Config, db: Db, c: Capture): (Db, Outcome) {
    var day := cfg.localDate(c.now);
    var site := ActiveSite(db, c.trainee, day);
    if site.None? then (db, Refused(NoActiveAssignment))
    else
      var replay := FindReplay(db, c.trainee, c.clientAction);
      if replay.Some? then (db, Replayed(replay.value))
      else if MissingReason(c) then (db, Refused(LocationReasonRequired))
      else InsertTimeIn(db, c, site.value, day)
  }

  // ---- Time Out ----

  /** The keep-first union computed by mergeFlags. */
  function Merge(existing: seq<Flag>, add: seq<Flag>): seq<Flag> { Dedup(existing + add) }

  function Dedup(s: seq<Flag>): (r: seq<Flag>)
    ensures forall f :: f in r <==> f in s
    ensures forall i, j :: 0 <= i < j < |r| ==> r[i] != r[j]
  {
    if s == [] then []
    else
      var n := |s| - 1;
      var r := Dedup(s[..n]);
      assert forall f :: f in s <==> f in s[..n] || f == s[n];
      if s[n] in r then r else r + [s[n]]
  }

  function EnsureJournal(journals: seq<Journal>, session: Id, trainee: Id): seq<Journal> {
    if Find(journals, JournalOf(session)).Some? then journals
    else journals + [Journal(session, trainee, None, Draft, 0)]
  }

  /** replayTimeOut: only a time_out row recorded for this very session counts. */
  function ReplaysTimeOut(db: Db, trainee: Id, clientAction: Id, session: Id): bool {
    var k := Find(db.evidence, WithAction(trainee, clientAction));
    k.Some? && db.evidence[k.value].action == TimeOutAction && db.evidence[k.value].attendance == session
  }

  /** The close computed by Time Out from the locked row's time-in and flags and
      the break rule read with the site. */
  function Closed(cfg: Config, s: Session, c: Capture, curIn: Time, curFlags: seq<Flag>, rule: BreakRule): Session {
    var credit := CreditedMinutes(curIn, c.now, rule);
    var merged := Merge(curFlags, FlagsFor(c.location));
    var flags := if credit.elapsed >= cfg.unusualMinutes then Merge(merged, [FlagUnusualDuration]) else merged;
    s.(originalOut := Some(c.now), effectiveOut := Some(c.now), credited := Some(credit.credited),
       status := if flags != [] then Flagged else Valid, flags := flags,
       closedAt := Some(c.now), version := s.version + 1, ruleUsed := Some(rule))
  }

  function CloseSession(cfg: Config, db: Db, c: Capture, i: Id, curIn: Time, curFlags: seq<Flag>, rule: BreakRule): Db
    requires i < |db.sessions|
  {
    db.(evidence := db.evidence + [EvidenceRow(c, i, TimeOutAction)],
        sessions := db.sessions[i := Closed(cfg, db.sessions[i], c, curIn, curFlags, rule)],
        journals := EnsureJournal(db.journals, i, c.trainee))
  }

  /** CHECK constraints of attendance_sessions on the row Time Out writes. */
  predicate CloseAllowed(s: Session, now: Time) { now > s.originalIn && now > s.effectiveIn }

  function InsertTimeOut(cfg: Config, db: Db, c: Capture, i: Id, curIn: Time, curFlags: seq<Flag>, rule: BreakRule): (Db, Outcome)
    requires i < |db.sessions|
  {
    if || Find(db.evidence, WithAction(c.trainee, c.clientAction)).Some?
       || Find(db.evidence, EvidenceOf(i, TimeOutAction)).Some?
       || !CloseAllowed(db.sessions[i], c.now)
    then (db, Refused(Internal))
    else (CloseSession(cfg, db, c, i, curIn, curFlags, rule), Created(i))
  }

  function ApplyTimeOut(cfg: Config, db: Db, c: Capture, i: Id): (Db, Outcome) {
    if i >= |db.sessions| || db.sessions[i].trainee != c.trainee then (db, Refused(AttendanceNotFound))
    else if ReplaysTimeOut(db, c.trainee, c.clientAction, i) then (db, Replayed(i))
    else if db.sessions[i].status != Open then (db, Refused(AttendanceNotOpen))
    else if MissingReason(c) then (db, Refused(LocationReasonRequired))
    else InsertTimeOut(cfg, db, c, i, db.sessions[i].effectiveIn, db.sessions[i].flags, RuleOf(db, i))
  }

  function RuleOf(db: Db, i: Id): BreakRule
    requires i < |db.sessions|
  {
    var a := db.sessions[i].assignment;
    if a < |db.assignments| then db.assignments[a].rule else BreakRule(NoBreak, 0, 0)
  }

  // ---- Corrections ----

  function ValidateProposal(p: Proposal): Option<Error> {
    var bad := Some(InvalidProposedTime);
    if p.kind == UnknownType || TrimSpace(p.reason) == "" then Some(Validation)
    else if p.kind == MissedTimeOut && p.proposedOut.None? then bad
    else if p.kind in {IncorrectTime, FieldAssignment} && p.proposedIn.None? && p.proposedOut.None? then bad
    else if p.proposedIn.Some? && p.proposedIn.value > p.now then bad
    else if p.proposedOut.Some? && p.proposedOut.value > p.now then bad
    else if p.proposedOut.Some? && p.proposedOut.value <= p.proposedIn.GetOr(p.seenIn) then bad
    else None
  }

  function InsertRequest(db: Db, p: Proposal): (Db, Outcome) {
    if Find(db.corrections, PendingFor(p.session)).Some? then (db, Refused(CorrectionAlreadyPending))
    else (db.(corrections := db.corrections +
                [Correction(p.session, p.trainee, p.kind, p.proposedIn, p.proposedOut, Pending)]),
          Created(|db.corrections|))
  }

  function ApplyRequest(db: Db, p: Proposal): (Db, Outcome) {
    if p.session >= |db.sessions| || db.sessions[p.session].trainee != p.trainee then (db, Refused(NotFound))
    else
      var error := ValidateProposal(p);
      if error.Some? then (db, Refused(error.value)) else InsertRequest(db, p)
  }

  /** The projection an approval computes: each proposed time replaces the current one. */
  function ProposedOr(proposed: Option<Time>, current: Option<Time>): Option<Time> {
    if proposed.Some? then proposed else current
  }

  function Projected(s: Session, newIn: Time, newOut: Option<Time>, rule: BreakRule, curOut: Option<Time>, now: Time): Session {
    s.(effectiveIn := newIn, effectiveOut := newOut,
       credited := if newOut.Some? then Some(CreditedMinutes(newIn, newOut.value, rule).credited) else s.credited,
       ruleUsed := if newOut.Some? then Some(rule) else s.ruleUsed,
       status := Corrected, version := s.version + 1,
       closedAt := if newOut.Some? && curOut.None? && s.closedAt.None? then Some(now) else s.closedAt)
  }

  /** The approval writes, from the session values read under the row lock. */
  function ApproveRows(db: Db, k: Id, curIn: Time, curOut: Option<Time>, rule: BreakRule, now: Time): Db
    requires k < |db.corrections| && db.corrections[k].attendance < |db.sessions|
  {
    var c := db.corrections[k];
    var newIn := c.proposedIn.GetOr(curIn);
    var newOut := ProposedOr(c.proposedOut, curOut);
    var credited := if newOut.Some? then Some(CreditedMinutes(newIn, newOut.value, rule).credited) else None;
    db.(adjustments := db.adjustments + [Adjustment(c.attendance, k, newIn, newOut, credited)],
        sessions := db.sessions[c.attendance :=
          Projected(db.sessions[c.attendance], newIn, newOut, rule, curOut, now)],
        corrections := db.corrections[k := c.(status := Approved)],
        journals := if newOut.Some? && curOut.None? then EnsureJournal(db.journals, c.attendance, c.trainee)
                    else db.journals)
  }

  function ApproveWith(db: Db, k: Id, curIn: Time, curOut: Option<Time>, rule: BreakRule, now: Time): (Db, Outcome)
    requires k < |db.corrections| && db.corrections[k].attendance < |db.sessions|
  {
    var newIn := db.corrections[k].proposedIn.GetOr(curIn);
    var newOut := ProposedOr(db.corrections[k].proposedOut, curOut);
    if newOut.Some? && newOut.value <= newIn then (db, Refused(InvalidEffectiveDuration))
    else if Find(db.adjustments, FromCorrection(k)).Some? then (db, Refused(Internal))
    else (ApproveRows(db, k, curIn, curOut, rule, now), Done)
  }

  function RejectRow(db: Db, k: Id): Db
    requires k < |db.corrections|
  {
    db.(corrections := db.corrections[k := db.corrections[k].(status := Rejected)])
  }

  function ApplyDecide(db: Db, k: Id, verdict: Verdict, now: Time): (Db, Outcome) {
    if verdict == UnknownVerdict then (db, Refused(Validation))
    else if k >= |db.corrections| then (db, Refused(NotFound))
    else if db.corrections[k].status != Pending then (db, Refused(CorrectionNotPending))
    else if verdict == Reject then (RejectRow(db, k), Done)
    else
      var i := db.corrections[k].attendance;
      if i >= |db.sessions| then (db, Refused(Internal))
      else ApproveWith(db, k, db.sessions[i].effectiveIn, db.sessions[i].effectiveOut, RuleOf(db, i), now)
  }

  // ---- Journals ----

  predicate Editable(s: JournalStatus) { s == Draft || s == NeedsRevision }

  /** One journal row under each of the three writers; the error is what the
      handler answers when it leaves the row alone. */
  function SaveDraftRow(j: Journal, text: string): Journal {
    if Editable(j.status) then j.(narrative := Some(text)) else j
  }

  predicate LongEnough(text: string) { ByteLength(TrimSpace(text)) >= NARRATIVE_MIN_BYTES }

  function SubmitRow(j: Journal, text: string): Journal {
    if LongEnough(text) && Editable(j.status)
    then j.(narrative := Some(TrimSpace(text)), status := Submitted)
    else j
  }

  predicate ReviewAllowed(decision: JournalStatus, comment: Option<string>) {
    || decision == Reviewed
    || (decision == NeedsRevision && comment.Some? && TrimSpace(comment.value) != "")
  }

  function ReviewRow(j: Journal, decision: JournalStatus): Journal {
    j.(status := decision, revisions := j.revisions + if decision == NeedsRevision then 1 else 0)
  }

  function ApplySaveDraft(db: Db, k: Id, text: string): (Db, Outcome) {
    if k >= |db.journals| || !Editable(db.journals[k].status) then (db, Refused(JournalNotEditable))
    else (db.(journals := db.journals[k := SaveDraftRow(db.journals[k], text)]), Done)
  }

  function ApplySubmit(db: Db, k: Id, text: string): (Db, Outcome) {
    if !LongEnough(text) then (db, Refused(NarrativeRequired))
    else if k >= |db.journals| then (db, Refused(NotFound))
    else if !Editable(db.journals[k].status) then (db, Refused(JournalNotEditable))
    else (db.(journals := db.journals[k := SubmitRow(db.journals[k], text)]), Done)
  }

  function ApplyReview(db: Db, k: Id, reviewer: Id, decision: JournalStatus, comment: Option<string>): (Db, Outcome) {
    if decision != Reviewed && decision != NeedsRevision then (db, Refused(Validation))
    else if !ReviewAllowed(decision, comment) then (db, Refused(ReviewCommentRequired))
    else if k >= |db.journals| then (db, Refused(NotFound))
    else if db.journals[k].status != Submitted then (db, Refused(JournalNotSubmitted))
    else (db.(journals := db.journals[k := ReviewRow(db.journals[k], decision)],
              reviews := db.reviews + [Review(k, reviewer, decision, comment)]), Done)
  }

  // ---- Staff edits of assignments ----

  predicate OneActive(a: seq<Assignment>) {
    forall i, j :: 0 <= i < j < |a| && a[i].active && a[j].active ==> a[i].trainee != a[j].trainee
  }

  predicate EditAllowed(before: seq<Assignment>, after: seq<Assignment>) {
    && |before| <= |after|
    && (forall i :: 0 <= i < |before| ==> after[i].trainee == before[i].trainee)
    && (forall i :: 0 <= i < |after| ==> after[i].required > 0)
    && OneActive(after)
  }

  /** Assignment creation and update: rows are never deleted and keep their trainee. */
  function ApplyEdit(db: Db, edited: seq<Assignment>): (Db, Outcome) {
    if EditAllowed(db.assignments, edited) then (db.(assignments := edited), Done) else (db, Refused(Validation))
  }

  // ---- The whole ledger ----

  function Apply(cfg: Config, db: Db, e: Event): (Db, Outcome) {
    match e
    case TimeIn(c) => ApplyTimeIn(cfg, db, c)
    case TimeOut(c, i) => ApplyTimeOut(cfg, db, c, i)
    case Request(p) => ApplyRequest(db, p)
    case Decide(k, verdict, now) => ApplyDecide(db, k, verdict, now)
    case SaveDraft(k, text) => ApplySaveDraft(db, k, text)
    case Submit(k, text) => ApplySubmit(db, k, text)
    case ReviewJournal(k, reviewer, decision, comment) => ApplyReview(db, k, reviewer, decision, comment)
    case EditAssignments(edited) => ApplyEdit(db, edited)
  }

  const EMPTY := Db([], [], [], [], [], [], [])

  /** The tables after a run of requests from an empty ledger. */
  function Run(cfg: Config, es: seq<Event>): Db {
    if es == [] then EMPTY else Apply(cfg, Run(cfg, es[..|es| - 1]), es[|es| - 1]).0
  }

  /** A request that is refused or replayed leaves every table alone. */
  lemma RefusalsChangeNothing(cfg: Config, db: Db, e: Event)
    ensures var r := Apply(cfg, db, e); !Committed(r.1) ==> r.0 == db
  {
  }
}
