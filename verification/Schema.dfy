/** The rows of the attendance ledger. A table is a sequence of rows in commit
    order and a row's UUID is its position; UUIDs are therefore fresh. */
module Schema {
  import opened Common
  import opened Hours

  type Id = nat
  /** Nanoseconds. The database keeps microseconds; see Hours.MicrosecondsSuffice. */
  type Time = int
  type Date = int       // institution-local calendar date
  type Key = nat        // object-store key

  datatype Location = Verified | OutsideRadius | LowAccuracy | Unavailable

  datatype Flag = FlagOutsideRadius | FlagLowAccuracy | FlagUnavailableLocation | FlagUnusualDuration

  datatype Status = Open | Valid | Flagged | Corrected

  /** ruleUsed is bookkeeping of the model: the break rule that was in force when
      credited was last computed. No operation reads it. */
  datatype Session = Session(
    trainee: Id, assignment: Id, date: Date,
    originalIn: Time, originalOut: Option<Time>,
    effectiveIn: Time, effectiveOut: Option<Time>,
    credited: Option<int>, status: Status, flags: seq<Flag>, version: int,
    closedAt: Option<Time>, ruleUsed: Option<BreakRule>)

  datatype Action = TimeInAction | TimeOutAction

  datatype Evidence = Evidence(
    attendance: Id, trainee: Id, action: Action, clientAction: Id,
    capturedAt: Time, location: Location, originalKey: Key, watermarkedKey: Key)

  datatype CorrectionType = MissedTimeOut | IncorrectTime | FieldAssignment | GpsIssue | Other | UnknownType

  datatype CorrectionStatus = Pending | Approved | Rejected

  datatype Correction = Correction(
    attendance: Id, trainee: Id, kind: CorrectionType,
    proposedIn: Option<Time>, proposedOut: Option<Time>, status: CorrectionStatus)

  datatype Adjustment = Adjustment(
    attendance: Id, correction: Id,
    effectiveIn: Time, effectiveOut: Option<Time>, credited: Option<int>)

  datatype JournalStatus = Draft | Submitted | NeedsRevision | Reviewed

  datatype Journal = Journal(
    attendance: Id, trainee: Id, narrative: Option<string>, status: JournalStatus, revisions: nat)

  datatype Review = Review(journal: Id, reviewer: Id, decision: JournalStatus, comment: Option<string>)

  datatype Assignment = Assignment(
    trainee: Id, active: bool, start: Date, end: Option<Date>,
    required: int, rule: BreakRule, weekdays: set<int>)

  datatype Db = Db(
    assignments: seq<Assignment>, sessions: seq<Session>, evidence: seq<Evidence>,
    corrections: seq<Correction>, adjustments: seq<Adjustment>,
    journals: seq<Journal>, reviews: seq<Review>)

  /** Institution settings, the zone's instant-to-date function, and the user
      account behind each trainee profile. */
  datatype Config = Config(localDate: Time -> Date, unusualMinutes: int, userOf: Id -> Id)

  /** What a Time In or Time Out request carries once parsed. `now` is the server
      timestamp it took; the keys are those it stored the two photos under. */
  datatype Capture = Capture(
    trainee: Id, clientAction: Id, location: Location, hasReason: bool,
    originalKey: Key, watermarkedKey: Key, now: Time)

  /** A correction proposal. `seenIn` is the effective time-in the handler read
      before its transaction; it may be stale when the row is inserted. */
  datatype Proposal = Proposal(
    trainee: Id, session: Id, kind: CorrectionType, reason: string,
    proposedIn: Option<Time>, proposedOut: Option<Time>, seenIn: Time, now: Time)

  datatype Verdict = Approve | Reject | UnknownVerdict

  datatype Event =
    | TimeIn(capture: Capture)
    | TimeOut(capture: Capture, session: Id)
    | Request(proposal: Proposal)
    | Decide(correction: Id, verdict: Verdict, now: Time)
    | SaveDraft(journal: Id, text: string)
    | Submit(journal: Id, text: string)
    | ReviewJournal(journal: Id, reviewer: Id, decision: JournalStatus, comment: Option<string>)
    | EditAssignments(edited: seq<Assignment>)

  datatype Error =
    | NoActiveAssignment | LocationReasonRequired | StorageUnavailable
    | AttendanceExistsToday | AttendanceNotFound | AttendanceNotOpen
    | Validation | InvalidProposedTime | CorrectionAlreadyPending | NotFound
    | CorrectionNotPending | InvalidEffectiveDuration
    | JournalNotEditable | NarrativeRequired | ReviewCommentRequired | JournalNotSubmitted
    | Internal

  datatype Outcome = Created(id: Id) | Done | Replayed(id: Id) | Refused(error: Error)

  /** A request succeeded and wrote. */
  predicate Committed(o: Outcome) { o.Created? || o.Done? }

  // ---- row predicates used in queries ----

  function OnDay(trainee: Id, date: Date): Session -> bool {
    (s: Session) => s.trainee == trainee && s.date == date
  }

  function WithAction(trainee: Id, clientAction: Id): Evidence -> bool {
    (e: Evidence) => e.trainee == trainee && e.clientAction == clientAction
  }

  function EvidenceOf(session: Id, action: Action): Evidence -> bool {
    (e: Evidence) => e.attendance == session && e.action == action
  }

  function AdjustmentOf(session: Id): Adjustment -> bool {
    (a: Adjustment) => a.attendance == session
  }

  function FromCorrection(correction: Id): Adjustment -> bool {
    (a: Adjustment) => a.correction == correction
  }

  function PendingFor(session: Id): Correction -> bool {
    (c: Correction) => c.attendance == session && c.status == Pending
  }

  function JournalOf(session: Id): Journal -> bool {
    (j: Journal) => j.attendance == session
  }

  function ReviewOf(journal: Id): Review -> bool {
    (r: Review) => r.journal == journal
  }

  function RevisionOf(journal: Id): Review -> bool {
    (r: Review) => r.journal == journal && r.decision == NeedsRevision
  }

  function Covers(trainee: Id, day: Date): Assignment -> bool {
    (a: Assignment) => a.trainee == trainee && a.active && a.start <= day && (a.end.Some? ==> day <= a.end.value)
  }
}
