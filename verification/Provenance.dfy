/** What the tables say after any run, told from the accepted requests alone: whose
    photographs the evidence is, what every session, correction and journal went
    through, and why a session carries its flags and its status. */
module Provenance {
  import opened Common
  import opened Text
  import opened Schema
  import opened Ledger
  import opened LedgerInvariants
  import opened LedgerHistory
  import opened Answers

  /** What the m-th request of a run was answered. */
  function AnswerTo(cfg: Config, es: seq<Event>, m: nat): Outcome
    requires m < |es|
  {
    Apply(cfg, Run(cfg, es[..m]), es[m]).1
  }

  // ---- evidence ----

  /** The photograph an accepted capture leaves. */
  function Photograph(e: Event, o: Outcome): seq<Evidence> {
    match e
    case TimeIn(c) =>
      if o.Created? then [Evidence(o.id, c.trainee, TimeInAction, c.clientAction, c.now, c.location, c.originalKey, c.watermarkedKey)] else []
    case TimeOut(c, i) =>
      if o.Created? then [Evidence(i, c.trainee, TimeOutAction, c.clientAction, c.now, c.location, c.originalKey, c.watermarkedKey)] else []
    case _ => []
  }

  function Photographs(cfg: Config, es: seq<Event>): seq<Evidence> {
    if es == [] then []
    else
      var n := |es| - 1;
      Photographs(cfg, es[..n]) + Photograph(es[n], AnswerTo(cfg, es, n))
  }

  lemma StepAddsPhotograph(cfg: Config, db: Db, e: Event)
    requires Inv(db)
    ensures var (after, o) := Apply(cfg, db, e); after.evidence == db.evidence + Photograph(e, o)
  {
    match e
    case TimeIn(c) => if ApplyTimeIn(cfg, db, c).1.Created? { TimeInWrites(cfg, db, c); } else { TimeInAnswers(cfg, db, c); }
    case TimeOut(c, i) =>
      TimeOutAnswers(cfg, db, c, i);
      if ApplyTimeOut(cfg, db, c, i).1.Created? { TimeOutWrites(cfg, db, c, i); }
    case Decide(k, verdict, now) => DecideTouches(db, k, verdict, now);
    case _ =>
  }

  lemma DecideTouches(db: Db, k: Id, verdict: Verdict, now: Time)
    requires Inv(db)
    ensures var after := ApplyDecide(db, k, verdict, now).0;
      after.evidence == db.evidence && after.reviews == db.reviews && after.assignments == db.assignments
  {
    DecideAnswers(db, k, verdict, now);
  }

  /** The evidence table is the photographs of the accepted Time Ins and Time Outs, in
      the order they were accepted. */
  lemma {:induction false} EvidenceIsPhotographs(cfg: Config, es: seq<Event>)
    ensures Run(cfg, es).evidence == Photographs(cfg, es)
  {
    if es != [] {
      var n := |es| - 1;
      EvidenceIsPhotographs(cfg, es[..n]);
      RunKeeps(cfg, es[..n]);
      StepAddsPhotograph(cfg, Run(cfg, es[..n]), es[n]);
    }
  }

  // ---- sessions ----

  /** A trainee's day: when it was opened, when it was timed out, between which times it
      counts, and when it was closed. */
  datatype Day = Day(trainee: Id, arrived: Time, left: Option<Time>, from: Time, until: Option<Time>, closed: Option<Time>)

  function CorrectedDay(d: Day, c: Correction, now: Time): Day {
    var until := InForce(c.proposedOut, d.until);
    d.(from := InForce(c.proposedIn, Some(d.from)).value, until := until,
       closed := if d.closed.None? && until.Some? then Some(now) else d.closed)
  }

  /** What a request does to the days when it is answered o. */
  function DaysAfter(days: seq<Day>, corrections: seq<Correction>, e: Event, o: Outcome): seq<Day> {
    match e
    case TimeIn(c) => if o.Created? then days + [Day(c.trainee, c.now, None, c.now, None, None)] else days
    case TimeOut(c, i) =>
      if o.Created? && i < |days| then days[i := days[i].(left := Some(c.now), until := Some(c.now), closed := Some(c.now))] else days
    case Decide(k, verdict, now) =>
      if o.Done? && verdict == Approve && k < |corrections| && corrections[k].attendance < |days| then
        var i := corrections[k].attendance;
        days[i := CorrectedDay(days[i], corrections[k], now)]
      else days
    case _ => days
  }

  function Days(cfg: Config, es: seq<Event>): seq<Day> {
    if es == [] then []
    else
      var n := |es| - 1;
      DaysAfter(Days(cfg, es[..n]), Run(cfg, es[..n]).corrections, es[n], AnswerTo(cfg, es, n))
  }

  predicate TellsDay(cfg: Config, s: Session, d: Day) {
    && s.trainee == d.trainee && s.date == cfg.localDate(d.arrived)
    && s.originalIn == d.arrived && s.originalOut == d.left
    && s.effectiveIn == d.from && s.effectiveOut == d.until && s.closedAt == d.closed
  }

  ghost predicate TellDays(cfg: Config, sessions: seq<Session>, days: seq<Day>) {
    |sessions| == |days| && forall i :: 0 <= i < |days| ==> TellsDay(cfg, sessions[i], days[i])
  }

  lemma TimeInTellsDays(cfg: Config, db: Db, c: Capture, days: seq<Day>)
    requires TellDays(cfg, db.sessions, days)
    ensures var (after, o) := ApplyTimeIn(cfg, db, c); TellDays(cfg, after.sessions, DaysAfter(days, db.corrections, TimeIn(c), o))
  {
    TimeInAnswers(cfg, db, c);
    if ApplyTimeIn(cfg, db, c).1.Created? { TimeInWrites(cfg, db, c); }
  }

  lemma TimeOutTellsDays(cfg: Config, db: Db, c: Capture, i: Id, days: seq<Day>)
    requires Inv(db) && TellDays(cfg, db.sessions, days)
    ensures var (after, o) := ApplyTimeOut(cfg, db, c, i); TellDays(cfg, after.sessions, DaysAfter(days, db.corrections, TimeOut(c, i), o))
  {
    TimeOutAnswers(cfg, db, c, i);
    if ApplyTimeOut(cfg, db, c, i).1.Created? { TimeOutWrites(cfg, db, c, i); }
  }

  lemma DecideTellsDays(cfg: Config, db: Db, k: Id, verdict: Verdict, now: Time, days: seq<Day>)
    requires Inv(db) && TellDays(cfg, db.sessions, days)
    ensures var (after, o) := ApplyDecide(db, k, verdict, now); TellDays(cfg, after.sessions, DaysAfter(days, db.corrections, Decide(k, verdict, now), o))
  {
    DecideAnswers(db, k, verdict, now);
    if ApplyDecide(db, k, verdict, now).1.Done? {
      if verdict == Approve {
        ApproveWrites(db, k, now);
        UnclosedIsBlank(db, db.corrections[k].attendance);
      } else {
        RejectWrites(db, k, now);
      }
    }
  }

  lemma StepTellsDays(cfg: Config, db: Db, e: Event, days: seq<Day>)
    requires Inv(db) && TellDays(cfg, db.sessions, days)
    ensures var (after, o) := Apply(cfg, db, e); TellDays(cfg, after.sessions, DaysAfter(days, db.corrections, e, o))
  {
    match e
    case TimeIn(c) => TimeInTellsDays(cfg, db, c, days);
    case TimeOut(c, i) => TimeOutTellsDays(cfg, db, c, i, days);
    case Decide(k, verdict, now) => DecideTellsDays(cfg, db, k, verdict, now, days);
    case _ =>
  }

  /** Every session row is the day its accepted requests made: opened by the Time In,
      left at the Time Out, counted between the times in force after the approvals, and
      closed when a time-out first came into force. */
  lemma {:induction false} SessionsTellTheirDays(cfg: Config, es: seq<Event>)
    ensures TellDays(cfg, Run(cfg, es).sessions, Days(cfg, es))
  {
    if es != [] {
      var n := |es| - 1;
      SessionsTellTheirDays(cfg, es[..n]);
      RunKeeps(cfg, es[..n]);
      StepTellsDays(cfg, Run(cfg, es[..n]), es[n], Days(cfg, es[..n]));
    }
  }

  /** Request m opened session i, on an assignment that ran that day. */
  ghost predicate OpenedBy(cfg: Config, es: seq<Event>, m: nat, i: Id, s: Session) {
    && m < |es| && es[m].TimeIn? && AnswerTo(cfg, es, m) == Created(i)
    && es[m].capture.trainee == s.trainee && cfg.localDate(es[m].capture.now) == s.date
    && OnDuty(Run(cfg, es[..m]), s.trainee, s.date, s.assignment)
  }

  /** No session was opened on a day its assignment did not run. */
  lemma {:induction false} SessionOpenedOnDuty(cfg: Config, es: seq<Event>, i: Id)
    requires i < |Run(cfg, es).sessions|
    ensures exists m: nat :: OpenedBy(cfg, es, m, i, Run(cfg, es).sessions[i])
  {
    var n := |es| - 1;
    var db := Run(cfg, es[..n]);
    RunKeeps(cfg, es[..n]);
    StepGrows(cfg, db, es[n]);
    if i < |db.sessions| {
      SessionOpenedOnDuty(cfg, es[..n], i);
      var m: nat :| OpenedBy(cfg, es[..n], m, i, db.sessions[i]);
      assert es[..n][..m] == es[..m];
      assert OpenedBy(cfg, es, m, i, Run(cfg, es).sessions[i]);
    } else {
      OnlyTimeInOpens(cfg, db, es[n]);
      OpenedOnDuty(cfg, db, es[n].capture, i);
      assert OpenedBy(cfg, es, n, i, Run(cfg, es).sessions[i]);
    }
  }

  lemma OpenedOnDuty(cfg: Config, db: Db, c: Capture, i: Id)
    requires |db.sessions| <= i < |ApplyTimeIn(cfg, db, c).0.sessions| && ApplyTimeIn(cfg, db, c).1.Created?
    ensures var (after, o) := ApplyTimeIn(cfg, db, c);
            var s := after.sessions[i];
      o == Created(i) && s.trainee == c.trainee && s.date == cfg.localDate(c.now) && OnDuty(db, s.trainee, s.date, s.assignment)
  {
    TimeInWrites(cfg, db, c);
  }

  lemma OnlyTimeInOpens(cfg: Config, db: Db, e: Event)
    requires |Apply(cfg, db, e).0.sessions| > |db.sessions|
    ensures e.TimeIn? && Apply(cfg, db, e).1.Created?
  {
  }

  // ---- flags and status ----

  /** A photograph of session i was taken at that location. */
  predicate TakenAt(db: Db, i: Id, location: Location, k: nat) {
    k < |db.evidence| && db.evidence[k].attendance == i && db.evidence[k].location == location
  }

  ghost predicate Seen(db: Db, i: Id, location: Location) { exists k: nat :: TakenAt(db, i, location, k) }

  /** The session was timed out after at least the threshold's minutes. */
  predicate TooLong(cfg: Config, s: Session) {
    s.originalOut.Some? && s.originalOut.value - s.originalIn >= cfg.unusualMinutes * 60_000_000_000
  }

  /** Why session i carries its flags. */
  ghost predicate FlagsTell(cfg: Config, db: Db, i: Id)
    requires i < |db.sessions|
  {
    var s := db.sessions[i];
    && (FlagOutsideRadius in s.flags <==> Seen(db, i, OutsideRadius))
    && (FlagLowAccuracy in s.flags <==> Seen(db, i, LowAccuracy))
    && (FlagUnavailableLocation in s.flags <==> Seen(db, i, Unavailable))
    && (FlagUnusualDuration in s.flags <==> TooLong(cfg, s))
    && (forall m, n :: 0 <= m < n < |s.flags| ==> s.flags[m] != s.flags[n])
  }

  lemma SeenAfter(db: Db, after: Db, row: Evidence, i: Id, location: Location)
    requires after.evidence == db.evidence + [row]
    ensures Seen(after, i, location) <==> Seen(db, i, location) || (row.attendance == i && row.location == location)
  {
    if k: nat :| TakenAt(db, i, location, k) { assert TakenAt(after, i, location, k); }
    if k: nat :| TakenAt(after, i, location, k) && k < |db.evidence| { assert TakenAt(db, i, location, k); }
    if row.attendance == i && row.location == location { assert TakenAt(after, i, location, |db.evidence|); }
  }

  lemma SeenAtAll(db: Db, after: Db, row: Evidence, i: Id)
    requires after.evidence == db.evidence + [row]
    ensures forall location :: Seen(after, i, location) <==> Seen(db, i, location) || (row.attendance == i && row.location == location)
  {
    forall location ensures Seen(after, i, location) <==> Seen(db, i, location) || (row.attendance == i && row.location == location) {
      SeenAfter(db, after, row, i, location);
    }
  }

  lemma NewSessionUnseen(db: Db, i: Id, location: Location)
    requires Links(db) && i >= |db.sessions|
    ensures !Seen(db, i, location)
  {
  }

  lemma TimeInTellsFlags(cfg: Config, db: Db, c: Capture, i: Id)
    requires Inv(db) && i < |ApplyTimeIn(cfg, db, c).0.sessions| && (i < |db.sessions| ==> FlagsTell(cfg, db, i))
    ensures FlagsTell(cfg, ApplyTimeIn(cfg, db, c).0, i)
  {
    var (after, o) := ApplyTimeIn(cfg, db, c);
    TimeInAnswers(cfg, db, c);
    if o.Created? {
      TimeInWrites(cfg, db, c);
      SeenAtAll(db, after, after.evidence[|db.evidence|], i);
      if i < |db.sessions| {
        assert after.sessions[..|db.sessions|][i] == after.sessions[i];
      } else {
        forall location ensures !Seen(db, i, location) { NewSessionUnseen(db, i, location); }
      }
    }
  }

  lemma TimeOutTellsFlags(cfg: Config, db: Db, c: Capture, j: Id, i: Id)
    requires Inv(db) && i < |db.sessions| && FlagsTell(cfg, db, i) && ApplyTimeOut(cfg, db, c, j).1.Created?
    ensures var after := ApplyTimeOut(cfg, db, c, j).0; i < |after.sessions| && FlagsTell(cfg, after, i)
  {
    var after := ApplyTimeOut(cfg, db, c, j).0;
    TimeOutAnswers(cfg, db, c, j);
    TimeOutWrites(cfg, db, c, j);
    SeenAtAll(db, after, after.evidence[|db.evidence|], i);
    if i == j { ClosingTellsFlags(cfg, db, after, c, i); }
  }

  lemma ClosingTellsFlags(cfg: Config, db: Db, after: Db, c: Capture, i: Id)
    requires Inv(db) && i < |db.sessions| == |after.sessions| && FlagsTell(cfg, db, i)
    requires db.sessions[i].status == Open && FlagsAfter(cfg, db.sessions[i], c, after.sessions[i].flags)
    requires after.sessions[i].originalIn == db.sessions[i].originalIn && after.sessions[i].originalOut == Some(c.now)
    requires forall location :: Seen(after, i, location) <==> Seen(db, i, location) || c.location == location
    ensures FlagsTell(cfg, after, i)
  {
    OpenIsUntouched(db, i);
    assert SessionOk(db, i);
  }

  /** Nothing but a Time In or a Time Out touches a session's flags, originals or evidence. */
  lemma OthersKeepFlags(cfg: Config, db: Db, e: Event, i: Id)
    requires Inv(db) && i < |db.sessions| && !e.TimeIn? && !(e.TimeOut? && Apply(cfg, db, e).1.Created?)
    ensures var after := Apply(cfg, db, e).0;
      && i < |after.sessions| && after.evidence == db.evidence && after.sessions[i].flags == db.sessions[i].flags
      && after.sessions[i].originalIn == db.sessions[i].originalIn && after.sessions[i].originalOut == db.sessions[i].originalOut
  {
    if e.TimeOut? { TimeOutAnswers(cfg, db, e.capture, e.session); }
    if e.Decide? { DecideKeepsFlags(db, e.correction, e.verdict, e.now, i); }
  }

  lemma DecideKeepsFlags(db: Db, k: Id, verdict: Verdict, now: Time, i: Id)
    requires Inv(db) && i < |db.sessions|
    ensures var after := ApplyDecide(db, k, verdict, now).0;
      && i < |after.sessions| && after.evidence == db.evidence && after.sessions[i].flags == db.sessions[i].flags
      && after.sessions[i].originalIn == db.sessions[i].originalIn && after.sessions[i].originalOut == db.sessions[i].originalOut
  {
    DecideAnswers(db, k, verdict, now);
    if ApplyDecide(db, k, verdict, now).1.Done? {
      if verdict == Approve { ApproveWrites(db, k, now); } else { RejectWrites(db, k, now); }
    }
  }

  lemma SameEvidenceTellsFlags(cfg: Config, db: Db, after: Db, i: Id)
    requires i < |db.sessions| && i < |after.sessions| && FlagsTell(cfg, db, i) && after.evidence == db.evidence
    requires after.sessions[i].flags == db.sessions[i].flags
    requires after.sessions[i].originalIn == db.sessions[i].originalIn && after.sessions[i].originalOut == db.sessions[i].originalOut
    ensures FlagsTell(cfg, after, i)
  {
    forall location ensures Seen(after, i, location) <==> Seen(db, i, location) {
      if k: nat :| TakenAt(db, i, location, k) { assert TakenAt(after, i, location, k); }
      if k: nat :| TakenAt(after, i, location, k) { assert TakenAt(db, i, location, k); }
    }
  }

  lemma StepTellsFlags(cfg: Config, db: Db, e: Event, i: Id)
    requires Inv(db) && i < |Apply(cfg, db, e).0.sessions| && (i < |db.sessions| ==> FlagsTell(cfg, db, i))
    ensures FlagsTell(cfg, Apply(cfg, db, e).0, i)
  {
    if e.TimeIn? {
      TimeInTellsFlags(cfg, db, e.capture, i);
    } else {
      if i >= |db.sessions| { OnlyTimeInOpens(cfg, db, e); assert false; }
      if e.TimeOut? && Apply(cfg, db, e).1.Created? {
        TimeOutTellsFlags(cfg, db, e.capture, e.session, i);
      } else {
        OthersKeepFlags(cfg, db, e, i);
        SameEvidenceTellsFlags(cfg, db, Apply(cfg, db, e).0, i);
      }
    }
  }

  /** In every reachable state a session carries a location's flag exactly when one of
      its photographs was taken there, `unusual_duration` exactly when it was timed out
      after the threshold, and no flag twice. */
  lemma {:induction false} FlagsTellTheSession(cfg: Config, es: seq<Event>, i: Id)
    requires i < |Run(cfg, es).sessions|
    ensures FlagsTell(cfg, Run(cfg, es), i)
  {
    var n := |es| - 1;
    var db := Run(cfg, es[..n]);
    if i < |db.sessions| { FlagsTellTheSession(cfg, es[..n], i); }
    RunKeeps(cfg, es[..n]);
    StepTellsFlags(cfg, db, es[n], i);
  }

  /** Something about the session asks for a second look. */
  ghost predicate Suspicious(cfg: Config, db: Db, i: Id)
    requires i < |db.sessions|
  {
    Seen(db, i, OutsideRadius) || Seen(db, i, LowAccuracy) || Seen(db, i, Unavailable) || TooLong(cfg, db.sessions[i])
  }

  predicate ApprovedFor(db: Db, i: Id, k: nat) {
    k < |db.corrections| && db.corrections[k].attendance == i && db.corrections[k].status == Approved
  }

  ghost predicate WasCorrected(db: Db, i: Id) { exists k: nat :: ApprovedFor(db, i, k) }

  lemma CorrectedIsApproved(db: Db, i: Id)
    requires Inv(db) && i < |db.sessions|
    ensures WasCorrected(db, i) <==> Count(db.adjustments, AdjustmentOf(i)) > 0
  {
    CountNone(db.adjustments, AdjustmentOf(i));
    if k: nat :| ApprovedFor(db, i, k) {
      CountNone(db.adjustments, FromCorrection(k));
      var m :| 0 <= m < |db.adjustments| && FromCorrection(k)(db.adjustments[m]);
      assert AdjustmentOf(i)(db.adjustments[m]);
    }
    if m :| 0 <= m < |db.adjustments| && AdjustmentOf(i)(db.adjustments[m]) {
      var k := db.adjustments[m].correction;
      CountNone(db.adjustments, FromCorrection(k));
      assert FromCorrection(k)(db.adjustments[m]);
      assert ApprovedFor(db, i, k);
    }
  }

  /** The status in every reachable state: corrected after an approval, else open until
      timed out, then flagged exactly when something was suspicious. */
  lemma StatusTellsTheSession(cfg: Config, es: seq<Event>, i: Id)
    requires i < |Run(cfg, es).sessions|
    ensures var db := Run(cfg, es);
            var s := db.sessions[i];
      s.status ==
        if WasCorrected(db, i) then Corrected
        else if s.originalOut.None? then Open
        else if Suspicious(cfg, db, i) then Flagged else Valid
  {
    var db := Run(cfg, es);
    RunKeeps(cfg, es);
    assert SessionOk(db, i);
    CorrectedIsApproved(db, i);
    FlagsTellTheSession(cfg, es, i);
    NoFlags(db.sessions[i].flags);
  }

  lemma NoFlags(flags: seq<Flag>)
    ensures flags == [] <==>
      FlagOutsideRadius !in flags && FlagLowAccuracy !in flags && FlagUnavailableLocation !in flags && FlagUnusualDuration !in flags
  {
    if flags != [] {
      var f := flags[0];
      assert f in flags && (f == FlagOutsideRadius || f == FlagLowAccuracy || f == FlagUnavailableLocation || f == FlagUnusualDuration);
    }
  }

  // ---- corrections ----

  function Filing(e: Event, o: Outcome): seq<Correction> {
    if e.Request? && o.Created?
    then [Correction(e.proposal.session, e.proposal.trainee, e.proposal.kind, e.proposal.proposedIn, e.proposal.proposedOut, Pending)] else []
  }

  /** The proposals accepted, in order, as they were filed. */
  function Filings(cfg: Config, es: seq<Event>): seq<Correction> {
    if es == [] then []
    else
      var n := |es| - 1;
      Filings(cfg, es[..n]) + Filing(es[n], AnswerTo(cfg, es, n))
  }

  function VerdictAfter(status: CorrectionStatus, k: Id, e: Event, o: Outcome): CorrectionStatus {
    if e.Decide? && e.correction == k && o.Done? then (if e.verdict == Approve then Approved else Rejected) else status
  }

  /** The verdict of the accepted decision of correction k; pending while there is none. */
  function VerdictOn(cfg: Config, es: seq<Event>, k: Id): CorrectionStatus {
    if es == [] then Pending
    else
      var n := |es| - 1;
      VerdictAfter(VerdictOn(cfg, es[..n], k), k, es[n], AnswerTo(cfg, es, n))
  }

  lemma StepFiles(cfg: Config, db: Db, e: Event, k: Id)
    requires Inv(db)
    ensures var (after, o) := Apply(cfg, db, e);
      && |after.corrections| == |db.corrections| + |Filing(e, o)|
      && (|db.corrections| <= k < |after.corrections| ==> after.corrections[k] == Filing(e, o)[k - |db.corrections|])
      && (k < |db.corrections| ==> after.corrections[k] == db.corrections[k].(status := VerdictAfter(db.corrections[k].status, k, e, o)))
      && (k >= |db.corrections| ==> VerdictAfter(Pending, k, e, o) == Pending)
  {
    if e.Decide? {
      DecideFiles(db, e.correction, e.verdict, e.now, k);
    } else if e.Request? {
      RequestFiles(db, e.proposal, k);
    }
  }

  lemma RequestFiles(db: Db, p: Proposal, k: Id)
    ensures var (after, o) := ApplyRequest(db, p);
      && |after.corrections| == |db.corrections| + |Filing(Request(p), o)|
      && (|db.corrections| <= k < |after.corrections| ==> after.corrections[k] == Filing(Request(p), o)[k - |db.corrections|])
      && (k < |db.corrections| ==> after.corrections[k] == db.corrections[k])
  {
    RequestAnswers(db, p);
  }

  lemma DecideFiles(db: Db, m: Id, verdict: Verdict, now: Time, k: Id)
    requires Inv(db)
    ensures var (after, o) := ApplyDecide(db, m, verdict, now);
      && |after.corrections| == |db.corrections|
      && (k < |db.corrections| ==>
            after.corrections[k] == db.corrections[k].(status := VerdictAfter(db.corrections[k].status, k, Decide(m, verdict, now), o)))
      && (k >= |db.corrections| ==> VerdictAfter(Pending, k, Decide(m, verdict, now), o) == Pending)
  {
    DecideAnswers(db, m, verdict, now);
    if ApplyDecide(db, m, verdict, now).1.Done? {
      if verdict == Approve { ApproveWrites(db, m, now); } else { RejectWrites(db, m, now); }
    }
  }

  /** Correction k of any run is the k-th accepted proposal, with the verdict it got. */
  lemma {:induction false} CorrectionsAreFilings(cfg: Config, es: seq<Event>, k: Id)
    ensures var db := Run(cfg, es);
      && |db.corrections| == |Filings(cfg, es)|
      && (k < |db.corrections| ==> db.corrections[k] == Filings(cfg, es)[k].(status := VerdictOn(cfg, es, k)))
      && (k >= |db.corrections| ==> VerdictOn(cfg, es, k) == Pending)
  {
    if es != [] {
      var n := |es| - 1;
      CorrectionsAreFilings(cfg, es[..n], k);
      RunKeeps(cfg, es[..n]);
      StepFiles(cfg, Run(cfg, es[..n]), es[n], k);
    }
  }

  /** What was filed has the times its kind needs, and ends after it begins. */
  predicate Coherent(c: Correction) {
    && c.kind != UnknownType
    && (c.kind == MissedTimeOut ==> c.proposedOut.Some?)
    && (c.kind == IncorrectTime || c.kind == FieldAssignment ==> c.proposedIn.Some? || c.proposedOut.Some?)
    && (c.proposedIn.Some? && c.proposedOut.Some? ==> c.proposedOut.value > c.proposedIn.value)
  }

  lemma {:induction false} FilingsAreCoherent(cfg: Config, es: seq<Event>)
    ensures forall k :: 0 <= k < |Filings(cfg, es)| ==> Coherent(Filings(cfg, es)[k])
  {
    if es != [] {
      var n := |es| - 1;
      FilingsAreCoherent(cfg, es[..n]);
      if es[n].Request? { RequestAnswers(Run(cfg, es[..n]), es[n].proposal); }
    }
  }

  /** Every stored correction is coherent, in every reachable state. */
  lemma CorrectionsAreCoherent(cfg: Config, es: seq<Event>, k: Id)
    requires k < |Run(cfg, es).corrections|
    ensures Coherent(Run(cfg, es).corrections[k])
  {
    CorrectionsAreFilings(cfg, es, k);
    FilingsAreCoherent(cfg, es);
  }

  /** A decision is final: whatever follows it, the row keeps the verdict and every later
      decision of it is refused and changes nothing. */
  lemma DecidedForGood(cfg: Config, es: seq<Event>, k: Id, verdict: Verdict, now: Time, more: seq<Event>, again: Verdict, later: Time)
    requires Apply(cfg, Run(cfg, es), Decide(k, verdict, now)).1 == Done && again != UnknownVerdict
    ensures var db := Run(cfg, es + [Decide(k, verdict, now)] + more);
      && k < |db.corrections| && db.corrections[k].status == (if verdict == Approve then Approved else Rejected)
      && Apply(cfg, db, Decide(k, again, later)) == (db, Refused(CorrectionNotPending))
  {
    var first := es + [Decide(k, verdict, now)];
    RunKeeps(cfg, es);
    assert first[..|es|] == es;
    DoneSettles(Run(cfg, es), k, verdict, now);
    RunsGrow(cfg, first, more);
    RunKeeps(cfg, first + more);
    DecideAnswers(Run(cfg, first + more), k, again, later);
  }

  lemma DoneSettles(db: Db, k: Id, verdict: Verdict, now: Time)
    requires Inv(db) && ApplyDecide(db, k, verdict, now).1 == Done
    ensures var after := ApplyDecide(db, k, verdict, now).0;
      k < |after.corrections| && after.corrections[k].status == (if verdict == Approve then Approved else Rejected)
  {
    DecideAnswers(db, k, verdict, now);
    DecideFiles(db, k, verdict, now, k);
  }

  /** A rejection frees its session for another request. */
  lemma RejectionReopens(db: Db, k: Id, now: Time, p: Proposal)
    requires Inv(db) && ApplyDecide(db, k, Reject, now).1 == Done && p.session == db.corrections[k].attendance
    requires db.sessions[p.session].trainee == p.trainee && p.kind != UnknownType && !Untimely(p)
    requires exists m :: 0 <= m < |p.reason| && !IsSpace(p.reason[m])
    ensures ApplyRequest(db, p).1 == Refused(CorrectionAlreadyPending)
    ensures ApplyRequest(ApplyDecide(db, k, Reject, now).0, p).1.Created?
  {
    var after := ApplyDecide(db, k, Reject, now).0;
    DecideAnswers(db, k, Reject, now);
    RejectWrites(db, k, now);
    RequestAnswers(db, p);
    RequestAnswers(after, p);
    assert PendingRow(db, p.session, k);
    assert forall m: nat :: PendingRow(after, p.session, m) ==> PendingRow(db, p.session, m) && m != k;
  }

  // ---- journals and reviews ----

  function TextAfter(text: Option<string>, j: Id, e: Event, o: Outcome): Option<string> {
    if e.SaveDraft? && e.journal == j && o.Done? then Some(e.text)
    else if e.Submit? && e.journal == j && o.Done? then Some(TrimSpace(e.text))
    else text
  }

  /** The text of the last accepted save of journal j, verbatim, or submission, without
      its outer blanks. */
  function LastText(cfg: Config, es: seq<Event>, j: Id): Option<string> {
    if es == [] then None
    else
      var n := |es| - 1;
      TextAfter(LastText(cfg, es[..n], j), j, es[n], AnswerTo(cfg, es, n))
  }

  function PhaseAfter(status: JournalStatus, j: Id, e: Event, o: Outcome): JournalStatus {
    if e.Submit? && e.journal == j && o.Done? then Submitted
    else if e.ReviewJournal? && e.journal == j && o.Done? then e.decision
    else status
  }

  /** Where the accepted submissions and reviews of journal j have brought it. */
  function LastPhase(cfg: Config, es: seq<Event>, j: Id): JournalStatus {
    if es == [] then Draft
    else
      var n := |es| - 1;
      PhaseAfter(LastPhase(cfg, es[..n], j), j, es[n], AnswerTo(cfg, es, n))
  }

  ghost predicate JournalMoves(db: Db, e: Event, after: Db, o: Outcome, j: Id) {
    && |db.journals| <= |after.journals|
    && (j < |db.journals| ==>
          && after.journals[j].narrative == TextAfter(db.journals[j].narrative, j, e, o)
          && after.journals[j].status == PhaseAfter(db.journals[j].status, j, e, o))
    && (j >= |db.journals| ==> TextAfter(None, j, e, o).None? && PhaseAfter(Draft, j, e, o) == Draft)
    && (|db.journals| <= j < |after.journals| ==> after.journals[j].narrative.None? && after.journals[j].status == Draft)
  }

  lemma WritersMoveJournal(db: Db, e: Event, cfg: Config, j: Id)
    requires e.SaveDraft? || e.Submit? || e.ReviewJournal?
    ensures var (after, o) := Apply(cfg, db, e); JournalMoves(db, e, after, o, j)
  {
    match e
    case SaveDraft(k, text) => SaveDraftAnswers(db, k, text);
    case Submit(k, text) => SubmitAnswers(db, k, text);
    case ReviewJournal(k, reviewer, decision, comment) => ReviewAnswers(db, k, reviewer, decision, comment);
  }

  lemma ClosersAddDrafts(cfg: Config, db: Db, e: Event, j: Id)
    requires Inv(db) && !e.SaveDraft? && !e.Submit? && !e.ReviewJournal?
    ensures var (after, o) := Apply(cfg, db, e); JournalMoves(db, e, after, o, j)
  {
    match e
    case TimeOut(c, i) =>
      TimeOutAnswers(cfg, db, c, i);
      if ApplyTimeOut(cfg, db, c, i).1.Created? { TimeOutWrites(cfg, db, c, i); }
    case Decide(k, verdict, now) => DecideAddsDrafts(db, k, verdict, now);
    case _ =>
  }

  lemma DecideAddsDrafts(db: Db, k: Id, verdict: Verdict, now: Time)
    requires Inv(db)
    ensures var after := ApplyDecide(db, k, verdict, now).0;
      && db.journals <= after.journals
      && forall j :: |db.journals| <= j < |after.journals| ==> after.journals[j].narrative.None? && after.journals[j].status == Draft
  {
    DecideAnswers(db, k, verdict, now);
    if ApplyDecide(db, k, verdict, now).1.Done? {
      if verdict == Approve { ApproveWrites(db, k, now); } else { RejectWrites(db, k, now); }
    }
  }

  /** After any run a journal holds the text of its last accepted save or submission, or
      none, and is where its last accepted submission or review put it. */
  lemma {:induction false} JournalTellsItsHistory(cfg: Config, es: seq<Event>, j: Id)
    ensures var db := Run(cfg, es);
      && (j < |db.journals| ==> db.journals[j].narrative == LastText(cfg, es, j) && db.journals[j].status == LastPhase(cfg, es, j))
      && (j >= |db.journals| ==> LastText(cfg, es, j).None? && LastPhase(cfg, es, j) == Draft)
  {
    if es != [] {
      var n := |es| - 1;
      JournalTellsItsHistory(cfg, es[..n], j);
      RunKeeps(cfg, es[..n]);
      var e := es[n];
      if e.SaveDraft? || e.Submit? || e.ReviewJournal? {
        WritersMoveJournal(Run(cfg, es[..n]), e, cfg, j);
      } else {
        ClosersAddDrafts(cfg, Run(cfg, es[..n]), e, j);
      }
    }
  }

  function Given(e: Event, o: Outcome): seq<Review> {
    if e.ReviewJournal? && o.Done? then [Review(e.journal, e.reviewer, e.decision, e.comment)] else []
  }

  function ReviewsGiven(cfg: Config, es: seq<Event>): seq<Review> {
    if es == [] then []
    else
      var n := |es| - 1;
      ReviewsGiven(cfg, es[..n]) + Given(es[n], AnswerTo(cfg, es, n))
  }

  /** The reviews table is the accepted reviews in order, comments included. */
  lemma {:induction false} ReviewsAreGiven(cfg: Config, es: seq<Event>)
    ensures Run(cfg, es).reviews == ReviewsGiven(cfg, es)
  {
    if es != [] {
      var n := |es| - 1;
      ReviewsAreGiven(cfg, es[..n]);
      RunKeeps(cfg, es[..n]);
      StepGivesReview(cfg, Run(cfg, es[..n]), es[n]);
    }
  }

  lemma StepGivesReview(cfg: Config, db: Db, e: Event)
    requires Inv(db)
    ensures var (after, o) := Apply(cfg, db, e); after.reviews == db.reviews + Given(e, o)
  {
    match e
    case ReviewJournal(k, reviewer, decision, comment) => ReviewAnswers(db, k, reviewer, decision, comment);
    case Decide(k, verdict, now) => DecideTouches(db, k, verdict, now);
    case _ =>
  }
}
