/** The trainee dashboard offers one next action. It is computed by its own
    queries, apart from the services that carry the action out. */
module Dashboard {
  import opened Common
  import opened Hours
  import opened Text
  import opened Schema
  import opened Ledger
  import opened LedgerInvariants
  import opened Progress
  import Answers

  datatype Offer = ContactCoordinator | OfferTimeIn | OfferTimeOut | CompleteJournal | ReviseJournal | ViewSummary

  datatype Card = Card(id: Id, required: int, completed: int, remaining: int, percent: int)

  datatype Response = Response(
    assignment: Option<Card>,
    attendance: Option<Id>, status: Option<Status>, timeIn: Option<Time>, timeOut: Option<Time>,
    journal: Option<Id>, journalStatus: Option<JournalStatus>, unread: nat, next: Offer)

  function NextAction(r: Response): Offer {
    if r.assignment.None? then ContactCoordinator
    else if r.attendance.None? then OfferTimeIn
    else if r.status == Some(Open) then OfferTimeOut
    else if r.journalStatus.None? then ViewSummary
    else if r.journalStatus == Some(NeedsRevision) then ReviseJournal
    else if r.journalStatus == Some(Draft) then CompleteJournal
    else ViewSummary
  }

  function SessionOn(db: Db, t: Id, day: Date): (r: Option<Id>)
    ensures r.Some? ==> r.value < |db.sessions| && db.sessions[r.value].trainee == t && db.sessions[r.value].date == day
  {
    var i := Find(db.sessions, OnDay(t, day));
    assert i.Some? ==> OnDay(t, day)(db.sessions[i.value]);
    i
  }

  function JournalOn(db: Db, t: Id, day: Date): (r: Option<Id>)
    ensures r.Some? ==> r.value < |db.journals|
  {
    var i := SessionOn(db, t, day);
    if i.Some? then Find(db.journals, JournalOf(i.value)) else None
  }

  /** The offer as a function of the tables. */
  function OfferFor(db: Db, t: Id, day: Date): Offer {
    var i, j := SessionOn(db, t, day), JournalOn(db, t, day);
    if ActiveSite(db, t, day).None? then ContactCoordinator
    else if i.None? then OfferTimeIn
    else if db.sessions[i.value].status == Open then OfferTimeOut
    else if j.None? then ViewSummary
    else if db.journals[j.value].status == NeedsRevision then ReviseJournal
    else if db.journals[j.value].status == Draft then CompleteJournal
    else ViewSummary
  }

  /** The card of an assignment that runs that day, with its required, completed and
      remaining minutes. */
  predicate CardTells(db: Db, t: Id, day: Date, a: Card) {
    && a.id < |db.assignments| && Covers(t, day)(db.assignments[a.id])
    && a.required == db.assignments[a.id].required && a.completed == CompletedMinutes(db, a.id)
    && a.remaining == (if a.completed < a.required then a.required - a.completed else 0)
    && a.percent == ProgressPercent(a.completed, a.required)
    && 0 <= a.percent <= 100 && (a.percent == 100 <==> a.remaining == 0) && (a.remaining == 0 <==> Reached(db, t, a.id))
  }

  /** The day's session and journal as the response shows them. */
  predicate RowsTell(db: Db, t: Id, day: Date, r: Response) {
    && r.attendance == SessionOn(db, t, day) && r.journal == JournalOn(db, t, day)
    && (r.attendance.None? ==> r.status.None? && r.timeIn.None? && r.timeOut.None?)
    && (r.attendance.Some? ==>
          var s := db.sessions[r.attendance.value];
          r.status == Some(s.status) && r.timeIn == Some(s.effectiveIn) && r.timeOut == s.effectiveOut)
    && r.journalStatus == (if r.journal.Some? then Some(db.journals[r.journal.value].status) else None)
  }

  /** The assignment's card, from the assignment query and the sum of credits. */
  method FindCard(cfg: Config, db: Db, t: Id, now: Time) returns (card: Option<Card>)
    requires Inv(db)
    ensures card.None? <==> ActiveSite(db, t, cfg.localDate(now)).None?
    ensures card.Some? ==> CardTells(db, t, cfg.localDate(now), card.value)
  {
    card := None;
    var site := ActiveSite(db, t, cfg.localDate(now));
    if site.Some? {
      var a := site.value;
      SiteCardHolds(db, t, cfg.localDate(now), a);
      var required, completed := db.assignments[a].required, Sum(db.sessions, ByCredited(a));
      card := Some(Card(a, required, completed, Max(required - completed, 0), ProgressPercent(completed, required)));
    }
  }

  /** The dashboard request, filling its answer query by query. */
  method Get(cfg: Config, db: Db, t: Id, now: Time, unread: nat) returns (r: Response)
    requires Inv(db)
    ensures r.next == OfferFor(db, t, cfg.localDate(now))
    ensures r.assignment.None? <==> ActiveSite(db, t, cfg.localDate(now)).None?
    ensures r.assignment.Some? ==> CardTells(db, t, cfg.localDate(now), r.assignment.value)
    ensures RowsTell(db, t, cfg.localDate(now), r)
    ensures r.journal.Some? <==> r.timeOut.Some?
    ensures r.unread == unread
  {
    var today := cfg.localDate(now);
    r := Response(None, None, None, None, None, None, None, 0, ViewSummary);
    var card := FindCard(cfg, db, t, now);
    r := r.(assignment := card);
    var i := SessionOn(db, t, today);
    if i.Some? {
      var s := db.sessions[i.value];
      r := r.(attendance := i, status := Some(s.status), timeIn := Some(s.effectiveIn), timeOut := s.effectiveOut);
      var j := Find(db.journals, JournalOf(i.value));
      if j.Some? {
        r := r.(journal := j, journalStatus := Some(db.journals[j.value].status));
      }
      JournalIffClosed(db, i.value);
    }
    r := r.(unread := unread);
    r := r.(next := NextAction(r));
  }

  lemma SiteCardHolds(db: Db, t: Id, today: Date, a: Id)
    requires Inv(db) && ActiveSite(db, t, today) == Some(a)
    ensures a < |db.assignments| && Covers(t, today)(db.assignments[a]) && Sum(db.sessions, ByCredited(a)) == CompletedMinutes(db, a)
    ensures var required, completed := db.assignments[a].required, CompletedMinutes(db, a);
      && 0 <= ProgressPercent(completed, required) <= 100 && 0 <= Max(required - completed, 0) <= required
      && (ProgressPercent(completed, required) == 100 <==> Max(required - completed, 0) == 0)
      && (Max(required - completed, 0) == 0 <==> Reached(db, t, a))
  {
    SumsAgree(db, a);
    ProgressMonotoneAndExact(CompletedMinutes(db, a), CompletedMinutes(db, a), db.assignments[a].required);
  }

  lemma JournalIffClosed(db: Db, i: Id)
    requires Inv(db) && i < |db.sessions|
    ensures Find(db.journals, JournalOf(i)).Some? <==> db.sessions[i].effectiveOut.Some?
  {
    assert SessionOk(db, i);
    CountNone(db.journals, JournalOf(i));
  }

  lemma OpenHasNoTimeOut(db: Db, i: Id)
    requires Inv(db) && i < |db.sessions|
    ensures db.sessions[i].status == Open ==>
      && db.sessions[i].effectiveOut.None? && db.sessions[i].effectiveIn == db.sessions[i].originalIn
      && Find(db.evidence, EvidenceOf(i, TimeOutAction)).None?
  {
    assert SessionOk(db, i);
    CountNone(db.evidence, EvidenceOf(i, TimeOutAction));
    if db.sessions[i].status == Open {
      OverlayUntouched(i, Originals(db.sessions[i]), db.adjustments, db.corrections);
    }
  }

  // ---- which offer is made ----

  lemma {:induction false} CountTwice<T>(s: seq<T>, p: T -> bool, i: nat, j: nat)
    requires i < j < |s| && p(s[i]) && p(s[j])
    ensures Count(s, p) >= 2
  {
    var n := |s| - 1;
    if j < n {
      CountTwice(s[..n], p, i, j);
    } else {
      CountNone(s[..n], p);
      assert s[..n][i] == s[i];
    }
  }

  /** Journal j is that of session i and has this status. */
  predicate JournalIs(db: Db, i: Id, status: JournalStatus, j: nat) {
    j < |db.journals| && db.journals[j].attendance == i && db.journals[j].status == status
  }

  ghost predicate HasJournal(db: Db, i: Id, status: JournalStatus) { exists j: nat :: JournalIs(db, i, status, j) }

  lemma JournalFound(db: Db, i: Id, status: JournalStatus)
    requires Inv(db) && i < |db.sessions|
    ensures var j := Find(db.journals, JournalOf(i));
      HasJournal(db, i, status) <==> j.Some? && db.journals[j.value].status == status
  {
    assert SessionOk(db, i);
    var j := Find(db.journals, JournalOf(i));
    if j.Some? {
      assert JournalOf(i)(db.journals[j.value]);
      if db.journals[j.value].status == status { assert JournalIs(db, i, status, j.value); }
    }
    if m: nat :| JournalIs(db, i, status, m) {
      assert JournalOf(i)(db.journals[m]);
      if j.value < m { CountTwice(db.journals, JournalOf(i), j.value, m); }
    }
  }

  /** The offer, by the rows: nothing to do without an assignment that runs that day, then
      Time In, Time Out while the day's session is open, then its journal as its status
      asks, and the summary otherwise. */
  lemma OfferExactly(db: Db, t: Id, day: Date, i: Id)
    requires Inv(db)
    ensures !Answers.Assigned(db, t, day) <==> OfferFor(db, t, day) == ContactCoordinator
    ensures Answers.Assigned(db, t, day) && !Answers.Attended(db, t, day) <==> OfferFor(db, t, day) == OfferTimeIn
    ensures Answers.Assigned(db, t, day) && Answers.SessionOfDay(db, t, day, i) ==>
      && (OfferFor(db, t, day) == OfferTimeOut <==> db.sessions[i].status == Open)
      && (OfferFor(db, t, day) == ReviseJournal <==> db.sessions[i].status != Open && HasJournal(db, i, NeedsRevision))
      && (OfferFor(db, t, day) == CompleteJournal <==> db.sessions[i].status != Open && HasJournal(db, i, Draft))
      && (OfferFor(db, t, day) == ViewSummary <==>
            db.sessions[i].status != Open && !HasJournal(db, i, NeedsRevision) && !HasJournal(db, i, Draft))
  {
    Answers.SiteIsOnDuty(db, t, day);
    Answers.DayIsAttended(db, t, day);
    if Answers.SessionOfDay(db, t, day, i) {
      var found := Find(db.sessions, OnDay(t, day)).value;
      assert OnDay(t, day)(db.sessions[found]) && found == i;
      JournalFound(db, i, NeedsRevision);
      JournalFound(db, i, Draft);
    }
  }

  // ---- every offer is accepted, and nothing else is ----

  predicate WellFormed(db: Db, t: Id, c: Capture) {
    c.trainee == t && !MissingReason(c) && Find(db.evidence, WithAction(t, c.clientAction)).None?
  }

  /** While an assignment covers the day, Time In, Time Out and Submit accept a
      well-formed request exactly when the dashboard offers them. */
  lemma AcceptedExactlyWhenOffered(cfg: Config, db: Db, t: Id, day: Date, c: Capture, text: string)
    requires Inv(db) && ActiveSite(db, t, day).Some?
    requires WellFormed(db, t, c) && LongEnough(text)
    ensures cfg.localDate(c.now) == day ==>
      (Committed(ApplyTimeIn(cfg, db, c).1) <==> OfferFor(db, t, day) == OfferTimeIn)
    ensures var i := SessionOn(db, t, day);
      i.Some? && c.now > db.sessions[i.value].effectiveIn ==>
        (Committed(ApplyTimeOut(cfg, db, c, i.value).1) <==> OfferFor(db, t, day) == OfferTimeOut)
    ensures var j := JournalOn(db, t, day);
      j.Some? ==>
        (Committed(ApplySubmit(db, j.value, text).1) <==> OfferFor(db, t, day) in {CompleteJournal, ReviseJournal})
    ensures OfferFor(db, t, day) == OfferTimeOut ==> SessionOn(db, t, day).Some?
    ensures OfferFor(db, t, day) in {CompleteJournal, ReviseJournal} ==> JournalOn(db, t, day).Some?
  {
    var i := SessionOn(db, t, day);
    if i.Some? {
      JournalIffClosed(db, i.value);
      OpenHasNoTimeOut(db, i.value);
    }
  }

  /** A service accepts a well-formed request of the trainee about the day. */
  predicate SomethingAccepted(cfg: Config, db: Db, t: Id, day: Date, c: Capture, text: string) {
    var i, j := SessionOn(db, t, day), JournalOn(db, t, day);
    || (cfg.localDate(c.now) == day && Committed(ApplyTimeIn(cfg, db, c).1))
    || (i.Some? && Committed(ApplyTimeOut(cfg, db, c, i.value).1))
    || (j.Some? && Committed(ApplySubmit(db, j.value, text).1))
  }

  /** On a day no assignment covers, the dashboard only sends the trainee to the
      coordinator. Time In is then refused, but an open session can be timed out and
      an editable journal submitted: nothing is accepted unoffered exactly when the
      day's session is not open and its journal is absent or not editable. */
  lemma UncoveredDayExactly(cfg: Config, db: Db, t: Id, day: Date, c: Capture, text: string)
    requires Inv(db) && ActiveSite(db, t, day).None?
    requires WellFormed(db, t, c) && LongEnough(text)
    ensures OfferFor(db, t, day) == ContactCoordinator
    ensures cfg.localDate(c.now) == day ==> ApplyTimeIn(cfg, db, c).1 == Refused(NoActiveAssignment)
    ensures var i, j := SessionOn(db, t, day), JournalOn(db, t, day);
      (i.Some? ==> c.now > db.sessions[i.value].effectiveIn) ==>
        (!SomethingAccepted(cfg, db, t, day, c, text) <==>
           && (i.Some? ==> db.sessions[i.value].status != Open)
           && (j.Some? ==> !Editable(db.journals[j.value].status)))
  {
    var i := SessionOn(db, t, day);
    if i.Some? {
      OpenHasNoTimeOut(db, i.value);
    }
  }

  // ---- following the offers ----

  function Rank(offer: Offer): nat {
    match offer
    case OfferTimeIn => 3
    case OfferTimeOut => 2
    case CompleteJournal => 1
    case ReviseJournal => 1
    case _ => 0
  }

  /** The event is the trainee doing what the dashboard offers. */
  predicate Follows(cfg: Config, db: Db, t: Id, day: Date, e: Event) {
    match OfferFor(db, t, day)
    case OfferTimeIn => e.TimeIn? && e.capture.trainee == t && cfg.localDate(e.capture.now) == day
    case OfferTimeOut => e.TimeOut? && e.capture.trainee == t && Some(e.session) == SessionOn(db, t, day)
    case CompleteJournal => e.Submit? && Some(e.journal) == JournalOn(db, t, day)
    case ReviseJournal => e.Submit? && Some(e.journal) == JournalOn(db, t, day)
    case _ => false
  }

  predicate ByStaff(e: Event) { e.Decide? || e.ReviewJournal? || e.EditAssignments? }

  /** Whatever trainees do, in any order, the rank of a trainee's offer goes down
      by one when that trainee follows it successfully and stays put otherwise. */
  lemma EachStepDescends(cfg: Config, db: Db, t: Id, day: Date, e: Event)
    requires Inv(db) && ActiveSite(db, t, day).Some? && !ByStaff(e)
    ensures var r := Apply(cfg, db, e);
      && ActiveSite(r.0, t, day).Some?
      && Rank(OfferFor(r.0, t, day)) == Rank(OfferFor(db, t, day)) - (if Follows(cfg, db, t, day, e) && Committed(r.1) then 1 else 0)
  {
    if e.TimeIn? {
      TimeInDescends(cfg, db, t, day, e.capture);
    } else if e.TimeOut? {
      TimeOutDescends(cfg, db, t, day, e.capture, e.session);
    } else if e.Request? {
      RequestDescends(cfg, db, t, day, e.proposal);
    } else if e.SaveDraft? {
      SaveDraftDescends(cfg, db, t, day, e.journal, e.text);
    } else {
      SubmitDescends(cfg, db, t, day, e.journal, e.text);
    }
  }

  lemma RequestDescends(cfg: Config, db: Db, t: Id, day: Date, p: Proposal)
    ensures var after := ApplyRequest(db, p).0;
      after.assignments == db.assignments && OfferFor(after, t, day) == OfferFor(db, t, day)
    ensures !Follows(cfg, db, t, day, Request(p))
  {
    var after := ApplyRequest(db, p).0;
    assert after.sessions == db.sessions && after.journals == db.journals;
  }

  lemma SaveDraftDescends(cfg: Config, db: Db, t: Id, day: Date, k: Id, text: string)
    requires Inv(db) && ActiveSite(db, t, day).Some?
    ensures var r := ApplySaveDraft(db, k, text);
      r.0.assignments == db.assignments && Rank(OfferFor(r.0, t, day)) == Rank(OfferFor(db, t, day))
    ensures !Follows(cfg, db, t, day, SaveDraft(k, text))
  {
    if k < |db.journals| {
      JournalStepDescends(db, t, day, k, SaveDraftRow(db.journals[k], text));
    }
  }

  lemma SubmitDescends(cfg: Config, db: Db, t: Id, day: Date, k: Id, text: string)
    requires Inv(db) && ActiveSite(db, t, day).Some?
    ensures var r := ApplySubmit(db, k, text);
      && r.0.assignments == db.assignments
      && Rank(OfferFor(r.0, t, day)) == Rank(OfferFor(db, t, day)) -
           (if Follows(cfg, db, t, day, Submit(k, text)) && Committed(r.1) then 1 else 0)
  {
    var r := ApplySubmit(db, k, text);
    if Committed(r.1) {
      JournalStepDescends(db, t, day, k, r.0.journals[k]);
    }
  }

  lemma TimeInDescends(cfg: Config, db: Db, t: Id, day: Date, c: Capture)
    requires Inv(db) && ActiveSite(db, t, day).Some?
    ensures var r := ApplyTimeIn(cfg, db, c);
      && r.0.assignments == db.assignments
      && Rank(OfferFor(r.0, t, day)) == Rank(OfferFor(db, t, day)) - (if Follows(cfg, db, t, day, TimeIn(c)) && Committed(r.1) then 1 else 0)
  {
    var r := ApplyTimeIn(cfg, db, c);
    var today := cfg.localDate(c.now);
    var site := ActiveSite(db, c.trainee, today);
    if Committed(r.1) {
      assert r == InsertTimeIn(db, c, site.value, today);
      InsertDescends(db, t, day, c, site.value, today);
    }
  }

  lemma InsertDescends(db: Db, t: Id, day: Date, c: Capture, site: Id, today: Date)
    requires ActiveSite(db, t, day).Some? && InsertTimeIn(db, c, site, today).1.Created?
    ensures var after := InsertTimeIn(db, c, site, today).0;
      && after.assignments == db.assignments
      && (c.trainee == t && today == day ==> OfferFor(db, t, day) == OfferTimeIn && OfferFor(after, t, day) == OfferTimeOut)
      && (c.trainee != t || today != day ==> OfferFor(after, t, day) == OfferFor(db, t, day))
  {
    var after := InsertTimeIn(db, c, site, today).0;
    OpenDescends(db, t, day, after.sessions[|db.sessions|], after);
  }

  lemma OpenDescends(db: Db, t: Id, day: Date, s: Session, after: Db)
    requires ActiveSite(db, t, day).Some? && s.status == Open
    requires after.assignments == db.assignments && after.sessions == db.sessions + [s] && after.journals == db.journals
    ensures s.trainee == t && s.date == day && SessionOn(db, t, day).None? ==>
      OfferFor(db, t, day) == OfferTimeIn && OfferFor(after, t, day) == OfferTimeOut
    ensures s.trainee != t || s.date != day ==> OfferFor(after, t, day) == OfferFor(db, t, day)
  {
    FindAppend(db.sessions, s, OnDay(t, day));
  }

  lemma TimeOutDescends(cfg: Config, db: Db, t: Id, day: Date, c: Capture, i: Id)
    requires Inv(db) && ActiveSite(db, t, day).Some?
    ensures var r := ApplyTimeOut(cfg, db, c, i);
      && r.0.assignments == db.assignments
      && Rank(OfferFor(r.0, t, day)) == Rank(OfferFor(db, t, day)) - (if Follows(cfg, db, t, day, TimeOut(c, i)) && Committed(r.1) then 1 else 0)
  {
    var r := ApplyTimeOut(cfg, db, c, i);
    if Committed(r.1) {
      CommittedTimeOut(cfg, db, c, i);
      JournalIffClosed(db, i);
      OpenHasNoTimeOut(db, i);
      CloseSessionDescends(cfg, db, t, day, c, i, RuleOf(db, i));
      FollowsTimeOut(cfg, db, t, day, c, i);
    }
  }

  lemma CommittedTimeOut(cfg: Config, db: Db, c: Capture, i: Id)
    requires Committed(ApplyTimeOut(cfg, db, c, i).1)
    ensures i < |db.sessions| && db.sessions[i].status == Open && db.sessions[i].trainee == c.trainee
    ensures ApplyTimeOut(cfg, db, c, i).0 ==
      CloseSession(cfg, db, c, i, db.sessions[i].effectiveIn, db.sessions[i].flags, RuleOf(db, i))
  {
  }

  lemma FollowsTimeOut(cfg: Config, db: Db, t: Id, day: Date, c: Capture, i: Id)
    requires SessionOn(db, t, day) == Some(i) ==> c.trainee == t && OfferFor(db, t, day) == OfferTimeOut
    ensures Follows(cfg, db, t, day, TimeOut(c, i)) <==> SessionOn(db, t, day) == Some(i)
  {
  }

  lemma CloseSessionDescends(cfg: Config, db: Db, t: Id, day: Date, c: Capture, i: Id, rule: BreakRule)
    requires ActiveSite(db, t, day).Some? && i < |db.sessions| && db.sessions[i].status == Open
    requires Find(db.journals, JournalOf(i)).None?
    ensures var after := CloseSession(cfg, db, c, i, db.sessions[i].effectiveIn, db.sessions[i].flags, rule);
      && after.assignments == db.assignments
      && Rank(OfferFor(after, t, day)) == Rank(OfferFor(db, t, day)) - (if SessionOn(db, t, day) == Some(i) then 1 else 0)
      && (SessionOn(db, t, day) == Some(i) ==> OfferFor(db, t, day) == OfferTimeOut)
  {
    var after := CloseSession(cfg, db, c, i, db.sessions[i].effectiveIn, db.sessions[i].flags, rule);
    CloseDescends(db, t, day, i, after.sessions[i], c.trainee, after);
  }

  lemma CloseDescends(db: Db, t: Id, day: Date, i: Id, s: Session, owner: Id, after: Db)
    requires ActiveSite(db, t, day).Some? && i < |db.sessions|
    requires db.sessions[i].status == Open && s.status != Open
    requires s.trainee == db.sessions[i].trainee && s.date == db.sessions[i].date
    requires Find(db.journals, JournalOf(i)).None?
    requires after.assignments == db.assignments && after.sessions == db.sessions[i := s]
    requires after.journals == db.journals + [Journal(i, owner, None, Draft, 0)]
    ensures Rank(OfferFor(after, t, day)) == Rank(OfferFor(db, t, day)) - (if SessionOn(db, t, day) == Some(i) then 1 else 0)
  {
    FindUpdate(db.sessions, i, s, OnDay(t, day));
    var draft := Journal(i, owner, None, Draft, 0);
    var today := SessionOn(db, t, day);
    if today.Some? {
      FindAppend(db.journals, draft, JournalOf(today.value));
    }
  }

  lemma JournalStepDescends(db: Db, t: Id, day: Date, k: Id, j: Journal)
    requires Inv(db) && ActiveSite(db, t, day).Some? && k < |db.journals|
    requires j.attendance == db.journals[k].attendance
    requires j.status == db.journals[k].status || (Editable(db.journals[k].status) && j.status == Submitted)
    ensures var after := db.(journals := db.journals[k := j]);
            Rank(OfferFor(after, t, day)) == Rank(OfferFor(db, t, day)) -
              (if OfferFor(db, t, day) in {CompleteJournal, ReviseJournal} && JournalOn(db, t, day) == Some(k)
                  && j.status != db.journals[k].status then 1 else 0)
  {
    var i := SessionOn(db, t, day);
    if i.Some? {
      FindUpdate(db.journals, k, j, JournalOf(i.value));
    }
  }

  /** How many steps of a run followed the trainee's offer and committed. */
  function Followed(cfg: Config, db: Db, t: Id, day: Date, es: seq<Event>): nat
    decreases |es|
  {
    if es == [] then 0
    else
      var r := Apply(cfg, db, es[0]);
      (if Follows(cfg, db, t, day, es[0]) && Committed(r.1) then 1 else 0) + Followed(cfg, r.0, t, day, es[1..])
  }

  function After(cfg: Config, db: Db, es: seq<Event>): Db
    decreases |es|
  {
    if es == [] then db else After(cfg, Apply(cfg, db, es[0]).0, es[1..])
  }

  lemma {:induction false} RunDescends(cfg: Config, db: Db, t: Id, day: Date, es: seq<Event>)
    requires Inv(db) && ActiveSite(db, t, day).Some? && forall k :: 0 <= k < |es| ==> !ByStaff(es[k])
    ensures ActiveSite(After(cfg, db, es), t, day).Some?
    ensures Rank(OfferFor(After(cfg, db, es), t, day)) == Rank(OfferFor(db, t, day)) - Followed(cfg, db, t, day, es)
    decreases |es|
  {
    if es != [] {
      EachStepDescends(cfg, db, t, day, es[0]);
      StepKeeps(cfg, db, es[0]);
      RunDescends(cfg, Apply(cfg, db, es[0]).0, t, day, es[1..]);
    }
  }

  /** From an offered Time In, with any other trainee traffic interleaved but no
      staff step, the summary is reached by exactly three followed offers and no
      run contains a fourth. */
  lemma SummaryInThreeSteps(cfg: Config, es: seq<Event>, t: Id, day: Date, more: seq<Event>)
    requires OfferFor(Run(cfg, es), t, day) == OfferTimeIn
    requires forall k :: 0 <= k < |more| ==> !ByStaff(more[k])
    ensures var n := Followed(cfg, Run(cfg, es), t, day, more);
            n <= 3 && (n == 3 <==> OfferFor(After(cfg, Run(cfg, es), more), t, day) == ViewSummary)
  {
    RunKeeps(cfg, es);
    RunDescends(cfg, Run(cfg, es), t, day, more);
  }

  // ---- the three offers exist ----

  /** An action id the trainee has not used. */
  function Unused(evidence: seq<Evidence>): (id: Id)
    ensures forall k :: 0 <= k < |evidence| ==> evidence[k].clientAction < id
  {
    if evidence == [] then 0
    else
      var n := |evidence| - 1;
      var before := Unused(evidence[..n]);
      assert forall k :: 0 <= k < n ==> evidence[..n][k] == evidence[k];
      if evidence[n].clientAction < before then before else evidence[n].clientAction + 1
  }

  function Photo(db: Db, t: Id, now: Time): Capture { Capture(t, Unused(db.evidence), Verified, false, 0, 1, now) }

  lemma PhotoIsWellFormed(db: Db, t: Id, now: Time)
    ensures WellFormed(db, t, Photo(db, t, now))
  {
    var c := Photo(db, t, now);
    forall k | 0 <= k < |db.evidence| ensures !WithAction(t, c.clientAction)(db.evidence[k]) {}
  }

  function Letters(n: nat): string { if n == 0 then "" else Letters(n - 1) + "a" }

  lemma {:induction false} LettersMeasure(n: nat)
    ensures |Letters(n)| == n && ByteLength(Letters(n)) == n && forall k :: 0 <= k < n ==> Letters(n)[k] == 'a'
  {
    if n > 0 {
      LettersMeasure(n - 1);
      assert Letters(n)[..n - 1] == Letters(n - 1);
    }
  }

  lemma LettersAreLongEnough(n: nat)
    requires n == NARRATIVE_MIN_BYTES
    ensures LongEnough(Letters(n))
  {
    LettersMeasure(n);
    assert TrimLeft(Letters(n)) == Letters(n) && TrimRight(Letters(n)) == Letters(n);
  }

  /** The trainee does what is offered. */
  function NextStep(db: Db, t: Id, day: Date, now: Time): Event
    requires Rank(OfferFor(db, t, day)) > 0
  {
    if OfferFor(db, t, day) == OfferTimeIn then TimeIn(Photo(db, t, now))
    else if OfferFor(db, t, day) == OfferTimeOut then TimeOut(Photo(db, t, now), SessionOn(db, t, day).value)
    else Submit(JournalOn(db, t, day).value, Letters(NARRATIVE_MIN_BYTES))
  }

  /** A time at which the offer can be taken up: on the day for a Time In, after the
      time-in for a Time Out. */
  predicate Timely(cfg: Config, db: Db, t: Id, day: Date, now: Time) {
    var i := SessionOn(db, t, day);
    && (OfferFor(db, t, day) == OfferTimeIn ==> cfg.localDate(now) == day)
    && (OfferFor(db, t, day) == OfferTimeOut && i.Some? ==> now > db.sessions[i.value].effectiveIn)
  }

  lemma NextStepIsAccepted(cfg: Config, db: Db, t: Id, day: Date, now: Time)
    requires Inv(db) && Rank(OfferFor(db, t, day)) > 0 && Timely(cfg, db, t, day, now)
    ensures var e := NextStep(db, t, day, now);
      && !ByStaff(e) && Follows(cfg, db, t, day, e) && Committed(Apply(cfg, db, e).1)
      && Inv(Apply(cfg, db, e).0) && ActiveSite(Apply(cfg, db, e).0, t, day).Some?
      && Rank(OfferFor(Apply(cfg, db, e).0, t, day)) == Rank(OfferFor(db, t, day)) - 1
  {
    var e := NextStep(db, t, day, now);
    NextStepFollows(cfg, db, t, day, now);
    NextStepCommits(cfg, db, t, day, now);
    EachStepDescends(cfg, db, t, day, e);
    StepKeeps(cfg, db, e);
  }

  lemma NextStepCommits(cfg: Config, db: Db, t: Id, day: Date, now: Time)
    requires Inv(db) && Rank(OfferFor(db, t, day)) > 0 && Timely(cfg, db, t, day, now)
    ensures Committed(Apply(cfg, db, NextStep(db, t, day, now)).1)
  {
    var e := NextStep(db, t, day, now);
    if OfferFor(db, t, day) == OfferTimeIn {
      TimeInAccepted(cfg, db, t, day, now, e);
    } else if OfferFor(db, t, day) == OfferTimeOut {
      TimeOutAccepted(cfg, db, t, day, now, e);
    } else {
      SubmitAccepted(cfg, db, t, day, e);
    }
  }

  lemma TimeInAccepted(cfg: Config, db: Db, t: Id, day: Date, now: Time, e: Event)
    requires Inv(db) && OfferFor(db, t, day) == OfferTimeIn && cfg.localDate(now) == day && e == TimeIn(Photo(db, t, now))
    ensures Committed(Apply(cfg, db, e).1)
  {
    TimeInCommits(cfg, db, t, day, now);
  }

  lemma TimeOutAccepted(cfg: Config, db: Db, t: Id, day: Date, now: Time, e: Event)
    requires Inv(db) && OfferFor(db, t, day) == OfferTimeOut && Timely(cfg, db, t, day, now)
    requires e == TimeOut(Photo(db, t, now), SessionOn(db, t, day).value)
    ensures Committed(Apply(cfg, db, e).1)
  {
    TimeOutCommits(cfg, db, t, day, now);
  }

  lemma SubmitAccepted(cfg: Config, db: Db, t: Id, day: Date, e: Event)
    requires Inv(db) && OfferFor(db, t, day) in {CompleteJournal, ReviseJournal}
    requires e == Submit(JournalOn(db, t, day).value, Letters(NARRATIVE_MIN_BYTES))
    ensures Committed(Apply(cfg, db, e).1)
  {
    SubmitCommits(cfg, db, t, day);
  }

  lemma NextStepFollows(cfg: Config, db: Db, t: Id, day: Date, now: Time)
    requires Rank(OfferFor(db, t, day)) > 0 && Timely(cfg, db, t, day, now)
    ensures !ByStaff(NextStep(db, t, day, now)) && Follows(cfg, db, t, day, NextStep(db, t, day, now))
  {
  }

  lemma TimeInCommits(cfg: Config, db: Db, t: Id, day: Date, now: Time)
    requires Inv(db) && OfferFor(db, t, day) == OfferTimeIn && cfg.localDate(now) == day
    ensures Committed(ApplyTimeIn(cfg, db, Photo(db, t, now)).1)
  {
    PhotoIsWellFormed(db, t, now);
    LettersAreLongEnough(NARRATIVE_MIN_BYTES);
    AcceptedExactlyWhenOffered(cfg, db, t, day, Photo(db, t, now), Letters(NARRATIVE_MIN_BYTES));
  }

  lemma TimeOutCommits(cfg: Config, db: Db, t: Id, day: Date, now: Time)
    requires Inv(db) && OfferFor(db, t, day) == OfferTimeOut && Timely(cfg, db, t, day, now)
    ensures Committed(ApplyTimeOut(cfg, db, Photo(db, t, now), SessionOn(db, t, day).value).1)
  {
    PhotoIsWellFormed(db, t, now);
    LettersAreLongEnough(NARRATIVE_MIN_BYTES);
    AcceptedExactlyWhenOffered(cfg, db, t, day, Photo(db, t, now), Letters(NARRATIVE_MIN_BYTES));
  }

  lemma SubmitCommits(cfg: Config, db: Db, t: Id, day: Date)
    requires Inv(db) && OfferFor(db, t, day) in {CompleteJournal, ReviseJournal}
    ensures Committed(ApplySubmit(db, JournalOn(db, t, day).value, Letters(NARRATIVE_MIN_BYTES)).1)
  {
    LettersAreLongEnough(NARRATIVE_MIN_BYTES);
  }

  lemma OpensToday(cfg: Config, db: Db, c: Capture)
    requires Committed(ApplyTimeIn(cfg, db, c).1)
    ensures var after := ApplyTimeIn(cfg, db, c).0;
            var i := SessionOn(after, c.trainee, cfg.localDate(c.now));
            i.Some? && after.sessions[i.value].effectiveIn == c.now
  {
    var after := ApplyTimeIn(cfg, db, c).0;
    FindAppend(db.sessions, after.sessions[|db.sessions|], OnDay(c.trainee, cfg.localDate(c.now)));
  }

  lemma OneFollowed(cfg: Config, db: Db, t: Id, day: Date, e: Event, rest: seq<Event>)
    ensures After(cfg, db, [e] + rest) == After(cfg, Apply(cfg, db, e).0, rest)
    ensures Followed(cfg, db, t, day, [e] + rest) ==
      (if Follows(cfg, db, t, day, e) && Committed(Apply(cfg, db, e).1) then 1 else 0) + Followed(cfg, Apply(cfg, db, e).0, t, day, rest)
  {
    assert ([e] + rest)[1..] == rest;
  }

  /** The run is as long as the offer's rank (three from an offered Time In), follows
      the offer at every step, and ends at the summary. */
  ghost predicate Finishes(cfg: Config, db: Db, t: Id, day: Date, es: seq<Event>) {
    && |es| == Rank(OfferFor(db, t, day)) == Followed(cfg, db, t, day, es)
    && OfferFor(After(cfg, db, es), t, day) == ViewSummary
  }

  lemma StepThenFinish(cfg: Config, db: Db, t: Id, day: Date, now: Time, after: Db, rest: seq<Event>)
    requires Inv(db) && Rank(OfferFor(db, t, day)) > 0 && Timely(cfg, db, t, day, now)
    requires after == Apply(cfg, db, NextStep(db, t, day, now)).0 && Finishes(cfg, after, t, day, rest)
    ensures exists es :: Finishes(cfg, db, t, day, es)
  {
    NextStepIsAccepted(cfg, db, t, day, now);
    OneFollowed(cfg, db, t, day, NextStep(db, t, day, now), rest);
    assert Finishes(cfg, db, t, day, [NextStep(db, t, day, now)] + rest);
  }

  /** Once timed in, a Time Out and a Submit at a later time reach the summary. */
  lemma {:induction false} RestIsReached(cfg: Config, db: Db, t: Id, day: Date, later: Time)
    requires Inv(db) && ActiveSite(db, t, day).Some? && OfferFor(db, t, day) != OfferTimeIn && Timely(cfg, db, t, day, later)
    ensures exists es :: Finishes(cfg, db, t, day, es)
    decreases Rank(OfferFor(db, t, day))
  {
    if Rank(OfferFor(db, t, day)) == 0 {
      assert Finishes(cfg, db, t, day, []);
    } else {
      NextStepIsAccepted(cfg, db, t, day, later);
      var after := Apply(cfg, db, NextStep(db, t, day, later)).0;
      RestIsReached(cfg, after, t, day, later);
      var rest :| Finishes(cfg, after, t, day, rest);
      StepThenFinish(cfg, db, t, day, later, after, rest);
    }
  }

  /** From any offered Time In, a Time In on the day, a Time Out later and a Submit
      follow the offers, are accepted, and end at the summary. */
  lemma SummaryIsReached(cfg: Config, db: Db, t: Id, day: Date, now: Time, later: Time)
    requires Inv(db) && OfferFor(db, t, day) == OfferTimeIn && cfg.localDate(now) == day && now < later
    ensures exists es :: Finishes(cfg, db, t, day, es)
  {
    FirstStep(cfg, db, t, day, now, later);
    FinishAfter(cfg, db, t, day, now, later, Apply(cfg, db, NextStep(db, t, day, now)).0);
  }

  lemma FinishAfter(cfg: Config, db: Db, t: Id, day: Date, now: Time, later: Time, after: Db)
    requires Inv(db) && OfferFor(db, t, day) == OfferTimeIn && Timely(cfg, db, t, day, now)
    requires after == Apply(cfg, db, NextStep(db, t, day, now)).0
    requires Inv(after) && ActiveSite(after, t, day).Some? && OfferFor(after, t, day) != OfferTimeIn && Timely(cfg, after, t, day, later)
    ensures exists es :: Finishes(cfg, db, t, day, es)
  {
    RestIsReached(cfg, after, t, day, later);
    var rest :| Finishes(cfg, after, t, day, rest);
    StepThenFinish(cfg, db, t, day, now, after, rest);
  }

  lemma FirstStep(cfg: Config, db: Db, t: Id, day: Date, now: Time, later: Time)
    requires Inv(db) && OfferFor(db, t, day) == OfferTimeIn && cfg.localDate(now) == day && now < later
    ensures var after := Apply(cfg, db, NextStep(db, t, day, now)).0;
      && Inv(after) && ActiveSite(after, t, day).Some? && OfferFor(after, t, day) != OfferTimeIn
      && Timely(cfg, after, t, day, later) && Rank(OfferFor(after, t, day)) == 2
  {
    NextStepIsAccepted(cfg, db, t, day, now);
    AfterTimeIn(cfg, db, t, day, now, later, Apply(cfg, db, NextStep(db, t, day, now)).0);
  }

  lemma AfterTimeIn(cfg: Config, db: Db, t: Id, day: Date, now: Time, later: Time, after: Db)
    requires Inv(db) && OfferFor(db, t, day) == OfferTimeIn && cfg.localDate(now) == day && now < later
    requires after == ApplyTimeIn(cfg, db, Photo(db, t, now)).0
    ensures OfferFor(after, t, day) != OfferTimeIn && Timely(cfg, after, t, day, later)
  {
    TimeInCommits(cfg, db, t, day, now);
    OpensToday(cfg, db, Photo(db, t, now));
  }
}
