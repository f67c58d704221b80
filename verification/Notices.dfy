/** Who is told what: each request adds exactly the notifications it owes, and over any
    history a trainee has the notice of a verdict exactly when the verdict was given. */
module Notices {
  import opened Common
  import opened Schema
  import opened Ledger
  import opened LedgerInvariants
  import opened Progress
  import opened Notifications
  import opened Answers
  import opened Provenance

  /** The notice of a decision, to the account of the trainee who asked. */
  predicate OwedDecision(cfg: Config, after: Db, e: Event, o: Outcome, n: Note) {
    && e.Decide? && o.Done? && e.correction < |after.corrections|
    && n == Note(cfg.userOf(after.corrections[e.correction].trainee), Decision(e.correction, e.verdict == Approve))
  }

  /** The numbered notice of a review, to the account of the journal's trainee. */
  predicate OwedReview(cfg: Config, after: Db, e: Event, o: Outcome, n: Note) {
    && e.ReviewJournal? && o.Done? && e.journal < |after.journals|
    && n == Note(cfg.userOf(after.journals[e.journal].trainee), ReviewNumber(e.journal, Count(after.reviews, ReviewOf(e.journal))))
  }

  /** The milestone of session i's assignment, when its minutes reach the requirement. */
  predicate OwedFor(cfg: Config, after: Db, i: Id, n: Note) {
    && i < |after.sessions|
    && var s := after.sessions[i];
       && s.assignment < |after.assignments|
       && Sum(after.sessions, ByTrainee(s.trainee, s.assignment)) >= after.assignments[s.assignment].required
       && n == Note(cfg.userOf(s.trainee), Completion(s.trainee, s.assignment))
  }

  /** A Time Out and an approval owe the milestone of the session they close or correct. */
  predicate OwedMilestone(cfg: Config, before: Db, after: Db, e: Event, o: Outcome, n: Note) {
    || (e.TimeOut? && o.Created? && OwedFor(cfg, after, e.session, n))
    || (e.Decide? && o.Done? && e.verdict == Approve && e.correction < |before.corrections|
        && OwedFor(cfg, after, before.corrections[e.correction].attendance, n))
  }

  /** After a request's transaction the table holds the notifications there were and the
      ones it owed, and nothing else. */
  lemma NotesAreOwed(cfg: Config, before: Db, after: Db, notes: seq<Note>, e: Event, o: Outcome, n: Note)
    requires e.Decide? ==> !o.Created?
    ensures n in NotesAfter(cfg, before, after, notes, e, o) <==>
      || n in notes || OwedMilestone(cfg, before, after, e, o, n)
      || OwedDecision(cfg, after, e, o, n) || OwedReview(cfg, after, e, o, n)
  {
    var i := Recalculated(before, e, o);
    var milestone := notes;
    if i.Some? && i.value < |after.sessions| {
      var t, a := after.sessions[i.value].trainee, after.sessions[i.value].assignment;
      milestone := NotifyCompletion(cfg, after, notes, t, a);
      CreateTxAddsOnce(notes, Note(cfg.userOf(t), Completion(t, a)));
    }
    if e.Decide? && e.correction < |after.corrections| {
      CreateTxAddsOnce(milestone, Note(cfg.userOf(after.corrections[e.correction].trainee), Decision(e.correction, e.verdict == Approve)));
    } else if e.ReviewJournal? && e.journal < |after.journals| {
      CreateTxAddsOnce(milestone, Note(cfg.userOf(after.journals[e.journal].trainee),
                                       ReviewNumber(e.journal, Count(after.reviews, ReviewOf(e.journal)))));
    }
  }

  /** Account r has been told that correction k was approved, or rejected. */
  predicate ToldVerdict(notes: seq<Note>, r: Id, k: Id, approved: bool) { Note(r, Decision(k, approved)) in notes }

  predicate Decided(db: Db, k: Id, approved: bool) {
    k < |db.corrections| && db.corrections[k].status == if approved then Approved else Rejected
  }

  ghost predicate VerdictsTold(cfg: Config, s: State, k: Id, approved: bool) {
    forall r :: ToldVerdict(s.notes, r, k, approved) <==>
      Decided(s.db, k, approved) && r == cfg.userOf(s.db.corrections[k].trainee)
  }

  lemma RequestTellsVerdicts(cfg: Config, s: State, e: Event, k: Id, approved: bool)
    requires Inv(s.db) && VerdictsTold(cfg, s, k, approved)
    ensures VerdictsTold(cfg, Advance(cfg, s, Step.Ledger(e)), k, approved)
  {
    var (after, o) := Apply(cfg, s.db, e);
    StepFiles(cfg, s.db, e, k);
    if e.Decide? { DecideAnswers(s.db, e.correction, e.verdict, e.now); }
    if e.Request? { RequestAnswers(s.db, e.proposal); }
    forall r
      ensures ToldVerdict(NotesAfter(cfg, s.db, after, s.notes, e, o), r, k, approved) <==>
        Decided(after, k, approved) && r == cfg.userOf(after.corrections[k].trainee)
    {
      NotesAreOwed(cfg, s.db, after, s.notes, e, o, Note(r, Decision(k, approved)));
      assert ToldVerdict(s.notes, r, k, approved) <==> Decided(s.db, k, approved) && r == cfg.userOf(s.db.corrections[k].trainee);
    }
  }

  /** Over any history of requests and reminders: a correction's trainee, and nobody
      else, has the notice of its approval exactly when it is approved, and of its
      rejection exactly when it is rejected. */
  lemma {:induction false} VerdictsAreTold(cfg: Config, steps: seq<Step>, k: Id, approved: bool)
    ensures VerdictsTold(cfg, History(cfg, steps), k, approved)
  {
    if steps != [] {
      var n := |steps| - 1;
      var s := History(cfg, steps[..n]);
      VerdictsAreTold(cfg, steps[..n], k, approved);
      HistoryIsGood(cfg, steps[..n]);
      match steps[n]
      case Ledger(e) => RequestTellsVerdicts(cfg, s, e, k, approved);
      case Remind(note) => ReminderTellsNoVerdict(cfg, s, note, k, approved);
    }
  }

  lemma ReminderTellsNoVerdict(cfg: Config, s: State, note: Note, k: Id, approved: bool)
    requires VerdictsTold(cfg, s, k, approved)
    ensures VerdictsTold(cfg, Advance(cfg, s, Remind(note)), k, approved)
  {
    CreateTxAddsOnce(s.notes, note);
    forall r ensures ToldVerdict(Advance(cfg, s, Remind(note)).notes, r, k, approved) <==> ToldVerdict(s.notes, r, k, approved) {
    }
  }
}
