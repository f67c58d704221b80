/** The draft / submitted / needs_revision / reviewed loop of a journal, counted
    over whole runs. */
module ReviewCycle {
  import opened Common
  import opened Text
  import opened Schema
  import opened Ledger
  import opened LedgerInvariants
  import opened LedgerHistory
  import opened Notifications

  function FinalOf(journal: Id): Review -> bool {
    (r: Review) => r.journal == journal && r.decision == Reviewed
  }

  ghost predicate JournalOk(db: Db, j: Id)
    requires j < |db.journals|
  {
    var row := db.journals[j];
    var revisions, finals := Count(db.reviews, RevisionOf(j)), Count(db.reviews, FinalOf(j));
    && row.revisions == revisions
    && Count(db.reviews, ReviewOf(j)) == revisions + finals
    && finals == (if row.status == Reviewed then 1 else 0)
    && (row.status == Draft ==> revisions == 0)
    && (row.status == NeedsRevision ==> revisions > 0)
  }

  /** A `reviewed` decision ends the cycle: whatever a journal was answered before
      its last review was a request for revision. */
  ghost predicate FinalIsLast(db: Db) {
    && (forall k, l :: 0 <= k < l < |db.reviews| && db.reviews[k].journal == db.reviews[l].journal ==>
          db.reviews[k].decision == NeedsRevision)
    && (forall k :: 0 <= k < |db.reviews| && db.reviews[k].journal < |db.journals| && db.reviews[k].decision != NeedsRevision ==>
          db.reviews[k].decision == Reviewed && db.journals[db.reviews[k].journal].status == Reviewed)
  }

  ghost predicate CycleOk(db: Db) {
    FinalIsLast(db) && forall j :: 0 <= j < |db.journals| ==> JournalOk(db, j)
  }

  lemma EditKeepsCycle(db: Db, k: Id, row: Journal)
    requires CycleOk(db) && k < |db.journals| && Editable(db.journals[k].status)
    requires row.revisions == db.journals[k].revisions
    requires row.status == db.journals[k].status || row.status == Submitted
    ensures CycleOk(db.(journals := db.journals[k := row]))
  {
    var after := db.(journals := db.journals[k := row]);
    forall j | 0 <= j < |after.journals| ensures JournalOk(after, j) {
      assert JournalOk(db, j);
    }
  }

  lemma ReviewKeepsCycle(db: Db, k: Id, r: Review)
    requires CycleOk(db) && k < |db.journals| && db.journals[k].status == Submitted
    requires r.journal == k && (r.decision == Reviewed || r.decision == NeedsRevision)
    ensures CycleOk(db.(journals := db.journals[k := ReviewRow(db.journals[k], r.decision)], reviews := db.reviews + [r]))
  {
    var after := db.(journals := db.journals[k := ReviewRow(db.journals[k], r.decision)], reviews := db.reviews + [r]);
    forall j | 0 <= j < |after.journals| ensures JournalOk(after, j) {
      assert JournalOk(db, j);
      CountAppend(db.reviews, r, ReviewOf(j));
      CountAppend(db.reviews, r, RevisionOf(j));
      CountAppend(db.reviews, r, FinalOf(j));
    }
  }

  lemma JournalStepKeepsCycle(cfg: Config, db: Db, e: Event)
    requires CycleOk(db) && (e.SaveDraft? || e.Submit? || e.ReviewJournal?)
    ensures CycleOk(Apply(cfg, db, e).0)
  {
    match e
    case SaveDraft(k, text) =>
      if ApplySaveDraft(db, k, text).1.Done? { EditKeepsCycle(db, k, SaveDraftRow(db.journals[k], text)); }
    case Submit(k, text) =>
      if ApplySubmit(db, k, text).1.Done? { EditKeepsCycle(db, k, SubmitRow(db.journals[k], text)); }
    case ReviewJournal(k, reviewer, decision, comment) =>
      if ApplyReview(db, k, reviewer, decision, comment).1.Done? {
        ReviewKeepsCycle(db, k, Review(k, reviewer, decision, comment));
      }
  }

  predicate AppendsDrafts(before: seq<Journal>, after: seq<Journal>) {
    before <= after && forall j :: |before| <= j < |after| ==> after[j].status == Draft && after[j].revisions == 0
  }

  lemma AppendsKeepCycle(db: Db, after: Db)
    requires CycleOk(db) && (forall k :: 0 <= k < |db.reviews| ==> db.reviews[k].journal < |db.journals|)
    requires after.reviews == db.reviews && AppendsDrafts(db.journals, after.journals)
    ensures CycleOk(after)
  {
    forall j | 0 <= j < |after.journals| ensures JournalOk(after, j) {
      if j < |db.journals| {
        assert JournalOk(db, j);
      } else {
        CountNone(db.reviews, ReviewOf(j));
        CountNone(db.reviews, RevisionOf(j));
        CountNone(db.reviews, FinalOf(j));
      }
    }
  }

  /** The other requests at most append fresh drafts. */
  lemma OthersAppendDrafts(cfg: Config, db: Db, e: Event)
    requires !(e.SaveDraft? || e.Submit? || e.ReviewJournal?)
    ensures var after := Apply(cfg, db, e).0;
            after.reviews == db.reviews && AppendsDrafts(db.journals, after.journals)
  {
  }

  lemma OtherStepKeepsCycle(cfg: Config, db: Db, e: Event)
    requires Links(db) && CycleOk(db) && !(e.SaveDraft? || e.Submit? || e.ReviewJournal?)
    ensures var after := Apply(cfg, db, e).0;
            CycleOk(after) && after.reviews == db.reviews && AppendsDrafts(db.journals, after.journals)
  {
    OthersAppendDrafts(cfg, db, e);
    AppendsKeepCycle(db, Apply(cfg, db, e).0);
  }

  lemma StepKeepsCycle(cfg: Config, db: Db, e: Event)
    requires Links(db) && CycleOk(db)
    ensures CycleOk(Apply(cfg, db, e).0)
  {
    if e.SaveDraft? || e.Submit? || e.ReviewJournal? {
      JournalStepKeepsCycle(cfg, db, e);
    } else {
      OtherStepKeepsCycle(cfg, db, e);
    }
  }

  // ---- Counting over a run ----

  /** Submissions of journal j that the run accepted. */
  function Submits(cfg: Config, steps: seq<Step>, j: Id): nat {
    if steps == [] then 0
    else
      var n := |steps| - 1;
      Submits(cfg, steps[..n], j) +
      if steps[n].Ledger? && steps[n].event.Submit? && steps[n].event.journal == j
         && Apply(cfg, History(cfg, steps[..n]).db, steps[n].event).1.Done?
      then 1 else 0
  }

  function ReviewCount(db: Db, j: Id): nat { Count(db.reviews, ReviewOf(j)) }

  /** The recipient's review notifications are numbered exactly 1..n. */
  ghost predicate NumberedReviews(cfg: Config, s: State, j: Id)
    requires j < |s.db.journals|
  {
    forall n: nat :: Note(cfg.userOf(s.db.journals[j].trainee), ReviewNumber(j, n)) in s.notes <==> 1 <= n <= ReviewCount(s.db, j)
  }

  ghost predicate CycleCounted(cfg: Config, steps: seq<Step>, j: Id)
    requires j < |History(cfg, steps).db.journals|
  {
    var s := History(cfg, steps);
    && Submits(cfg, steps, j) == ReviewCount(s.db, j) + (if s.db.journals[j].status == Submitted then 1 else 0)
    && NumberedReviews(cfg, s, j)
  }

  lemma {:induction false} HistoryKeepsCycle(cfg: Config, steps: seq<Step>)
    ensures CycleOk(History(cfg, steps).db)
  {
    if steps != [] {
      var n := |steps| - 1;
      HistoryKeepsCycle(cfg, steps[..n]);
      HistoryIsGood(cfg, steps[..n]);
      if steps[n].Ledger? { StepKeepsCycle(cfg, History(cfg, steps[..n]).db, steps[n].event); }
    }
  }

  /** A journal that does not exist yet was never submitted and has no review note. */
  lemma {:induction false} FutureJournalUntouched(cfg: Config, steps: seq<Step>, j: Id)
    requires j >= |History(cfg, steps).db.journals|
    ensures Submits(cfg, steps, j) == 0
    ensures forall n :: n in History(cfg, steps).notes && n.key.ReviewNumber? ==> n.key.journal != j
  {
    HistoryIsGood(cfg, steps);
    if steps != [] {
      var n := |steps| - 1;
      HistoryIsGood(cfg, steps[..n]);
      if steps[n].Ledger? { FutureNotSubmitted(cfg, History(cfg, steps[..n]).db, steps[n].event, j); }
      FutureJournalUntouched(cfg, steps[..n], j);
    }
  }

  lemma FutureNotSubmitted(cfg: Config, db: Db, e: Event, j: Id)
    requires Inv(db) && j >= |Apply(cfg, db, e).0.journals|
    ensures j >= |db.journals| && !(e.Submit? && e.journal == j && Apply(cfg, db, e).1.Done?)
  {
    StepGrows(cfg, db, e);
  }

  /** Which review notes a committed request adds. */
  lemma ReviewNotesAdded(cfg: Config, before: Db, after: Db, notes: seq<Note>, e: Event, o: Outcome, r: Id, j: Id, n: nat)
    ensures Note(r, ReviewNumber(j, n)) in NotesAfter(cfg, before, after, notes, e, o) <==>
            || Note(r, ReviewNumber(j, n)) in notes
            || (e.ReviewJournal? && o.Done? && e.journal == j && j < |after.journals|
                && r == cfg.userOf(after.journals[j].trainee) && n == Count(after.reviews, ReviewOf(j)))
  {
    var i := Recalculated(before, e, o);
    var milestone := notes;
    if i.Some? && i.value < |after.sessions| {
      var t, a := after.sessions[i.value].trainee, after.sessions[i.value].assignment;
      milestone := NotifyCompletion(cfg, after, notes, t, a);
      CreateTxAddsOnce(notes, Note(cfg.userOf(t), Completion(t, a)));
    }
    if e.Decide? && e.correction < |after.corrections| {
      CreateTxAddsOnce(milestone, Note(cfg.userOf(after.corrections[e.correction].trainee), Decision(e.correction, e.verdict == Approve)));
    } else if e.ReviewJournal? && e.journal < |after.journals| {
      CreateTxAddsOnce(milestone, Note(cfg.userOf(after.journals[e.journal].trainee),
                                       ReviewNumber(e.journal, Count(after.reviews, ReviewOf(e.journal)))));
    }
  }

  lemma {:induction false} CycleIsCounted(cfg: Config, steps: seq<Step>, j: Id)
    requires j < |History(cfg, steps).db.journals|
    ensures CycleCounted(cfg, steps, j)
  {
    var m := |steps| - 1;
    var s := History(cfg, steps[..m]);
    HistoryIsGood(cfg, steps[..m]);
    HistoryKeepsCycle(cfg, steps[..m]);
    if j < |s.db.journals| {
      CycleIsCounted(cfg, steps[..m], j);
      if steps[m].Remind? {
        CreateTxAddsOnce(s.notes, steps[m].note);
      } else {
        AdvanceKeepsCount(cfg, s, steps[m].event, j);
      }
    } else {
      FutureJournalUntouched(cfg, steps[..m], j);
      CountNone(s.db.reviews, ReviewOf(j));
      assert steps[m].Ledger?;
      NewJournalCount(cfg, s, steps[m].event, j);
    }
  }

  lemma NewJournalCount(cfg: Config, s: State, e: Event, j: Id)
    requires Good(cfg, s) && CycleOk(s.db)
    requires |s.db.journals| <= j < |Apply(cfg, s.db, e).0.journals|
    ensures var t := Advance(cfg, s, Ledger(e));
            && !e.Submit? && t.db.journals[j].status == Draft && ReviewCount(t.db, j) == 0
            && NumberedReviews(cfg, t, j)
  {
    var (after, o) := Apply(cfg, s.db, e);
    OtherStepKeepsCycle(cfg, s.db, e);
    CountNone(s.db.reviews, ReviewOf(j));
    assert after.journals[j].status == Draft;
    var r := cfg.userOf(after.journals[j].trainee);
    forall n: nat ensures Note(r, ReviewNumber(j, n)) !in NotesAfter(cfg, s.db, after, s.notes, e, o) {
      ReviewNotesAdded(cfg, s.db, after, s.notes, e, o, r, j, n);
    }
  }

  ghost predicate MovesCount(db: Db, e: Event, after: Db, o: Outcome, j: Id)
    requires j < |db.journals|
  {
    && j < |after.journals| && after.journals[j].trainee == db.journals[j].trainee
    && ReviewCount(after, j) == ReviewCount(db, j) + (if e.ReviewJournal? && e.journal == j && o.Done? then 1 else 0)
    && ReviewCount(after, j) + (if after.journals[j].status == Submitted then 1 else 0) ==
       ReviewCount(db, j) + (if db.journals[j].status == Submitted then 1 else 0)
       + (if e.Submit? && e.journal == j && o.Done? then 1 else 0)
  }

  lemma ReviewMovesCount(db: Db, k: Id, reviewer: Id, decision: JournalStatus, comment: Option<string>, j: Id)
    requires j < |db.journals|
    ensures var (after, o) := ApplyReview(db, k, reviewer, decision, comment);
            MovesCount(db, ReviewJournal(k, reviewer, decision, comment), after, o, j)
  {
    CountAppend(db.reviews, Review(k, reviewer, decision, comment), ReviewOf(j));
  }

  /** How one request moves the waiting submission and the review rows of journal j. */
  lemma StepMovesCount(cfg: Config, db: Db, e: Event, j: Id)
    requires j < |db.journals|
    ensures var (after, o) := Apply(cfg, db, e); MovesCount(db, e, after, o, j)
  {
    match e
    case SaveDraft(_, _) =>
    case Submit(_, _) =>
    case ReviewJournal(k, reviewer, decision, comment) => ReviewMovesCount(db, k, reviewer, decision, comment, j);
    case _ => OthersAppendDrafts(cfg, db, e);
  }

  lemma AdvanceKeepsCount(cfg: Config, s: State, e: Event, j: Id)
    requires Good(cfg, s) && CycleOk(s.db) && j < |s.db.journals| && NumberedReviews(cfg, s, j)
    ensures var (after, o) := Apply(cfg, s.db, e);
            var t := Advance(cfg, s, Ledger(e));
            && j < |after.journals| && NumberedReviews(cfg, t, j)
            && ReviewCount(after, j) + (if after.journals[j].status == Submitted then 1 else 0) ==
               ReviewCount(s.db, j) + (if s.db.journals[j].status == Submitted then 1 else 0)
               + (if e.Submit? && e.journal == j && o.Done? then 1 else 0)
  {
    var (after, o) := Apply(cfg, s.db, e);
    StepMovesCount(cfg, s.db, e, j);
    var r := cfg.userOf(s.db.journals[j].trainee);
    forall n: nat
      ensures Note(r, ReviewNumber(j, n)) in NotesAfter(cfg, s.db, after, s.notes, e, o) <==> 1 <= n <= ReviewCount(after, j)
    {
      ReviewNotesAdded(cfg, s.db, after, s.notes, e, o, r, j, n);
    }
  }

  /** Over any run of submissions, reviews and everything else: reviews trail the
      accepted submissions by one exactly while a submission waits; revision_count
      counts the needs_revision decisions; a `reviewed` decision occurs at most
      once, and last; and the review notices are numbered 1..n without a gap, so
      deduplication never swallowed one. */
  lemma ReviewCycleCounts(cfg: Config, steps: seq<Step>, j: Id)
    requires j < |History(cfg, steps).db.journals|
    ensures var s := History(cfg, steps);
            var row := s.db.journals[j];
            && ReviewCount(s.db, j) == Submits(cfg, steps, j) - (if row.status == Submitted then 1 else 0)
            && row.revisions == Count(s.db.reviews, RevisionOf(j))
            && Count(s.db.reviews, FinalOf(j)) == (if row.status == Reviewed then 1 else 0)
            && (forall k, l :: 0 <= k < l < |s.db.reviews| && s.db.reviews[k].journal == j == s.db.reviews[l].journal ==>
                  s.db.reviews[k].decision == NeedsRevision)
            && (forall n: nat :: Note(cfg.userOf(row.trainee), ReviewNumber(j, n)) in s.notes <==> 1 <= n <= ReviewCount(s.db, j))
  {
    HistoryKeepsCycle(cfg, steps);
    CycleIsCounted(cfg, steps, j);
    assert JournalOk(History(cfg, steps).db, j);
  }

  // ---- Narratives ----

  predicate Substantial(n: Option<string>) {
    n.Some? && TrimSpace(n.value) == n.value && ByteLength(n.value) >= NARRATIVE_MIN_BYTES
  }

  predicate NarrativesOk(journals: seq<Journal>) {
    forall j :: 0 <= j < |journals| && journals[j].status in {Submitted, Reviewed} ==> Substantial(journals[j].narrative)
  }

  lemma StepKeepsNarratives(cfg: Config, db: Db, e: Event)
    requires NarrativesOk(db.journals)
    ensures NarrativesOk(Apply(cfg, db, e).0.journals)
  {
    match e
    case SaveDraft(_, _) =>
    case Submit(_, text) => TrimIsIdempotent(text);
    case ReviewJournal(_, _, _, _) =>
    case _ => OthersAppendDrafts(cfg, db, e);
  }

  /** Every submitted or reviewed narrative is trimmed and at least 20 bytes long. */
  lemma {:induction false} SubmittedNarrativesAreLong(cfg: Config, es: seq<Event>)
    ensures NarrativesOk(Run(cfg, es).journals)
  {
    if es != [] {
      SubmittedNarrativesAreLong(cfg, es[..|es| - 1]);
      StepKeepsNarratives(cfg, Run(cfg, es[..|es| - 1]), es[|es| - 1]);
    }
  }
}
