/** Notification rows, deduplicated on (recipient, event key), and the completion
    milestone. Event keys are values here; module EventKeys shows that their
    rendered strings never collide. */
module Notifications {
  import opened Common
  import opened Schema
  import opened Ledger
  import opened LedgerInvariants
  import opened LedgerHistory
  import opened Progress

  datatype EventKey =
    | Completion(trainee: Id, assignment: Id)
    | Decision(correction: Id, approved: bool)
    | ReviewNumber(journal: Id, number: nat)
    | OpenReminder(session: Id)
    | JournalReminder(journal: Id)
    | AttendanceReminder(assignment: Id, day: Date)

  datatype Note = Note(recipient: Id, key: EventKey)

  function Is(n: Note): Note -> bool { (m: Note) => m == n }

  function HasKey(key: EventKey): Note -> bool { (m: Note) => m.key == key }

  /** INSERT ... ON CONFLICT DO NOTHING */
  function CreateTx(notes: seq<Note>, n: Note): seq<Note> {
    if Find(notes, Is(n)).Some? then notes else notes + [n]
  }

  ghost predicate Distinct(notes: seq<Note>) {
    forall i, j :: 0 <= i < j < |notes| ==> notes[i] != notes[j]
  }

  lemma CreateTxAddsOnce(notes: seq<Note>, n: Note)
    ensures n in CreateTx(notes, n) && notes <= CreateTx(notes, n)
    ensures forall m :: m in CreateTx(notes, n) <==> m in notes || m == n
    ensures Distinct(notes) ==> Distinct(CreateTx(notes, n))
    ensures n in notes ==> CreateTx(notes, n) == notes
  {
    var r := Find(notes, Is(n));
    if r.Some? {
      assert Is(n)(notes[r.value]);
    } else {
      forall k | 0 <= k < |notes| ensures notes[k] != n { assert !Is(n)(notes[k]); }
    }
  }

  /** NotifyCompletionIfReachedTx */
  function NotifyCompletion(cfg: Config, db: Db, notes: seq<Note>, t: Id, a: Id): seq<Note> {
    if a < |db.assignments| && Reached(db, t, a)
    then CreateTx(notes, Note(cfg.userOf(t), Completion(t, a)))
    else notes
  }

  /** The session whose credit a committed request recalculated. */
  function Recalculated(before: Db, e: Event, o: Outcome): Option<Id> {
    if e.TimeOut? && o.Created? then Some(e.session)
    else if e.Decide? && o.Done? && e.verdict == Approve && e.correction < |before.corrections|
    then Some(before.corrections[e.correction].attendance)
    else None
  }

  /** The notification rows after a request's transaction. */
  function NotesAfter(cfg: Config, before: Db, after: Db, notes: seq<Note>, e: Event, o: Outcome): seq<Note> {
    var i := Recalculated(before, e, o);
    var milestone :=
      if i.Some? && i.value < |after.sessions|
      then NotifyCompletion(cfg, after, notes, after.sessions[i.value].trainee, after.sessions[i.value].assignment)
      else notes;
    if o.Done? then WithAnswer(cfg, after, milestone, e) else milestone
  }

  /** The notification of a decision or a review, created in its transaction. */
  function WithAnswer(cfg: Config, after: Db, notes: seq<Note>, e: Event): seq<Note> {
    if e.Decide? && e.correction < |after.corrections| then
      CreateTx(notes, Note(cfg.userOf(after.corrections[e.correction].trainee), Decision(e.correction, e.verdict == Approve)))
    else if e.ReviewJournal? && e.journal < |after.journals| then
      CreateTx(notes, Note(cfg.userOf(after.journals[e.journal].trainee),
                           ReviewNumber(e.journal, Count(after.reviews, ReviewOf(e.journal)))))
    else notes
  }

  /** A run interleaves requests with scheduled reminders, which only ever create
      notes under reminder keys. */
  datatype Step = Ledger(event: Event) | Remind(note: Note)

  predicate IsReminder(key: EventKey) { key.OpenReminder? || key.JournalReminder? || key.AttendanceReminder? }

  datatype State = State(db: Db, notes: seq<Note>)

  function Advance(cfg: Config, s: State, step: Step): State {
    match step
    case Ledger(e) =>
      var (after, o) := Apply(cfg, s.db, e);
      State(after, NotesAfter(cfg, s.db, after, s.notes, e, o))
    case Remind(n) => if IsReminder(n.key) then s.(notes := CreateTx(s.notes, n)) else s
  }

  function History(cfg: Config, steps: seq<Step>): State {
    if steps == [] then State(EMPTY, [])
    else Advance(cfg, History(cfg, steps[..|steps| - 1]), steps[|steps| - 1])
  }

  ghost predicate Good(cfg: Config, s: State) {
    && Inv(s.db)
    && Distinct(s.notes)
    && (forall n :: n in s.notes && n.key.Completion? ==> n.recipient == cfg.userOf(n.key.trainee))
    && (forall n :: n in s.notes && n.key.ReviewNumber? ==>
          n.key.journal < |s.db.journals| && n.recipient == cfg.userOf(s.db.journals[n.key.journal].trainee))
  }

  lemma CreateKeepsGood(cfg: Config, s: State, n: Note)
    requires Good(cfg, s)
    requires n.key.Completion? ==> n.recipient == cfg.userOf(n.key.trainee)
    requires n.key.ReviewNumber? ==>
      n.key.journal < |s.db.journals| && n.recipient == cfg.userOf(s.db.journals[n.key.journal].trainee)
    ensures Good(cfg, s.(notes := CreateTx(s.notes, n)))
  {
    CreateTxAddsOnce(s.notes, n);
  }

  lemma AdvanceKeepsGood(cfg: Config, s: State, step: Step)
    requires Good(cfg, s)
    ensures Good(cfg, Advance(cfg, s, step)) && s.notes <= Advance(cfg, s, step).notes
  {
    match step
    case Remind(n) =>
      CreateTxAddsOnce(s.notes, n);
      if IsReminder(n.key) { CreateKeepsGood(cfg, s, n); }
    case Ledger(e) =>
      StepKeeps(cfg, s.db, e);
      StepGrows(cfg, s.db, e);
      var (after, o) := Apply(cfg, s.db, e);
      assert Good(cfg, State(after, s.notes));
      NotesKeepGood(cfg, s.db, State(after, s.notes), e, o);
  }

  lemma NotesKeepGood(cfg: Config, before: Db, s: State, e: Event, o: Outcome)
    requires Good(cfg, s)
    ensures Good(cfg, s.(notes := NotesAfter(cfg, before, s.db, s.notes, e, o)))
    ensures s.notes <= NotesAfter(cfg, before, s.db, s.notes, e, o)
  {
    var i := Recalculated(before, e, o);
    var milestone := s.notes;
    if i.Some? && i.value < |s.db.sessions| {
      var t, a := s.db.sessions[i.value].trainee, s.db.sessions[i.value].assignment;
      milestone := NotifyCompletion(cfg, s.db, s.notes, t, a);
      CreateTxAddsOnce(s.notes, Note(cfg.userOf(t), Completion(t, a)));
      CreateKeepsGood(cfg, s, Note(cfg.userOf(t), Completion(t, a)));
    }
    var mid := s.(notes := milestone);
    assert Good(cfg, mid);
    if e.Decide? && o.Done? && e.correction < |s.db.corrections| {
      var n := Note(cfg.userOf(s.db.corrections[e.correction].trainee), Decision(e.correction, e.verdict == Approve));
      CreateTxAddsOnce(milestone, n);
      CreateKeepsGood(cfg, mid, n);
    } else if e.ReviewJournal? && o.Done? && e.journal < |s.db.journals| {
      var n := Note(cfg.userOf(s.db.journals[e.journal].trainee),
                    ReviewNumber(e.journal, Count(s.db.reviews, ReviewOf(e.journal))));
      CreateTxAddsOnce(milestone, n);
      CreateKeepsGood(cfg, mid, n);
    }
  }

  lemma {:induction false} HistoryIsGood(cfg: Config, steps: seq<Step>)
    ensures Good(cfg, History(cfg, steps))
  {
    if steps != [] {
      HistoryIsGood(cfg, steps[..|steps| - 1]);
      AdvanceKeepsGood(cfg, History(cfg, steps[..|steps| - 1]), steps[|steps| - 1]);
    }
  }

  // ---- The completion milestone ----

  lemma {:induction false} DistinctCountsOnce(notes: seq<Note>, key: EventKey, recipient: Id)
    requires Distinct(notes)
    requires forall n :: n in notes && n.key == key ==> n.recipient == recipient
    ensures Count(notes, HasKey(key)) == (if Note(recipient, key) in notes then 1 else 0)
  {
    if notes != [] {
      var k := |notes| - 1;
      assert forall i :: 0 <= i < k ==> notes[..k][i] == notes[i];
      DistinctCountsOnce(notes[..k], key, recipient);
      assert notes == notes[..k] + [notes[k]];
    }
  }

  /** Right after a Time Out or an approval commits, the milestone exists if the
      assignment's minutes reach its requirement. */
  lemma MilestoneAfterRecalculation(cfg: Config, steps: seq<Step>, e: Event)
    ensures var s := History(cfg, steps);
            var (after, o) := Apply(cfg, s.db, e);
            var i := Recalculated(s.db, e, o);
            i.Some? ==>
              && i.value < |after.sessions| && after.sessions[i.value].assignment < |after.assignments|
              && (CompletedMinutes(after, after.sessions[i.value].assignment) >= after.assignments[after.sessions[i.value].assignment].required ==>
                    var row := after.sessions[i.value];
                    Note(cfg.userOf(row.trainee), Completion(row.trainee, row.assignment)) in History(cfg, steps + [Ledger(e)]).notes)
  {
    var s := History(cfg, steps);
    HistoryIsGood(cfg, steps);
    var (after, o) := Apply(cfg, s.db, e);
    StepKeeps(cfg, s.db, e);
    StepGrows(cfg, s.db, e);
    assert (steps + [Ledger(e)])[..|steps|] == steps;
    MilestoneNoted(cfg, s.db, after, s.notes, e, o);
  }

  lemma MilestoneNoted(cfg: Config, before: Db, after: Db, notes: seq<Note>, e: Event, o: Outcome)
    requires Inv(before) && Inv(after) && |before.sessions| <= |after.sessions|
    requires e.TimeOut? && o.Created? ==> e.session < |before.sessions|
    ensures var i := Recalculated(before, e, o);
            i.Some? ==>
              && i.value < |after.sessions| && after.sessions[i.value].assignment < |after.assignments|
              && var row := after.sessions[i.value];
                 CompletedMinutes(after, row.assignment) >= after.assignments[row.assignment].required ==>
                   Note(cfg.userOf(row.trainee), Completion(row.trainee, row.assignment)) in NotesAfter(cfg, before, after, notes, e, o)
  {
    var i := Recalculated(before, e, o);
    if i.Some? {
      var row := after.sessions[i.value];
      SumsAgree(after, row.assignment);
      CreateTxAddsOnce(notes, Note(cfg.userOf(row.trainee), Completion(row.trainee, row.assignment)));
      MilestoneSurvives(cfg, before, after, notes, e, o, row.trainee, row.assignment);
    }
  }

  lemma MilestoneSurvives(cfg: Config, before: Db, after: Db, notes: seq<Note>, e: Event, o: Outcome, t: Id, a: Id)
    ensures var i := Recalculated(before, e, o);
            i.Some? && i.value < |after.sessions| && after.sessions[i.value].trainee == t && after.sessions[i.value].assignment == a ==>
              NotifyCompletion(cfg, after, notes, t, a) <= NotesAfter(cfg, before, after, notes, e, o)
  {
    var m := NotifyCompletion(cfg, after, notes, t, a);
    if e.Decide? && e.correction < |after.corrections| {
      CreateTxAddsOnce(m, Note(cfg.userOf(after.corrections[e.correction].trainee), Decision(e.correction, e.verdict == Approve)));
    }
  }

  /** Per trainee and assignment there is never more than one milestone, and none
      is ever removed. */
  lemma MilestoneOnceForever(cfg: Config, steps: seq<Step>, more: seq<Step>, t: Id, a: Id)
    ensures Count(History(cfg, steps).notes, HasKey(Completion(t, a))) <= 1
    ensures History(cfg, steps).notes <= History(cfg, steps + more).notes
  {
    HistoryIsGood(cfg, steps);
    DistinctCountsOnce(History(cfg, steps).notes, Completion(t, a), cfg.userOf(t));
    assert (steps + more)[..|steps|] == steps;
    NotesAreNeverRemoved(cfg, steps + more, |steps|);
  }

  lemma {:induction false} NotesAreNeverRemoved(cfg: Config, steps: seq<Step>, k: nat)
    requires k <= |steps|
    ensures History(cfg, steps[..k]).notes <= History(cfg, steps).notes
  {
    if k == |steps| {
      assert steps[..k] == steps;
    } else {
      var before := steps[..|steps| - 1];
      assert before[..k] == steps[..k];
      NotesAreNeverRemoved(cfg, before, k);
      HistoryIsGood(cfg, before);
      AdvanceKeepsGood(cfg, History(cfg, before), steps[|steps| - 1]);
    }
  }

  /** The k-th step recalculated a session of (t, a) and left the sum at or above
      the requirement then in force. */
  ghost predicate SawCompletion(cfg: Config, steps: seq<Step>, k: nat, t: Id, a: Id) {
    && k < |steps| && steps[k].Ledger?
    && var s := History(cfg, steps[..k]);
       var (after, o) := Apply(cfg, s.db, steps[k].event);
       var i := Recalculated(s.db, steps[k].event, o);
       && i.Some? && i.value < |after.sessions|
       && after.sessions[i.value].trainee == t && after.sessions[i.value].assignment == a
       && a < |after.assignments| && CompletedMinutes(after, a) >= after.assignments[a].required
  }

  /** A milestone exists only if some earlier commit saw the requirement met, even
      when later corrections lowered the sum again. */
  lemma {:induction false} MilestoneWasEarned(cfg: Config, steps: seq<Step>, n: Note)
    requires n in History(cfg, steps).notes && n.key.Completion?
    ensures exists k :: 0 <= k < |steps| && SawCompletion(cfg, steps, k, n.key.trainee, n.key.assignment)
  {
    var m := |steps| - 1;
    var s := History(cfg, steps[..m]);
    if n in s.notes {
      MilestoneWasEarned(cfg, steps[..m], n);
      var k :| 0 <= k < m && SawCompletion(cfg, steps[..m], k, n.key.trainee, n.key.assignment);
      assert steps[..m][..k] == steps[..k];
      assert SawCompletion(cfg, steps, k, n.key.trainee, n.key.assignment);
    } else {
      HistoryIsGood(cfg, steps[..m]);
      assert steps[m].Ledger? by {
        if steps[m].Remind? { CreateTxAddsOnce(s.notes, steps[m].note); }
      }
      var e := steps[m].event;
      var (after, o) := Apply(cfg, s.db, e);
      StepKeeps(cfg, s.db, e);
      NewMilestone(cfg, s.db, after, s.notes, e, o, n);
      SumsAgree(after, n.key.assignment);
      assert SawCompletion(cfg, steps, m, n.key.trainee, n.key.assignment);
    }
  }

  lemma NewMilestone(cfg: Config, before: Db, after: Db, notes: seq<Note>, e: Event, o: Outcome, n: Note)
    requires Inv(after) && n.key.Completion? && n !in notes && n in NotesAfter(cfg, before, after, notes, e, o)
    ensures var i := Recalculated(before, e, o);
            && i.Some? && i.value < |after.sessions|
            && after.sessions[i.value].trainee == n.key.trainee && after.sessions[i.value].assignment == n.key.assignment
            && n.key.assignment < |after.assignments| && after.assignments[n.key.assignment].trainee == n.key.trainee
            && Reached(after, n.key.trainee, n.key.assignment)
  {
    var i := Recalculated(before, e, o);
    var milestone :=
      if i.Some? && i.value < |after.sessions|
      then NotifyCompletion(cfg, after, notes, after.sessions[i.value].trainee, after.sessions[i.value].assignment)
      else notes;
    if e.Decide? && e.correction < |after.corrections| {
      CreateTxAddsOnce(milestone, Note(cfg.userOf(after.corrections[e.correction].trainee), Decision(e.correction, e.verdict == Approve)));
    }
    if e.ReviewJournal? && e.journal < |after.journals| {
      CreateTxAddsOnce(milestone, Note(cfg.userOf(after.journals[e.journal].trainee),
                                       ReviewNumber(e.journal, Count(after.reviews, ReviewOf(e.journal)))));
    }
    assert n in milestone;
    if i.Some? && i.value < |after.sessions| {
      var t, a := after.sessions[i.value].trainee, after.sessions[i.value].assignment;
      CreateTxAddsOnce(notes, Note(cfg.userOf(t), Completion(t, a)));
    }
  }
}
