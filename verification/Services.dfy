/** The request handlers as they run: statements on the tables inside a transaction
    that keeps or restores them, object puts before it and compensating deletes
    after it. Each is proved to do what its ledger transition says. */
module Services {
  import opened Common
  import opened Hours
  import opened Text
  import opened Schema
  import opened Ledger
  import opened LedgerInvariants
  import opened Progress
  import opened Notifications
  import opened Outbox
  import opened Bucket

  /** mergeFlags: a seen-set and a growing slice. */
  method MergeFlags(existing: seq<Flag>, add: seq<Flag>) returns (out: seq<Flag>)
    ensures out == Merge(existing, add)
    ensures forall f :: f in out <==> f in existing || f in add
    ensures forall i, j :: 0 <= i < j < |out| ==> out[i] != out[j]
  {
    var all := existing + add;
    var seen: set<Flag> := {};
    out := [];
    assert all[..0] == [];
    for k := 0 to |all|
      invariant out == Dedup(all[..k])
      invariant forall f :: f in seen <==> f in out
    {
      assert all[..k + 1][..k] == all[..k];
      if all[k] !in seen {
        seen := seen + {all[k]};
        out := out + [all[k]];
      }
    }
    assert all[..|all|] == all;
  }

  /** Merging keeps the order in which flags first appeared. */
  lemma {:induction false} DedupKeepsOrder(s: seq<Flag>, i: nat, j: nat)
    requires i < j < |Dedup(s)|
    ensures exists a, b :: 0 <= a < b < |s| && s[a] == Dedup(s)[i] && s[b] == Dedup(s)[j] && Dedup(s)[j] !in s[..b]
  {
    var n := |s| - 1;
    var before := Dedup(s[..n]);
    if j < |before| {
      DedupKeepsOrder(s[..n], i, j);
      var a, b :| 0 <= a < b < n && s[..n][a] == before[i] && s[..n][b] == before[j] && before[j] !in s[..n][..b];
      assert s[..n][..b] == s[..b];
    } else {
      assert before[i] in s[..n];
      var a :| 0 <= a < n && s[..n][a] == before[i];
      assert s[a] == Dedup(s)[i] && s[n] == Dedup(s)[j];
    }
  }

  /** The transaction did what the ledger says, or its commit failed and nothing changed. */
  ghost predicate Did(before: Db, after: Db, o: Outcome, spec: (Db, Outcome), commits: bool) {
    (after, o) == if Committed(spec.1) && !commits then (before, Refused(Internal)) else spec
  }

  /** What Decide and Review put in the outbox, spelled out. */
  lemma DecisionNotes(cfg: Config, before: Db, after: Db, rows: seq<Note>, k: Id, verdict: Verdict, now: Time, assignment: Id)
    requires k < |before.corrections| && k < |after.corrections| && verdict != UnknownVerdict
    requires var i := before.corrections[k].attendance;
      && i < |after.sessions| && after.sessions[i].assignment == assignment
      && after.sessions[i].trainee == after.corrections[k].trainee
    ensures var t := after.corrections[k].trainee;
      NotesAfter(cfg, before, after, rows, Event.Decide(k, verdict, now), Done) ==
        CreateTx(if verdict == Approve then NotifyCompletion(cfg, after, rows, t, assignment) else rows,
                 Note(cfg.userOf(t), Decision(k, verdict == Approve)))
  {
  }

  lemma TimeOutNotes(cfg: Config, before: Db, after: Db, rows: seq<Note>, c: Capture, i: Id, o: Outcome)
    requires o.Created? ==> i < |after.sessions|
    ensures NotesAfter(cfg, before, after, rows, Event.TimeOut(c, i), o) ==
      if o.Created? then NotifyCompletion(cfg, after, rows, after.sessions[i].trainee, after.sessions[i].assignment) else rows
  {
  }

  lemma ReviewNotes(cfg: Config, before: Db, after: Db, rows: seq<Note>, e: Event)
    requires e.ReviewJournal? && e.journal < |after.journals|
    ensures NotesAfter(cfg, before, after, rows, e, Done) ==
      CreateTx(rows, Note(cfg.userOf(after.journals[e.journal].trainee), ReviewNumber(e.journal, Count(after.reviews, ReviewOf(e.journal)))))
  {
  }

  /** The outcome of Time Out's transaction, which sees the row again under its lock. */
  function LockedTimeOut(cfg: Config, db: Db, c: Capture, i: Id, rule: BreakRule): (Db, Outcome)
    requires i < |db.sessions|
  {
    if db.sessions[i].status != Open then (db, Refused(AttendanceNotOpen))
    else InsertTimeOut(cfg, db, c, i, db.sessions[i].effectiveIn, db.sessions[i].flags, rule)
  }

  /** A Time Out that gets as far as storing its photos: without them it is refused and
      writes nothing, and likewise without its commit. */
  function Photographed(before: Db, spec: (Db, Outcome), luck: PhotoLuck, commits: bool): (Db, Outcome) {
    var storing := spec.1.Created? || spec.1 == Refused(Internal);
    if storing && !(luck.putOriginal && luck.render && luck.putWatermarked) then (before, Refused(StorageUnavailable))
    else if spec.1.Created? && !commits then (before, Refused(Internal))
    else spec
  }

  datatype ProgressView = ProgressView(completed: int, required: int, remaining: int, percent: int)

  class Service {
    const cfg: Config
    const bucket: PhotoBucket
    const outbox: NotificationTable
    var assignments: seq<Assignment>
    var sessions: seq<Session>
    var evidence: seq<Evidence>
    var corrections: seq<Correction>
    var adjustments: seq<Adjustment>
    var journals: seq<Journal>
    var reviews: seq<Review>

    constructor (cfg: Config, bucket: PhotoBucket, outbox: NotificationTable)
      ensures this.cfg == cfg && this.bucket == bucket && this.outbox == outbox
      ensures View() == EMPTY && Valid()
    {
      this.cfg, this.bucket, this.outbox := cfg, bucket, outbox;
      assignments, sessions, evidence := [], [], [];
      corrections, adjustments, journals, reviews := [], [], [], [];
    }

    function View(): Db
      reads this
    {
      Db(assignments, sessions, evidence, corrections, adjustments, journals, reviews)
    }

    ghost predicate Valid()
      reads this
    {
      Inv(View())
    }

    /** ROLLBACK */
    method Restore(saved: Db)
      modifies this
      ensures View() == saved
    {
      assignments, sessions, evidence := saved.assignments, saved.sessions, saved.evidence;
      corrections, adjustments, journals, reviews := saved.corrections, saved.adjustments, saved.journals, saved.reviews;
    }

    // ---- Time In ----

    /** The insert transaction. `clash` tells a violation of the client-action index
        from every other failure. */
    method InsertAttendance(c: Capture, assignment: Id, today: Date, commits: bool) returns (o: Outcome, clash: bool)
      modifies this
      ensures commits ==> (View(), o) == InsertTimeIn(old(View()), c, assignment, today)
      ensures !commits ==> View() == old(View())
      ensures !commits ==> o == if InsertTimeIn(old(View()), c, assignment, today).1.Created? then Refused(Internal)
                                else InsertTimeIn(old(View()), c, assignment, today).1
      ensures clash ==> o == Refused(Internal) && FindReplay(old(View()), c.trainee, c.clientAction).Some?
    {
      var saved := View();
      if Find(sessions, OnDay(c.trainee, today)).Some? { return Refused(AttendanceExistsToday), false; }
      var id := |sessions|;
      sessions := sessions +
        [Session(c.trainee, assignment, today, c.now, None, c.now, None, None, Open, FlagsFor(c.location), 1, None, None)];
      if Find(evidence, WithAction(c.trainee, c.clientAction)).Some? {
        Restore(saved);
        return Refused(Internal), true;
      }
      evidence := evidence + [EvidenceRow(c, id, TimeInAction)];
      if !commits {
        Restore(saved);
        return Refused(Internal), false;
      }
      return Created(id), false;
    }

    /** After a client-action clash, the session committed under that action, if any. */
    method CanonicalTimeIn(failed: Outcome, clash: bool, c: Capture) returns (o: Outcome)
      ensures var prev := FindReplay(View(), c.trainee, c.clientAction);
        o == if clash && prev.Some? then Replayed(prev.value) else failed
    {
      if !clash { return failed; }
      var prev := FindReplay(View(), c.trainee, c.clientAction);
      return if prev.Some? then Replayed(prev.value) else failed;
    }

    /** Time In. With every call to the environment going through it is exactly the
        ledger transition; otherwise it either is, or writes nothing. */
    method TimeIn(c: Capture, luck: PhotoLuck, commits: bool) returns (o: Outcome)
      requires Valid() && c.originalKey !in bucket.objects && c.watermarkedKey !in bucket.objects
      modifies this, bucket
      ensures Valid()
      ensures var spec := ApplyTimeIn(cfg, old(View()), c);
              var storing := spec.1.Created? || spec.1 == Refused(AttendanceExistsToday);
        (View(), o) ==
          if storing && !(luck.putOriginal && luck.render && luck.putWatermarked) then (old(View()), Refused(StorageUnavailable))
          else if spec.1.Created? && !commits then (old(View()), Refused(Internal))
          else spec
      ensures Committed(o) ==> bucket.objects == old(bucket.objects) + {c.originalKey, c.watermarkedKey}
      ensures !Committed(o) && luck.deleteOriginal && luck.deleteWatermarked ==> bucket.objects == old(bucket.objects)
      ensures old(bucket.objects) <= bucket.objects <= old(bucket.objects) + {c.originalKey, c.watermarkedKey}
    {
      ghost var before := View();
      var today := cfg.localDate(c.now);
      var site := ActiveSite(View(), c.trainee, today);
      if site.None? { return Refused(NoActiveAssignment); }
      var prev := FindReplay(View(), c.trainee, c.clientAction);
      if prev.Some? { return Replayed(prev.value); }
      if MissingReason(c) { return Refused(LocationReasonRequired); }
      var stored := bucket.StoreEvidence(c.originalKey, c.watermarkedKey, luck);
      if !stored { return Refused(StorageUnavailable); }
      var clash;
      o, clash := InsertAttendance(c, site.value, today, commits);
      if !o.Created? {
        bucket.Cleanup(c.originalKey, c.watermarkedKey, luck);
        o := CanonicalTimeIn(o, clash, c);
      } else {
        TimeInKeeps(cfg, before, c);
      }
    }

    // ---- Time Out ----

    /** INSERT INTO daily_journals ... ON CONFLICT DO NOTHING */
    method CreateJournal(session: Id, trainee: Id)
      modifies this`journals
      ensures journals == EnsureJournal(old(journals), session, trainee)
    {
      if Find(journals, JournalOf(session)).None? {
        journals := journals + [Journal(session, trainee, None, Draft, 0)];
      }
    }

    /** The UPDATE that closes a session, computed from the row as locked. */
    method CloseRow(c: Capture, i: Id, rule: BreakRule)
      requires i < |sessions|
      modifies this`sessions
      ensures sessions == old(sessions)[i := Closed(cfg, old(sessions)[i], c, old(sessions)[i].effectiveIn, old(sessions)[i].flags, rule)]
    {
      var row := sessions[i];
      var credit := CreditedMinutes(row.effectiveIn, c.now, rule);
      var flags := MergeFlags(row.flags, FlagsFor(c.location));
      if credit.elapsed >= cfg.unusualMinutes { flags := MergeFlags(flags, [FlagUnusualDuration]); }
      var status := Status.Valid;
      if |flags| > 0 { status := Flagged; }
      sessions := sessions[i := row.(
        originalOut := Some(c.now), effectiveOut := Some(c.now), credited := Some(credit.credited),
        status := status, flags := flags, closedAt := Some(c.now), version := row.version + 1, ruleUsed := Some(rule))];
    }

    /** The transaction of Time Out: lock the row and read it again, insert the
        evidence, close the session, create its journal, notify. */
    method CloseAttendance(c: Capture, i: Id, rule: BreakRule, commits: bool) returns (o: Outcome, clash: bool)
      requires i < |sessions|
      modifies this, outbox
      ensures Did(old(View()), View(), o, LockedTimeOut(cfg, old(View()), c, i, rule), commits)
      ensures o.Created? ==> outbox.rows == NotifyCompletion(cfg, View(), old(outbox.rows), c.trainee, old(sessions[i].assignment))
      ensures !o.Created? ==> outbox.rows == old(outbox.rows)
      ensures clash ==> o == Refused(Internal) && Find(old(evidence), WithAction(c.trainee, c.clientAction)).Some?
    {
      var saved, savedRows := View(), outbox.rows;
      var row := sessions[i];
      if row.status != Open { return Refused(AttendanceNotOpen), false; }
      if Find(evidence, WithAction(c.trainee, c.clientAction)).Some? { return Refused(Internal), true; }
      if Find(evidence, EvidenceOf(i, TimeOutAction)).Some? { return Refused(Internal), false; }
      evidence := evidence + [EvidenceRow(c, i, TimeOutAction)];
      if !CloseAllowed(row, c.now) {
        Restore(saved);
        return Refused(Internal), false;
      }
      CloseRow(c, i, rule);
      CreateJournal(i, c.trainee);
      assert View() == CloseSession(cfg, saved, c, i, row.effectiveIn, row.flags, rule);
      outbox.NotifyCompletionIfReached(cfg, View(), c.trainee, row.assignment);
      if !commits {
        Restore(saved);
        outbox.rows := savedRows;
        return Refused(Internal), false;
      }
      return Created(i), false;
    }

    method CanonicalTimeOut(failed: Outcome, clash: bool, c: Capture, i: Id) returns (o: Outcome)
      ensures o == if clash && ReplaysTimeOut(View(), c.trainee, c.clientAction, i) then Replayed(i) else failed
    {
      if clash && ReplaysTimeOut(View(), c.trainee, c.clientAction, i) { return Replayed(i); }
      return failed;
    }

    method TimeOut(c: Capture, i: Id, luck: PhotoLuck, commits: bool) returns (o: Outcome)
      requires Valid() && c.originalKey !in bucket.objects && c.watermarkedKey !in bucket.objects
      modifies this, bucket, outbox
      ensures Valid()
      ensures (View(), o) == Photographed(old(View()), ApplyTimeOut(cfg, old(View()), c, i), luck, commits)
      ensures outbox.rows == NotesAfter(cfg, old(View()), View(), old(outbox.rows), Event.TimeOut(c, i), o)
      ensures Committed(o) ==> bucket.objects == old(bucket.objects) + {c.originalKey, c.watermarkedKey}
      ensures !Committed(o) && luck.deleteOriginal && luck.deleteWatermarked ==> bucket.objects == old(bucket.objects)
      ensures old(bucket.objects) <= bucket.objects <= old(bucket.objects) + {c.originalKey, c.watermarkedKey}
    {
      ghost var before, rows := View(), outbox.rows;
      o := TimeOutSteps(c, i, luck, commits);
      TimeOutNotes(cfg, before, View(), rows, c, i, o);
      TimeOutKeeps(cfg, before, c, i);
    }

    method TimeOutSteps(c: Capture, i: Id, luck: PhotoLuck, commits: bool) returns (o: Outcome)
      requires c.originalKey !in bucket.objects && c.watermarkedKey !in bucket.objects
      modifies this, bucket, outbox
      ensures (View(), o) == Photographed(old(View()), ApplyTimeOut(cfg, old(View()), c, i), luck, commits)
      ensures o.Created? ==> i < |sessions| && outbox.rows == NotifyCompletion(cfg, View(), old(outbox.rows), sessions[i].trainee, sessions[i].assignment)
      ensures !o.Created? ==> outbox.rows == old(outbox.rows)
      ensures o.Created? ==> bucket.objects == old(bucket.objects) + {c.originalKey, c.watermarkedKey}
      ensures !o.Created? && luck.deleteOriginal && luck.deleteWatermarked ==> bucket.objects == old(bucket.objects)
      ensures old(bucket.objects) <= bucket.objects <= old(bucket.objects) + {c.originalKey, c.watermarkedKey}
    {
      if i >= |sessions| || sessions[i].trainee != c.trainee { return Refused(AttendanceNotFound); }
      var status := sessions[i].status;
      if ReplaysTimeOut(View(), c.trainee, c.clientAction, i) { return Replayed(i); }
      if status != Open { return Refused(AttendanceNotOpen); }
      var rule := RuleOf(View(), i);
      if MissingReason(c) { return Refused(LocationReasonRequired); }
      var stored := bucket.StoreEvidence(c.originalKey, c.watermarkedKey, luck);
      if !stored { return Refused(StorageUnavailable); }
      var clash;
      o, clash := CloseAttendance(c, i, rule, commits);
      if !o.Created? {
        bucket.Cleanup(c.originalKey, c.watermarkedKey, luck);
        o := CanonicalTimeOut(o, clash, c, i);
      }
    }

    /** The progress shown after a Time Out. */
    method ProgressOf(assignment: Id) returns (p: ProgressView)
      requires Valid() && assignment < |assignments|
      ensures p.completed == CompletedMinutes(View(), assignment) && p.required == assignments[assignment].required
      ensures p.remaining == if p.completed < p.required then p.required - p.completed else 0
      ensures p.percent == ProgressPercent(p.completed, p.required)
      ensures p.percent == 100 <==> Reached(View(), assignments[assignment].trainee, assignment)
    {
      var completed := Sum(sessions, ByStatus(assignment));
      var required := assignments[assignment].required;
      SumsAgree(View(), assignment);
      ProgressMonotoneAndExact(completed, completed, required);
      return ProgressView(completed, required, Max(required - completed, 0), ProgressPercent(completed, required));
    }

    // ---- Corrections ----

    /** A request validates against the time-in it reads first. */
    method Request(p: Proposal, commits: bool) returns (o: Outcome)
      requires Valid()
      modifies this
      ensures Valid()
      ensures var seen := if p.session < |old(sessions)| then p.(seenIn := old(sessions)[p.session].effectiveIn) else p;
        Did(old(View()), View(), o, ApplyRequest(old(View()), seen), commits)
    {
      if p.session >= |sessions| || sessions[p.session].trainee != p.trainee { return Refused(NotFound); }
      var seen := p.(seenIn := sessions[p.session].effectiveIn);
      RequestKeeps(View(), seen);
      var error := ValidateProposal(seen);
      if error.Some? { return Refused(error.value); }
      if Find(corrections, PendingFor(p.session)).Some? { return Refused(CorrectionAlreadyPending); }
      if !commits { return Refused(Internal); }
      o := Created(|corrections|);
      corrections := corrections + [Correction(p.session, p.trainee, p.kind, p.proposedIn, p.proposedOut, Pending)];
    }

    /** The approval branch of Decide, inside its transaction. */
    method Approve(k: Id, now: Time) returns (o: Outcome)
      requires Valid() && k < |corrections| && corrections[k].attendance < |sessions| && corrections[k].status == Pending
      modifies this
      ensures var i := old(corrections)[k].attendance;
        (View(), o) == ApproveWith(old(View()), k, old(sessions)[i].effectiveIn, old(sessions)[i].effectiveOut, RuleOf(old(View()), i), now)
    {
      var c := corrections[k];
      var i := c.attendance;
      var curIn, curOut, assignment := sessions[i].effectiveIn, sessions[i].effectiveOut, sessions[i].assignment;
      var newIn := curIn;
      if c.proposedIn.Some? { newIn := c.proposedIn.value; }
      var newOut := curOut;
      if c.proposedOut.Some? { newOut := c.proposedOut; }
      if newOut.Some? && newOut.value <= newIn { return Refused(InvalidEffectiveDuration); }
      var rule := RuleOf(View(), i);
      var credited: Option<int> := None;
      if newOut.Some? { credited := Some(CreditedMinutes(newIn, newOut.value, rule).credited); }
      if Find(adjustments, FromCorrection(k)).Some? { return Refused(Internal); }
      ghost var saved := View();
      adjustments := adjustments + [Adjustment(i, k, newIn, newOut, credited)];
      UpdateEffective(i, newIn, newOut, credited, rule, curOut, now);
      corrections := corrections[k := c.(status := Approved)];
      if newOut.Some? && curOut.None? { CreateJournal(i, c.trainee); }
      assert View() == ApproveRows(saved, k, curIn, curOut, rule, now);
      return Done;
    }

    /** The two UPDATE statements of an approval on the session row. */
    method UpdateEffective(i: Id, newIn: Time, newOut: Option<Time>, credited: Option<int>, rule: BreakRule, curOut: Option<Time>, now: Time)
      requires i < |sessions|
      requires credited == if newOut.Some? then Some(CreditedMinutes(newIn, newOut.value, rule).credited) else None
      modifies this`sessions
      ensures sessions == old(sessions)[i := Projected(old(sessions)[i], newIn, newOut, rule, curOut, now)]
    {
      var row := sessions[i];
      sessions := sessions[i := row.(
        effectiveIn := newIn, effectiveOut := newOut,
        credited := if credited.Some? then credited else row.credited,
        ruleUsed := if credited.Some? then Some(rule) else row.ruleUsed,
        status := Corrected, version := row.version + 1)];
      if newOut.Some? && curOut.None? {
        row := sessions[i];
        sessions := sessions[i := row.(closedAt := if row.closedAt.Some? then row.closedAt else Some(now))];
      }
    }

    /** The writes of either verdict on a pending correction. */
    method Settle(k: Id, verdict: Verdict, now: Time) returns (o: Outcome)
      requires Valid() && k < |corrections| && corrections[k].status == Pending && verdict != UnknownVerdict
      modifies this
      ensures (View(), o) == ApplyDecide(old(View()), k, verdict, now) && Valid() && !o.Replayed? && !o.Created?
      ensures |corrections| == |old(corrections)| && corrections[k].attendance == old(corrections)[k].attendance
    {
      DecideKeeps(View(), k, verdict, now);
      if verdict == Reject {
        corrections := corrections[k := corrections[k].(status := Rejected)];
        return Done;
      }
      o := Approve(k, now);
    }

    /** The milestone of an approval, then the decision itself. */
    method NotifyDecision(ghost before: Db, k: Id, verdict: Verdict, now: Time)
      requires Valid() && verdict != UnknownVerdict && k < |corrections| && k < |before.corrections|
      requires before.corrections[k].attendance == corrections[k].attendance
      modifies outbox
      ensures outbox.rows == NotesAfter(cfg, before, View(), old(outbox.rows), Event.Decide(k, verdict, now), Done)
    {
      var i, trainee := corrections[k].attendance, corrections[k].trainee;
      DecisionNotes(cfg, before, View(), outbox.rows, k, verdict, now, sessions[i].assignment);
      if verdict == Verdict.Approve { outbox.NotifyCompletionIfReached(cfg, View(), trainee, sessions[i].assignment); }
      var _ := outbox.Create(Note(cfg.userOf(trainee), Decision(k, verdict == Verdict.Approve)));
    }

    method Decide(k: Id, verdict: Verdict, now: Time, commits: bool) returns (o: Outcome)
      requires Valid()
      modifies this, outbox
      ensures Valid()
      ensures Did(old(View()), View(), o, ApplyDecide(old(View()), k, verdict, now), commits)
      ensures outbox.rows == NotesAfter(cfg, old(View()), View(), old(outbox.rows), Event.Decide(k, verdict, now), o)
    {
      if verdict == UnknownVerdict { return Refused(Validation); }
      if k >= |corrections| { return Refused(NotFound); }
      if corrections[k].status != Pending { return Refused(CorrectionNotPending); }
      o := DecidePending(k, verdict, now, commits);
    }

    method DecidePending(k: Id, verdict: Verdict, now: Time, commits: bool) returns (o: Outcome)
      requires Valid() && k < |corrections| && corrections[k].status == Pending && verdict != UnknownVerdict
      modifies this, outbox
      ensures Valid()
      ensures Did(old(View()), View(), o, ApplyDecide(old(View()), k, verdict, now), commits)
      ensures outbox.rows == NotesAfter(cfg, old(View()), View(), old(outbox.rows), Event.Decide(k, verdict, now), o)
    {
      var saved, savedRows := View(), outbox.rows;
      o := Settle(k, verdict, now);
      if o.Refused? { return; }
      NotifyDecision(saved, k, verdict, now);
      if !commits {
        Restore(saved);
        outbox.rows := savedRows;
        return Refused(Internal);
      }
    }

    // ---- Journals ----

    /** One guarded UPDATE; no row affected means not editable. */
    method SaveDraft(k: Id, text: string) returns (o: Outcome)
      requires Valid()
      modifies this
      ensures Valid() && (View(), o) == ApplySaveDraft(old(View()), k, text)
    {
      SaveDraftKeeps(View(), k, text);
      if k >= |journals| || !Editable(journals[k].status) { return Refused(JournalNotEditable); }
      journals := journals[k := journals[k].(narrative := Some(text))];
      return Done;
    }

    method Submit(k: Id, text: string, commits: bool) returns (o: Outcome)
      requires Valid()
      modifies this
      ensures Valid()
      ensures Did(old(View()), View(), o, ApplySubmit(old(View()), k, text), commits)
    {
      SubmitKeeps(View(), k, text);
      var narrative := TrimSpace(text);
      if ByteLength(narrative) < NARRATIVE_MIN_BYTES { return Refused(NarrativeRequired); }
      if k >= |journals| { return Refused(NotFound); }
      if !Editable(journals[k].status) { return Refused(JournalNotEditable); }
      if !commits { return Refused(Internal); }
      journals := journals[k := journals[k].(narrative := Some(narrative), status := Submitted)];
      return Done;
    }

    method WriteReview(k: Id, reviewer: Id, decision: JournalStatus, comment: Option<string>)
      requires k < |journals| && journals[k].status == Submitted && ReviewAllowed(decision, comment)
      modifies this`reviews, this`journals
      ensures (View(), Done) == ApplyReview(old(View()), k, reviewer, decision, comment)
    {
      reviews := reviews + [Schema.Review(k, reviewer, decision, comment)];
      var more := if decision == NeedsRevision then 1 else 0;
      journals := journals[k := journals[k].(status := decision, revisions := journals[k].revisions + more)];
    }

    method Review(k: Id, reviewer: Id, decision: JournalStatus, comment: Option<string>, commits: bool) returns (o: Outcome)
      requires Valid()
      modifies this, outbox
      ensures Valid()
      ensures Did(old(View()), View(), o, ApplyReview(old(View()), k, reviewer, decision, comment), commits)
      ensures outbox.rows == NotesAfter(cfg, old(View()), View(), old(outbox.rows), ReviewJournal(k, reviewer, decision, comment), o)
    {
      if decision != Reviewed && decision != NeedsRevision { return Refused(Validation); }
      if decision == NeedsRevision && (comment.None? || TrimSpace(comment.value) == "") { return Refused(ReviewCommentRequired); }
      if k >= |journals| { return Refused(NotFound); }
      if journals[k].status != Submitted { return Refused(JournalNotSubmitted); }
      o := ReviewSubmitted(k, reviewer, decision, comment, commits);
    }

    method ReviewSubmitted(k: Id, reviewer: Id, decision: JournalStatus, comment: Option<string>, commits: bool) returns (o: Outcome)
      requires Valid() && k < |journals| && journals[k].status == Submitted && ReviewAllowed(decision, comment)
      modifies this, outbox
      ensures Valid()
      ensures Did(old(View()), View(), o, ApplyReview(old(View()), k, reviewer, decision, comment), commits)
      ensures outbox.rows == NotesAfter(cfg, old(View()), View(), old(outbox.rows), ReviewJournal(k, reviewer, decision, comment), o)
    {
      var saved, savedRows := View(), outbox.rows;
      ReviewKeeps(saved, k, reviewer, decision, comment);
      WriteReview(k, reviewer, decision, comment);
      var count := Count(reviews, ReviewOf(k));
      ReviewNotes(cfg, saved, View(), savedRows, ReviewJournal(k, reviewer, decision, comment));
      var _ := outbox.Create(Note(cfg.userOf(journals[k].trainee), ReviewNumber(k, count)));
      if !commits {
        Restore(saved);
        outbox.rows := savedRows;
        return Refused(Internal);
      }
      return Done;
    }

    // ---- Staff edits of assignments ----

    method EditAssignments(edited: seq<Assignment>) returns (o: Outcome)
      requires Valid()
      modifies this
      ensures Valid() && (View(), o) == ApplyEdit(old(View()), edited)
    {
      EditKeeps(View(), edited);
      if !EditAllowed(assignments, edited) { return Refused(Validation); }
      assignments := edited;
      return Done;
    }
  }
}
