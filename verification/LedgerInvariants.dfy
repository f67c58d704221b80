/** What every transaction of the ledger keeps. The redundant columns of a session
    row (version, status, effective times, credited minutes, closed_at) are related
    to the rows of the other tables that mention it. */
module LedgerInvariants {
  import opened Common
  import opened Hours
  import opened Schema
  import opened Ledger

  type Times = (Time, Option<Time>)

  /** The original times overlaid, in commit order, by the non-null proposals of
      the approved corrections of session i. */
  function Overlay(i: Id, base: Times, adjustments: seq<Adjustment>, corrections: seq<Correction>): Times {
    if adjustments == [] then base
    else
      var n := |adjustments| - 1;
      var before := Overlay(i, base, adjustments[..n], corrections);
      var a := adjustments[n];
      if a.attendance == i && a.correction < |corrections| then
        (corrections[a.correction].proposedIn.GetOr(before.0), ProposedOr(corrections[a.correction].proposedOut, before.1))
      else before
  }

  function Originals(s: Session): Times { (s.originalIn, s.originalOut) }

  function OverlayOf(db: Db, i: Id): Times
    requires i < |db.sessions|
  {
    Overlay(i, Originals(db.sessions[i]), db.adjustments, db.corrections)
  }

  /** A session row agrees with the aggregates of the rows that mention it. */
  ghost predicate Agrees(s: Session, outs: nat, adjusted: nat, journals: nat, overlay: Times) {
    var closed := s.effectiveOut.Some?;
    && outs == (if s.originalOut.Some? then 1 else 0)
    && s.version == 1 + outs + adjusted
    && overlay == (s.effectiveIn, s.effectiveOut)
    && (s.status == Open <==> adjusted == 0 && s.originalOut.None?)
    && (s.status == Valid <==> adjusted == 0 && s.originalOut.Some? && s.flags == [])
    && (s.status == Flagged <==> adjusted == 0 && s.originalOut.Some? && s.flags != [])
    && s.credited.Some? == closed
    && s.closedAt.Some? == closed
    && s.ruleUsed.Some? == closed
    && journals == (if closed then 1 else 0)
    && (closed ==> s.effectiveOut.value > s.effectiveIn)
    && (closed ==> s.credited.value == CreditedMinutes(s.effectiveIn, s.effectiveOut.value, s.ruleUsed.value).credited)
    && (s.originalOut.Some? ==> s.originalOut.value > s.originalIn)
  }

  ghost predicate SessionOk(db: Db, i: Id)
    requires i < |db.sessions|
  {
    && Count(db.evidence, EvidenceOf(i, TimeInAction)) == 1
    && Agrees(db.sessions[i], Count(db.evidence, EvidenceOf(i, TimeOutAction)),
              Count(db.adjustments, AdjustmentOf(i)), Count(db.journals, JournalOf(i)), OverlayOf(db, i))
  }

  /** Foreign keys, with the trainee copied into every child row. */
  ghost predicate Links(db: Db) {
    && (forall i :: 0 <= i < |db.sessions| ==>
          && db.sessions[i].assignment < |db.assignments|
          && db.assignments[db.sessions[i].assignment].trainee == db.sessions[i].trainee)
    && (forall k :: 0 <= k < |db.evidence| ==>
          db.evidence[k].attendance < |db.sessions| && db.sessions[db.evidence[k].attendance].trainee == db.evidence[k].trainee)
    && (forall k :: 0 <= k < |db.corrections| ==>
          db.corrections[k].attendance < |db.sessions| && db.sessions[db.corrections[k].attendance].trainee == db.corrections[k].trainee)
    && (forall k :: 0 <= k < |db.adjustments| ==>
          && db.adjustments[k].correction < |db.corrections|
          && db.corrections[db.adjustments[k].correction].attendance == db.adjustments[k].attendance)
    && (forall k :: 0 <= k < |db.journals| ==>
          db.journals[k].attendance < |db.sessions| && db.sessions[db.journals[k].attendance].trainee == db.journals[k].trainee)
    && (forall k :: 0 <= k < |db.reviews| ==> db.reviews[k].journal < |db.journals|)
  }

  /** The unique indexes. */
  ghost predicate Unique(db: Db) {
    && OneActive(db.assignments)
    && (forall i :: 0 <= i < |db.assignments| ==> db.assignments[i].required > 0)
    && (forall i, j :: 0 <= i < j < |db.sessions| ==>
          db.sessions[i].trainee != db.sessions[j].trainee || db.sessions[i].date != db.sessions[j].date)
    && (forall k, l :: 0 <= k < l < |db.evidence| ==>
          db.evidence[k].trainee != db.evidence[l].trainee || db.evidence[k].clientAction != db.evidence[l].clientAction)
    && (forall k, l :: 0 <= k < l < |db.corrections| && db.corrections[k].status == Pending && db.corrections[l].status == Pending ==>
          db.corrections[k].attendance != db.corrections[l].attendance)
  }

  /** Adjustments correspond one to one with approved corrections. */
  ghost predicate Matched(db: Db) {
    forall k :: 0 <= k < |db.corrections| ==>
      Count(db.adjustments, FromCorrection(k)) == (if db.corrections[k].status == Approved then 1 else 0)
  }

  /** Each adjustment row records the projection that held right after it. */
  ghost predicate Recorded(db: Db) {
    forall k :: 0 <= k < |db.adjustments| && db.adjustments[k].attendance < |db.sessions| ==>
      && (db.adjustments[k].effectiveIn, db.adjustments[k].effectiveOut)
         == Overlay(db.adjustments[k].attendance, Originals(db.sessions[db.adjustments[k].attendance]), db.adjustments[..k + 1], db.corrections)
      && db.adjustments[k].credited.Some? == db.adjustments[k].effectiveOut.Some?
  }

  ghost predicate Inv(db: Db) {
    && Links(db)
    && Unique(db)
    && Matched(db)
    && Recorded(db)
    && forall i :: 0 <= i < |db.sessions| ==> SessionOk(db, i)
  }

  // ---- Overlay lemmas ----

  lemma OverlayAppend(i: Id, base: Times, adjs: seq<Adjustment>, a: Adjustment, corrs: seq<Correction>)
    ensures Overlay(i, base, adjs + [a], corrs) ==
            var before := Overlay(i, base, adjs, corrs);
            if a.attendance == i && a.correction < |corrs| then
              (corrs[a.correction].proposedIn.GetOr(before.0), ProposedOr(corrs[a.correction].proposedOut, before.1))
            else before
  {
    assert (adjs + [a])[..|adjs|] == adjs;
  }

  lemma {:induction false} OverlayUntouched(i: Id, base: Times, adjs: seq<Adjustment>, corrs: seq<Correction>)
    requires Count(adjs, AdjustmentOf(i)) == 0
    ensures Overlay(i, base, adjs, corrs) == base
  {
    if adjs != [] {
      CountNone(adjs, AdjustmentOf(i));
      assert !AdjustmentOf(i)(adjs[|adjs| - 1]);
      OverlayUntouched(i, base, adjs[..|adjs| - 1], corrs);
    }
  }

  /** The overlay reads proposals only, and only of corrections already filed. */
  lemma {:induction false} OverlayReadsProposals(i: Id, base: Times, adjs: seq<Adjustment>, corrs: seq<Correction>, later: seq<Correction>)
    requires |corrs| <= |later|
    requires forall k :: 0 <= k < |adjs| ==> adjs[k].correction < |corrs|
    requires forall k :: 0 <= k < |corrs| ==>
      later[k].proposedIn == corrs[k].proposedIn && later[k].proposedOut == corrs[k].proposedOut
    ensures Overlay(i, base, adjs, corrs) == Overlay(i, base, adjs, later)
  {
    if adjs != [] {
      var n := |adjs| - 1;
      assert forall k :: 0 <= k < n ==> adjs[..n][k] == adjs[k];
      assert adjs[n].correction < |corrs|;
      OverlayReadsProposals(i, base, adjs[..n], corrs, later);
    }
  }

  // ---- Time In ----

  lemma NewRowsAreUnmentioned(db: Db)
    requires Links(db)
    ensures Count(db.evidence, EvidenceOf(|db.sessions|, TimeInAction)) == 0
    ensures Count(db.evidence, EvidenceOf(|db.sessions|, TimeOutAction)) == 0
    ensures Count(db.adjustments, AdjustmentOf(|db.sessions|)) == 0
    ensures Count(db.journals, JournalOf(|db.sessions|)) == 0
  {
    CountNone(db.evidence, EvidenceOf(|db.sessions|, TimeInAction));
    CountNone(db.evidence, EvidenceOf(|db.sessions|, TimeOutAction));
    CountNone(db.adjustments, AdjustmentOf(|db.sessions|));
    CountNone(db.journals, JournalOf(|db.sessions|));
  }

  lemma TimeInKeeps(cfg: Config, db: Db, c: Capture)
    requires Inv(db)
    ensures Inv(ApplyTimeIn(cfg, db, c).0)
  {
    var (after, outcome) := ApplyTimeIn(cfg, db, c);
    if outcome.Created? {
      var day := cfg.localDate(c.now);
      var site := ActiveSite(db, c.trainee, day).value;
      assert after == OpenSession(db, c, site, day);
      assert db.assignments[site].trainee == c.trainee;
      TimeInLinks(db, c, site, day, after);
      OpenKeepsSessions(db, c, site, day, after);
    }
  }

  lemma OpenKeepsSessions(db: Db, c: Capture, site: Id, day: Date, after: Db)
    requires Links(db) && (forall i :: 0 <= i < |db.sessions| ==> SessionOk(db, i)) && after == OpenSession(db, c, site, day)
    ensures forall i :: 0 <= i < |after.sessions| ==> SessionOk(after, i)
  {
    forall i | 0 <= i < |after.sessions| ensures SessionOk(after, i) {
      if i < |db.sessions| {
        assert SessionOk(db, i);
        OpenLeavesOthers(db, c, site, day, after, i);
      } else {
        OpenedRowAgrees(db, c, site, day, after);
      }
    }
  }

  lemma OpenLeavesOthers(db: Db, c: Capture, site: Id, day: Date, after: Db, i: Id)
    requires i < |db.sessions| && SessionOk(db, i) && after == OpenSession(db, c, site, day)
    ensures SessionOk(after, i)
  {
    var row := EvidenceRow(c, |db.sessions|, TimeInAction);
    CountAppend(db.evidence, row, EvidenceOf(i, TimeInAction));
    CountAppend(db.evidence, row, EvidenceOf(i, TimeOutAction));
  }

  lemma OpenedRowAgrees(db: Db, c: Capture, site: Id, day: Date, after: Db)
    requires Links(db) && after == OpenSession(db, c, site, day)
    ensures SessionOk(after, |db.sessions|)
  {
    var i := |db.sessions|;
    var row := EvidenceRow(c, i, TimeInAction);
    NewRowsAreUnmentioned(db);
    CountAppend(db.evidence, row, EvidenceOf(i, TimeInAction));
    CountAppend(db.evidence, row, EvidenceOf(i, TimeOutAction));
    OverlayUntouched(i, Originals(after.sessions[i]), db.adjustments, db.corrections);
  }

  lemma TimeInLinks(db: Db, c: Capture, site: Id, day: Date, after: Db)
    requires Inv(db) && site < |db.assignments| && db.assignments[site].trainee == c.trainee
    requires Find(db.sessions, OnDay(c.trainee, day)).None?
    requires Find(db.evidence, WithAction(c.trainee, c.clientAction)).None?
    requires after == OpenSession(db, c, site, day)
    ensures Links(after) && Unique(after) && Matched(after) && Recorded(after)
  {
    TimeInUnique(db, c, site, day, after);
  }

  lemma TimeInUnique(db: Db, c: Capture, site: Id, day: Date, after: Db)
    requires Unique(db)
    requires Find(db.sessions, OnDay(c.trainee, day)).None?
    requires Find(db.evidence, WithAction(c.trainee, c.clientAction)).None?
    requires after == OpenSession(db, c, site, day)
    ensures Unique(after)
  {
    forall i | 0 <= i < |db.sessions|
      ensures db.sessions[i].trainee != c.trainee || db.sessions[i].date != day
    {
      assert !OnDay(c.trainee, day)(db.sessions[i]);
    }
    forall k | 0 <= k < |db.evidence|
      ensures db.evidence[k].trainee != c.trainee || db.evidence[k].clientAction != c.clientAction
    {
      assert !WithAction(c.trainee, c.clientAction)(db.evidence[k]);
    }
  }

  // ---- Time Out ----

  lemma EnsureJournalCounts(journals: seq<Journal>, i: Id, trainee: Id, other: Id)
    ensures var after := EnsureJournal(journals, i, trainee);
            Count(after, JournalOf(other)) ==
            if other == i && Count(journals, JournalOf(i)) == 0 then 1 else Count(journals, JournalOf(other))
  {
    CountNone(journals, JournalOf(i));
    CountAppend(journals, Journal(i, trainee, None, Draft, 0), JournalOf(other));
  }

  lemma TimeOutKeeps(cfg: Config, db: Db, c: Capture, i: Id)
    requires Inv(db)
    ensures Inv(ApplyTimeOut(cfg, db, c, i).0)
  {
    var (after, outcome) := ApplyTimeOut(cfg, db, c, i);
    if outcome.Created? {
      TimeOutLinks(cfg, db, c, i);
      CloseKeepsSessions(cfg, db, c, i, after);
    }
  }

  lemma CloseKeepsSessions(cfg: Config, db: Db, c: Capture, i: Id, after: Db)
    requires Inv(db) && i < |db.sessions| && db.sessions[i].status == Open && CloseAllowed(db.sessions[i], c.now)
    requires after == CloseSession(cfg, db, c, i, db.sessions[i].effectiveIn, db.sessions[i].flags, RuleOf(db, i))
    ensures forall k :: 0 <= k < |after.sessions| ==> SessionOk(after, k)
  {
    forall k | 0 <= k < |after.sessions| ensures SessionOk(after, k) {
      assert SessionOk(db, k);
      if k == i {
        ClosedRowAgrees(cfg, db, c, i, after);
      } else {
        OtherRowAgrees(db, i, EvidenceRow(c, i, TimeOutAction), c.trainee, k, after);
      }
    }
  }

  lemma ClosedRowAgrees(cfg: Config, db: Db, c: Capture, i: Id, after: Db)
    requires i < |db.sessions| && SessionOk(db, i) && db.sessions[i].status == Open && CloseAllowed(db.sessions[i], c.now)
    requires after == CloseSession(cfg, db, c, i, db.sessions[i].effectiveIn, db.sessions[i].flags, RuleOf(db, i))
    ensures SessionOk(after, i)
  {
    var row, s := EvidenceRow(c, i, TimeOutAction), db.sessions[i];
    CountAppend(db.evidence, row, EvidenceOf(i, TimeInAction));
    CountAppend(db.evidence, row, EvidenceOf(i, TimeOutAction));
    EnsureJournalCounts(db.journals, i, c.trainee, i);
    OverlayUntouched(i, Originals(s), db.adjustments, db.corrections);
    OverlayUntouched(i, Originals(after.sessions[i]), db.adjustments, db.corrections);
    ClosedAgrees(cfg, s, c, RuleOf(db, i), Count(db.adjustments, AdjustmentOf(i)));
  }

  /** The closed row agrees with one time-out, one journal and no adjustment. */
  lemma ClosedAgrees(cfg: Config, s: Session, c: Capture, rule: BreakRule, adjusted: nat)
    requires s.status == Open && adjusted == 0 && s.version == 1 && s.originalOut.None? && s.effectiveIn == s.originalIn
    requires CloseAllowed(s, c.now)
    ensures Agrees(Closed(cfg, s, c, s.effectiveIn, s.flags, rule), 1, adjusted, 1, (s.originalIn, Some(c.now)))
  {
  }

  /** The rows written for session i do not disturb session k. */
  lemma OtherRowAgrees(db: Db, i: Id, row: Evidence, trainee: Id, k: Id, after: Db)
    requires i < |db.sessions| && k < |db.sessions| && k != i && SessionOk(db, k) && row.attendance == i
    requires after == db.(evidence := db.evidence + [row], sessions := after.sessions, journals := EnsureJournal(db.journals, i, trainee))
    requires |after.sessions| == |db.sessions| && after.sessions[k] == db.sessions[k]
    ensures SessionOk(after, k)
  {
    CountAppend(db.evidence, row, EvidenceOf(k, TimeInAction));
    CountAppend(db.evidence, row, EvidenceOf(k, TimeOutAction));
    EnsureJournalCounts(db.journals, i, trainee, k);
  }

  /** The links and indexes survive a new version of session row i, given the
      rows appended beside it. */
  lemma RowUpdateKeepsLinks(db: Db, i: Id, s: Session, row: Evidence, journals: seq<Journal>, after: Db)
    requires Links(db) && i < |db.sessions|
    requires s.trainee == db.sessions[i].trainee && s.assignment == db.sessions[i].assignment
    requires row.attendance == i && row.trainee == s.trainee
    requires journals == EnsureJournal(db.journals, i, s.trainee)
    requires after == db.(evidence := db.evidence + [row], sessions := db.sessions[i := s], journals := journals)
    ensures Links(after)
  {
  }

  lemma RowUpdateKeepsUnique(db: Db, i: Id, s: Session, row: Evidence, journals: seq<Journal>, after: Db)
    requires Unique(db) && i < |db.sessions|
    requires s.trainee == db.sessions[i].trainee && s.date == db.sessions[i].date
    requires Find(db.evidence, WithAction(row.trainee, row.clientAction)).None?
    requires after == db.(evidence := db.evidence + [row], sessions := db.sessions[i := s], journals := journals)
    ensures Unique(after)
  {
    forall k | 0 <= k < |db.evidence|
      ensures db.evidence[k].trainee != row.trainee || db.evidence[k].clientAction != row.clientAction
    {
      assert !WithAction(row.trainee, row.clientAction)(db.evidence[k]);
    }
  }

  lemma RowUpdateKeepsRecorded(db: Db, i: Id, s: Session, after: Db)
    requires Recorded(db) && Matched(db) && i < |db.sessions|
    requires Count(db.adjustments, AdjustmentOf(i)) == 0
    requires after.adjustments == db.adjustments && after.corrections == db.corrections
    requires after.sessions == db.sessions[i := s]
    ensures Recorded(after) && Matched(after)
  {
    CountNone(db.adjustments, AdjustmentOf(i));
    forall k | 0 <= k < |db.adjustments| ensures db.adjustments[k].attendance != i {
      assert !AdjustmentOf(i)(db.adjustments[k]);
    }
  }

  lemma TimeOutLinks(cfg: Config, db: Db, c: Capture, i: Id)
    requires Inv(db) && ApplyTimeOut(cfg, db, c, i).1.Created?
    ensures var after := ApplyTimeOut(cfg, db, c, i).0;
            Links(after) && Unique(after) && Matched(after) && Recorded(after)
  {
    var after := ApplyTimeOut(cfg, db, c, i).0;
    assert SessionOk(db, i);
    var row := EvidenceRow(c, i, TimeOutAction);
    RowUpdateKeepsLinks(db, i, after.sessions[i], row, after.journals, after);
    RowUpdateKeepsUnique(db, i, after.sessions[i], row, after.journals, after);
    RowUpdateKeepsRecorded(db, i, after.sessions[i], after);
  }

  // ---- Corrections ----

  lemma RequestLinks(db: Db, c: Correction, after: Db)
    requires Links(db) && Unique(db) && Matched(db)
    requires c.attendance < |db.sessions| && db.sessions[c.attendance].trainee == c.trainee && c.status == Pending
    requires Find(db.corrections, PendingFor(c.attendance)).None?
    requires after == db.(corrections := db.corrections + [c])
    ensures Links(after) && Unique(after) && Matched(after)
  {
    RequestMatched(db, c, after);
    forall k | 0 <= k < |db.corrections| && db.corrections[k].status == Pending
      ensures db.corrections[k].attendance != c.attendance
    {
      assert !PendingFor(c.attendance)(db.corrections[k]);
    }
  }

  lemma RequestMatched(db: Db, c: Correction, after: Db)
    requires Links(db) && Matched(db) && c.status == Pending
    requires after.corrections == db.corrections + [c] && after.adjustments == db.adjustments
    ensures Matched(after)
  {
    var n := |db.corrections|;
    forall k | 0 <= k < |db.adjustments| ensures !FromCorrection(n)(db.adjustments[k]) {
      assert db.adjustments[k].correction < n;
    }
    CountNone(db.adjustments, FromCorrection(n));
  }

  lemma RequestKeeps(db: Db, p: Proposal)
    requires Inv(db)
    ensures Inv(ApplyRequest(db, p).0)
  {
    var (after, outcome) := ApplyRequest(db, p);
    if outcome.Created? {
      RequestLinks(db, after.corrections[|db.corrections|], after);
      SameProposalsKeep(db, after);
    }
  }

  /** A change of the corrections table that keeps every proposal keeps every
      session row's agreement and every recorded adjustment. */
  lemma SameProposalsKeep(db: Db, after: Db)
    requires Inv(db) && |db.corrections| <= |after.corrections|
    requires after == db.(corrections := after.corrections)
    requires forall k :: 0 <= k < |db.corrections| ==>
      && after.corrections[k].proposedIn == db.corrections[k].proposedIn
      && after.corrections[k].proposedOut == db.corrections[k].proposedOut
    ensures Recorded(after)
    ensures forall i :: 0 <= i < |after.sessions| ==> SessionOk(after, i)
  {
    forall i | 0 <= i < |after.sessions| ensures SessionOk(after, i) {
      assert SessionOk(db, i);
      OverlayReadsProposals(i, Originals(db.sessions[i]), db.adjustments, db.corrections, after.corrections);
    }
    forall k | 0 <= k < |db.adjustments| && db.adjustments[k].attendance < |db.sessions|
      ensures var a := db.adjustments[k]; var b := Originals(db.sessions[a.attendance]);
              Overlay(a.attendance, b, db.adjustments[..k + 1], after.corrections) == (a.effectiveIn, a.effectiveOut)
    {
      var a := db.adjustments[k];
      assert forall m :: 0 <= m < k + 1 ==> db.adjustments[..k + 1][m] == db.adjustments[m];
      OverlayReadsProposals(a.attendance, Originals(db.sessions[a.attendance]), db.adjustments[..k + 1], db.corrections, after.corrections);
    }
  }

  lemma RejectKeeps(db: Db, k: Id)
    requires Inv(db) && k < |db.corrections| && db.corrections[k].status == Pending
    ensures Inv(RejectRow(db, k))
  {
    SameProposalsKeep(db, RejectRow(db, k));
  }

  /** Marking the correction approved, before its adjustment row is added, disturbs
      only the one-to-one match. */
  lemma ApproveKeeps(db: Db, k: Id, rule: BreakRule, now: Time)
    requires Inv(db) && k < |db.corrections| && db.corrections[k].status == Pending
    requires var s := db.sessions[db.corrections[k].attendance];
             ApproveWith(db, k, s.effectiveIn, s.effectiveOut, rule, now).1.Done?
    ensures var s := db.sessions[db.corrections[k].attendance];
            Inv(ApproveRows(db, k, s.effectiveIn, s.effectiveOut, rule, now))
  {
    var i := db.corrections[k].attendance;
    var s := db.sessions[i];
    var after := ApproveRows(db, k, s.effectiveIn, s.effectiveOut, rule, now);
    var marked := db.(corrections := after.corrections);
    SameProposalsKeep(db, marked);
    var n := |db.adjustments|;
    var row := after.adjustments[n];
    assert after.adjustments == db.adjustments + [row];
    ApproveLinks(db, k, rule, now);
    assert SessionOk(marked, i);
    forall m | 0 <= m < |after.sessions| ensures SessionOk(after, m) {
      assert SessionOk(marked, m);
      ApproveSession(db, k, rule, now, marked, after, m);
    }
    ApproveRecorded(db, marked, after, k, row);
  }

  lemma ApproveSession(db: Db, k: Id, rule: BreakRule, now: Time, marked: Db, after: Db, m: Id)
    requires Links(db) && k < |db.corrections| && m < |db.sessions|
    requires marked == db.(corrections := db.corrections[k := db.corrections[k].(status := Approved)]) && SessionOk(marked, m)
    requires var s := db.sessions[db.corrections[k].attendance];
      && after == ApproveRows(db, k, s.effectiveIn, s.effectiveOut, rule, now)
      && ApproveWith(db, k, s.effectiveIn, s.effectiveOut, rule, now).1.Done?
    ensures SessionOk(after, m)
  {
    var i := db.corrections[k].attendance;
    var row := after.adjustments[|db.adjustments|];
    CountAppend(db.adjustments, row, AdjustmentOf(m));
    OverlayAppend(m, Originals(db.sessions[m]), db.adjustments, row, after.corrections);
    EnsureJournalCounts(db.journals, i, db.corrections[k].trainee, m);
  }

  lemma ApproveRecorded(db: Db, marked: Db, after: Db, k: Id, row: Adjustment)
    requires k < |db.corrections| && db.corrections[k].attendance < |db.sessions| && Recorded(marked)
    requires marked == db.(corrections := after.corrections) && |after.corrections| == |db.corrections|
    requires after.adjustments == db.adjustments + [row] && |after.sessions| == |db.sessions|
    requires forall m :: 0 <= m < |db.sessions| ==> Originals(after.sessions[m]) == Originals(db.sessions[m])
    requires row.attendance == db.corrections[k].attendance && row.correction == k && row.credited.Some? == row.effectiveOut.Some?
    requires after.corrections[k].proposedIn == db.corrections[k].proposedIn && after.corrections[k].proposedOut == db.corrections[k].proposedOut
    requires var before := Overlay(row.attendance, Originals(db.sessions[row.attendance]), db.adjustments, after.corrections);
      (row.effectiveIn, row.effectiveOut) ==
        (db.corrections[k].proposedIn.GetOr(before.0), ProposedOr(db.corrections[k].proposedOut, before.1))
    ensures Recorded(after)
  {
    var n := |db.adjustments|;
    forall m | 0 <= m < |after.adjustments| && after.adjustments[m].attendance < |after.sessions|
      ensures var a := after.adjustments[m];
              && (a.effectiveIn, a.effectiveOut)
                 == Overlay(a.attendance, Originals(after.sessions[a.attendance]), after.adjustments[..m + 1], after.corrections)
              && a.credited.Some? == a.effectiveOut.Some?
    {
      if m < n {
        assert after.adjustments[..m + 1] == marked.adjustments[..m + 1];
        assert after.adjustments[m] == marked.adjustments[m];
      } else {
        assert after.adjustments[..m + 1] == after.adjustments;
        OverlayAppend(row.attendance, Originals(db.sessions[row.attendance]), db.adjustments, row, after.corrections);
      }
    }
  }

  lemma ApproveLinks(db: Db, k: Id, rule: BreakRule, now: Time)
    requires Inv(db) && k < |db.corrections| && db.corrections[k].status == Pending
    ensures var s := db.sessions[db.corrections[k].attendance];
            var after := ApproveRows(db, k, s.effectiveIn, s.effectiveOut, rule, now);
            Links(after) && Unique(after) && Matched(after)
  {
    var i := db.corrections[k].attendance;
    var s := db.sessions[i];
    var after := ApproveRows(db, k, s.effectiveIn, s.effectiveOut, rule, now);
    var row := after.adjustments[|db.adjustments|];
    ApproveRowLinks(db, k, after.sessions[i], row, after.journals, after);
    ApproveRowMatched(db, k, row, after);
  }

  lemma ApproveRowLinks(db: Db, k: Id, s: Session, row: Adjustment, journals: seq<Journal>, after: Db)
    requires Links(db) && Unique(db) && k < |db.corrections|
    requires var i := db.corrections[k].attendance;
             && s.trainee == db.sessions[i].trainee && s.assignment == db.sessions[i].assignment && s.date == db.sessions[i].date
             && row.attendance == i && row.correction == k
             && (journals == db.journals || journals == EnsureJournal(db.journals, i, s.trainee))
             && after == db.(adjustments := db.adjustments + [row], sessions := db.sessions[i := s],
                             corrections := db.corrections[k := db.corrections[k].(status := Approved)], journals := journals)
    ensures Links(after) && Unique(after)
  {
  }

  lemma ApproveRowMatched(db: Db, k: Id, row: Adjustment, after: Db)
    requires Matched(db) && k < |db.corrections| && db.corrections[k].status == Pending && row.correction == k
    requires after.adjustments == db.adjustments + [row]
    requires after.corrections == db.corrections[k := db.corrections[k].(status := Approved)]
    ensures Matched(after)
  {
    forall m | 0 <= m < |after.corrections|
      ensures Count(after.adjustments, FromCorrection(m)) == (if after.corrections[m].status == Approved then 1 else 0)
    {
      CountAppend(db.adjustments, row, FromCorrection(m));
    }
  }

  lemma DecideKeeps(db: Db, k: Id, verdict: Verdict, now: Time)
    requires Inv(db)
    ensures Inv(ApplyDecide(db, k, verdict, now).0)
  {
    if ApplyDecide(db, k, verdict, now).1.Done? {
      if verdict == Reject {
        RejectKeeps(db, k);
      } else {
        ApproveKeeps(db, k, RuleOf(db, db.corrections[k].attendance), now);
      }
    }
  }

  // ---- Journals and assignments ----

  lemma JournalUpdateKeeps(db: Db, k: Id, j: Journal, reviews: seq<Review>)
    requires Inv(db) && k < |db.journals|
    requires j.attendance == db.journals[k].attendance && j.trainee == db.journals[k].trainee
    requires forall m :: 0 <= m < |reviews| ==> reviews[m].journal < |db.journals|
    ensures Inv(db.(journals := db.journals[k := j], reviews := reviews))
  {
    var after := db.(journals := db.journals[k := j], reviews := reviews);
    forall i | 0 <= i < |after.sessions| ensures SessionOk(after, i) {
      assert SessionOk(db, i);
      CountUpdate(db.journals, k, j, JournalOf(i));
    }
  }

  lemma SaveDraftKeeps(db: Db, k: Id, text: string)
    requires Inv(db)
    ensures Inv(ApplySaveDraft(db, k, text).0)
  {
    if k < |db.journals| { JournalUpdateKeeps(db, k, SaveDraftRow(db.journals[k], text), db.reviews); }
  }

  lemma SubmitKeeps(db: Db, k: Id, text: string)
    requires Inv(db)
    ensures Inv(ApplySubmit(db, k, text).0)
  {
    if k < |db.journals| { JournalUpdateKeeps(db, k, SubmitRow(db.journals[k], text), db.reviews); }
  }

  lemma ReviewKeeps(db: Db, k: Id, reviewer: Id, decision: JournalStatus, comment: Option<string>)
    requires Inv(db)
    ensures Inv(ApplyReview(db, k, reviewer, decision, comment).0)
  {
    if k < |db.journals| {
      JournalUpdateKeeps(db, k, ReviewRow(db.journals[k], decision), db.reviews + [Review(k, reviewer, decision, comment)]);
    }
  }

  lemma EditKeeps(db: Db, edited: seq<Assignment>)
    requires Inv(db)
    ensures Inv(ApplyEdit(db, edited).0)
  {
    var after := ApplyEdit(db, edited).0;
    forall i | 0 <= i < |after.sessions| ensures SessionOk(after, i) {
      assert SessionOk(db, i);
    }
  }

  // ---- Every transaction, every run ----

  lemma StepKeeps(cfg: Config, db: Db, e: Event)
    requires Inv(db)
    ensures Inv(Apply(cfg, db, e).0)
  {
    match e
    case TimeIn(c) => TimeInKeeps(cfg, db, c);
    case TimeOut(c, i) => TimeOutKeeps(cfg, db, c, i);
    case Request(p) => RequestKeeps(db, p);
    case Decide(k, verdict, now) => DecideKeeps(db, k, verdict, now);
    case SaveDraft(k, text) => SaveDraftKeeps(db, k, text);
    case Submit(k, text) => SubmitKeeps(db, k, text);
    case ReviewJournal(k, reviewer, decision, comment) => ReviewKeeps(db, k, reviewer, decision, comment);
    case EditAssignments(edited) => EditKeeps(db, edited);
  }

  lemma {:induction false} RunKeeps(cfg: Config, es: seq<Event>)
    ensures Inv(Run(cfg, es))
  {
    if es != [] {
      RunKeeps(cfg, es[..|es| - 1]);
      StepKeeps(cfg, Run(cfg, es[..|es| - 1]), es[|es| - 1]);
    }
  }
}
