/** Three services sum credited minutes with three different filters. In every
    reachable state the sums agree, so the three notions of completion do too. */
module Progress {
  import opened Common
  import opened Hours
  import opened Schema
  import opened Ledger
  import opened LedgerInvariants
  import Answers

  /** WHERE assignment_id = a AND status IN ('valid','flagged','corrected') */
  function ByStatus(a: Id): Session -> int {
    (s: Session) => if s.assignment == a && s.status in {Valid, Flagged, Corrected} then s.credited.GetOr(0) else 0
  }

  /** WHERE assignment_id = a AND credited_minutes IS NOT NULL */
  function ByCredited(a: Id): Session -> int {
    (s: Session) => if s.assignment == a && s.credited.Some? then s.credited.value else 0
  }

  /** WHERE trainee_id = t AND assignment_id = a, whatever the status */
  function ByTrainee(t: Id, a: Id): Session -> int {
    (s: Session) => if s.trainee == t && s.assignment == a then s.credited.GetOr(0) else 0
  }

  function CompletedMinutes(db: Db, a: Id): int { Sum(db.sessions, ByStatus(a)) }

  predicate Reached(db: Db, t: Id, a: Id)
    requires a < |db.assignments|
  {
    Sum(db.sessions, ByTrainee(t, a)) >= db.assignments[a].required
  }

  function Remaining(db: Db, a: Id): int
    requires a < |db.assignments|
  {
    Max(db.assignments[a].required - CompletedMinutes(db, a), 0)
  }

  lemma SumsAgree(db: Db, a: Id)
    requires Inv(db) && a < |db.assignments|
    ensures CompletedMinutes(db, a) == Sum(db.sessions, ByCredited(a))
    ensures CompletedMinutes(db, a) == Sum(db.sessions, ByTrainee(db.assignments[a].trainee, a))
    ensures CompletedMinutes(db, a) >= 0
  {
    forall i | 0 <= i < |db.sessions|
      ensures var s := db.sessions[i];
              ByStatus(a)(s) == ByCredited(a)(s) == ByTrainee(db.assignments[a].trainee, a)(s) >= 0
    {
      SessionWeights(db, i, a);
    }
    SumSame(db.sessions, ByStatus(a), ByCredited(a));
    SumSame(db.sessions, ByStatus(a), ByTrainee(db.assignments[a].trainee, a));
    SumNonNegative(db.sessions, ByStatus(a));
  }

  /** A session row weighs the same under the three filters: an open row has no
      credit and a row's trainee is its assignment's. */
  lemma SessionWeights(db: Db, i: Id, a: Id)
    requires Inv(db) && a < |db.assignments| && i < |db.sessions|
    ensures var s := db.sessions[i];
            ByStatus(a)(s) == ByCredited(a)(s) == ByTrainee(db.assignments[a].trainee, a)(s) >= 0
  {
    var s := db.sessions[i];
    assert SessionOk(db, i);
    if Count(db.adjustments, AdjustmentOf(i)) == 0 {
      OverlayUntouched(i, Originals(s), db.adjustments, db.corrections);
    }
    if s.effectiveOut.Some? {
      CreditConserves(s.effectiveIn, s.effectiveOut.value, s.ruleUsed.value);
    }
  }

  /** The minutes of assignment a that session row s holds. */
  function Held(s: Session, a: Id): int { if s.assignment == a && s.credited.Some? then s.credited.value else 0 }

  /** When only row i changes, the completed minutes move by what that row holds. */
  lemma RowMovesMinutes(db: Db, after: Db, i: Id, a: Id)
    requires Inv(db) && Inv(after) && a < |db.assignments| && after.assignments == db.assignments
    requires i < |db.sessions| == |after.sessions|
    requires forall m :: 0 <= m < |db.sessions| && m != i ==> after.sessions[m] == db.sessions[m]
    ensures CompletedMinutes(after, a) == CompletedMinutes(db, a) - Held(db.sessions[i], a) + Held(after.sessions[i], a)
  {
    assert after.sessions == db.sessions[i := after.sessions[i]];
    SumUpdate(db.sessions, i, after.sessions[i], ByCredited(a));
    SumsAgree(db, a);
    SumsAgree(after, a);
  }

  /** A Time Out adds its session's credit to the completed minutes of the session's
      assignment, and to no other. */
  lemma TimeOutAddsItsCredit(cfg: Config, db: Db, c: Capture, i: Id, a: Id)
    requires Inv(db) && a < |db.assignments| && ApplyTimeOut(cfg, db, c, i).1.Created?
    ensures var s := db.sessions[i];
      CompletedMinutes(ApplyTimeOut(cfg, db, c, i).0, a) == CompletedMinutes(db, a) +
        if s.assignment == a then CreditedMinutes(s.effectiveIn, c.now, db.assignments[a].rule).credited else 0
  {
    Answers.TimeOutWrites(cfg, db, c, i);
    Answers.OpenIsUntouched(db, i);
    TimeOutKeeps(cfg, db, c, i);
    RowMovesMinutes(db, ApplyTimeOut(cfg, db, c, i).0, i, a);
  }

  /** An approval moves them by the difference of the credit it computes. */
  lemma ApprovalMovesCredit(db: Db, k: Id, now: Time, a: Id)
    requires Inv(db) && a < |db.assignments| && ApplyDecide(db, k, Approve, now).1 == Done
    ensures var i := db.corrections[k].attendance;
            var after := ApplyDecide(db, k, Approve, now).0;
      CompletedMinutes(after, a) == CompletedMinutes(db, a) - Held(db.sessions[i], a) + Held(after.sessions[i], a)
  {
    Answers.ApproveWrites(db, k, now);
    DecideKeeps(db, k, Approve, now);
    RowMovesMinutes(db, ApplyDecide(db, k, Approve, now).0, db.corrections[k].attendance, a);
  }

  /** The completion query, 100 percent and nothing remaining always coincide. */
  lemma CompletionCoincides(cfg: Config, es: seq<Event>, a: Id)
    requires a < |Run(cfg, es).assignments|
    ensures var db := Run(cfg, es);
            var done := CompletedMinutes(db, a);
            && done == Sum(db.sessions, ByCredited(a))
            && done == Sum(db.sessions, ByTrainee(db.assignments[a].trainee, a))
            && (Reached(db, db.assignments[a].trainee, a) <==> ProgressPercent(done, db.assignments[a].required) == 100)
            && (Reached(db, db.assignments[a].trainee, a) <==> Remaining(db, a) == 0)
  {
    RunKeeps(cfg, es);
    var db := Run(cfg, es);
    SumsAgree(db, a);
    ProgressMonotoneAndExact(CompletedMinutes(db, a), CompletedMinutes(db, a), db.assignments[a].required);
  }
}
