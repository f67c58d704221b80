/** Credited minutes and staff edits of the break rule. A session keeps the credit of
    its last recalculation; whether that is still the credit of its effective times
    depends on the edits of its own assignment since. */
module BreakRules {
  import opened Common
  import opened Hours
  import opened Schema
  import opened Ledger
  import opened LedgerInvariants
  import opened LedgerHistory

  /** The rule deducts from some session. */
  predicate Active(rule: BreakRule) { rule.kind == FixedAfterThreshold && rule.threshold > 0 && rule.deduction > 0 }

  predicate Equivalent(r: BreakRule, q: BreakRule) {
    Active(r) == Active(q) && (Active(r) ==> r.threshold == q.threshold && r.deduction == q.deduction)
  }

  function CreditUnder(s: Session, rule: BreakRule): int
    requires s.effectiveOut.Some?
  {
    CreditedMinutes(s.effectiveIn, s.effectiveOut.value, rule).credited
  }

  // ---- which rules credit alike ----

  lemma WholeMinutes(m: nat)
    ensures TruncDiv(m * NANOS_PER_MINUTE, NANOS_PER_MINUTE) == m
  {
  }

  /** A number of minutes on which two inequivalent rules differ. */
  function Telling(r: BreakRule, q: BreakRule): nat
    requires !Equivalent(r, q)
  {
    if !Active(q) then r.threshold
    else if !Active(r) then q.threshold
    else if r.threshold < q.threshold then r.threshold
    else if q.threshold < r.threshold then q.threshold
    else r.threshold + r.deduction + q.deduction
  }

  lemma TellingTells(r: BreakRule, q: BreakRule, timeIn: Time)
    requires !Equivalent(r, q)
    ensures var m := Telling(r, q);
            var timeOut := timeIn + m * NANOS_PER_MINUTE;
            m > 0 && timeIn < timeOut
            && CreditedMinutes(timeIn, timeOut, r).credited != CreditedMinutes(timeIn, timeOut, q).credited
  {
    WholeMinutes(Telling(r, q));
  }

  /** Two rules credit every pair of times alike exactly when neither deducts, or both
      do with equal threshold and deduction. */
  lemma CreditsAlikeExactly(r: BreakRule, q: BreakRule)
    ensures (forall a, b :: a < b ==> CreditedMinutes(a, b, r).credited == CreditedMinutes(a, b, q).credited) <==> Equivalent(r, q)
  {
    if !Equivalent(r, q) {
      TellingTells(r, q, 0);
    }
  }

  // ---- what an edit does ----

  /** The session's credit is that of its effective times under its assignment's rule. */
  predicate FollowsRule(db: Db, i: Id)
    requires i < |db.sessions|
  {
    var s := db.sessions[i];
    s.effectiveOut.Some? ==> s.credited == Some(CreditUnder(s, RuleOf(db, i)))
  }

  /** In every reachable state a closed session follows its rule exactly when the rule
      of its last recalculation credits its times as the present one does. */
  lemma FollowsExactly(cfg: Config, es: seq<Event>, i: Id)
    requires i < |Run(cfg, es).sessions| && Run(cfg, es).sessions[i].effectiveOut.Some?
    ensures var db := Run(cfg, es);
            var s := db.sessions[i];
            s.ruleUsed.Some? && (FollowsRule(db, i) <==> CreditUnder(s, s.ruleUsed.value) == CreditUnder(s, RuleOf(db, i)))
  {
    RunKeeps(cfg, es);
    assert SessionOk(Run(cfg, es), i);
  }

  /** An allowed edit, in some reachable state, that takes the rule of a session that
      follows it from `old` to `new`. */
  predicate Edits(cfg: Config, es: seq<Event>, edited: seq<Assignment>, i: Id, was: BreakRule, now: BreakRule) {
    var db := Run(cfg, es);
    && i < |db.sessions| && FollowsRule(db, i) && EditAllowed(db.assignments, edited)
    && RuleOf(db, i) == was && RuleOf(db.(assignments := edited), i) == now
  }

  /** Editing a rule leaves every session it can reach following it exactly when the
      old and the new rule are equivalent. */
  lemma EditHarmlessExactly(cfg: Config, was: BreakRule, now: BreakRule)
    ensures (forall es, edited, i :: Edits(cfg, es, edited, i, was, now) ==> FollowsRule(Run(cfg, es + [EditAssignments(edited)]), i))
            <==> Equivalent(was, now)
  {
    if Equivalent(was, now) {
      forall es, edited, i | Edits(cfg, es, edited, i, was, now)
        ensures FollowsRule(Run(cfg, es + [EditAssignments(edited)]), i)
      {
        EditReaches(cfg, es, edited);
        CreditsAlikeExactly(was, now);
        RunKeeps(cfg, es);
        assert SessionOk(Run(cfg, es), i);
      }
    } else {
      var es, edited := OneClosedDay(cfg, was, Telling(was, now)), [Site(cfg, now)];
      OneDayCloses(cfg, was, Telling(was, now), es, now);
      TellingTells(was, now, 0);
      assert Edits(cfg, es, edited, 0, was, now);
      EditReaches(cfg, es, edited);
    }
  }

  lemma RunNext(cfg: Config, es: seq<Event>, e: Event)
    ensures Run(cfg, es + [e]) == Apply(cfg, Run(cfg, es), e).0
  {
    assert (es + [e])[..|es|] == es;
  }

  lemma EditApplies(cfg: Config, db: Db, edited: seq<Assignment>)
    requires EditAllowed(db.assignments, edited)
    ensures Apply(cfg, db, EditAssignments(edited)).0 == db.(assignments := edited)
  {
  }

  lemma EditReaches(cfg: Config, es: seq<Event>, edited: seq<Assignment>)
    requires EditAllowed(Run(cfg, es).assignments, edited)
    ensures Run(cfg, es + [EditAssignments(edited)]) == Run(cfg, es).(assignments := edited)
  {
    RunNext(cfg, es, EditAssignments(edited));
    EditApplies(cfg, Run(cfg, es), edited);
  }

  function Site(cfg: Config, rule: BreakRule): Assignment { Assignment(0, true, cfg.localDate(0), None, 60, rule, {}) }

  /** A session of m whole minutes under a rule. */
  function OneClosedDay(cfg: Config, rule: BreakRule, m: nat): seq<Event> {
    [EditAssignments([Site(cfg, rule)]),
     TimeIn(Capture(0, 1, Verified, false, 1, 2, 0)),
     TimeOut(Capture(0, 2, Verified, false, 3, 4, m * NANOS_PER_MINUTE), 0)]
  }

  lemma OneDayCloses(cfg: Config, rule: BreakRule, m: nat, es: seq<Event>, other: BreakRule)
    requires m > 0 && es == OneClosedDay(cfg, rule, m)
    ensures var db := Run(cfg, es);
      && db.assignments == [Site(cfg, rule)] && |db.sessions| == 1 && FollowsRule(db, 0) && RuleOf(db, 0) == rule
      && db.sessions[0].effectiveIn == 0 && db.sessions[0].effectiveOut == Some(m * NANOS_PER_MINUTE)
      && EditAllowed(db.assignments, [Site(cfg, other)]) && RuleOf(db.(assignments := [Site(cfg, other)]), 0) == other
  {
    var c, d := es[1].capture, es[2].capture;
    RunSnoc(cfg, es, 0);
    RunSnoc(cfg, es, 1);
    RunSnoc(cfg, es, 2);
    assert es[..3] == es;
    var db1 := EMPTY.(assignments := [Site(cfg, rule)]);
    assert Run(cfg, es[..1]) == db1;
    FirstTimeIn(cfg, db1, c, Site(cfg, rule));
    FirstTimeOut(cfg, OpenSession(db1, c, 0, cfg.localDate(0)), d);
  }

  lemma FirstTimeOut(cfg: Config, db: Db, c: Capture)
    requires |db.sessions| == 1 && db.sessions[0].trainee == c.trainee && db.sessions[0].status == Open
    requires |db.evidence| == 1 && db.evidence[0].action == TimeInAction && db.evidence[0].clientAction != c.clientAction
    requires CloseAllowed(db.sessions[0], c.now) && !MissingReason(c)
    ensures ApplyTimeOut(cfg, db, c, 0).0 ==
      CloseSession(cfg, db, c, 0, db.sessions[0].effectiveIn, db.sessions[0].flags, RuleOf(db, 0))
  {
    assert !WithAction(c.trainee, c.clientAction)(db.evidence[0]);
  }

  /** For instance, a two-hour session credited without a break keeps its 120 minutes
      after staff add a break of 30. */
  lemma EditedRuleIsNotReapplied(cfg: Config)
    ensures var lunch := BreakRule(FixedAfterThreshold, 60, 30);
            var db := Run(cfg, OneClosedDay(cfg, BreakRule(NoBreak, 0, 0), 120) + [EditAssignments([Site(cfg, lunch)])]);
            && |db.sessions| == 1 && db.sessions[0].credited == Some(120) && db.sessions[0].effectiveOut.Some?
            && CreditUnder(db.sessions[0], RuleOf(db, 0)) == 90
  {
    var plain, lunch := BreakRule(NoBreak, 0, 0), BreakRule(FixedAfterThreshold, 60, 30);
    var es := OneClosedDay(cfg, plain, 120);
    OneDayCloses(cfg, plain, 120, es, lunch);
    EditReaches(cfg, es, [Site(cfg, lunch)]);
    WholeMinutes(120);
  }

  // ---- over a run ----

  /** The request recomputed the credit of session i. */
  predicate Recomputes(before: Db, after: Db, e: Event, o: Outcome, i: Id) {
    || (e.TimeOut? && o == Created(i))
    || (e.Decide? && e.verdict == Approve && o.Done? && e.correction < |before.corrections|
        && before.corrections[e.correction].attendance == i && i < |after.sessions| && after.sessions[i].effectiveOut.Some?)
  }

  /** Since the last recomputation of session i, no edit gave its own assignment an
      inequivalent rule. */
  predicate RuleSettled(cfg: Config, es: seq<Event>, i: Id) {
    es != [] ==>
      var n := |es| - 1;
      var before := Run(cfg, es[..n]);
      var (after, o) := Apply(cfg, before, es[n]);
      || Recomputes(before, after, es[n], o, i)
      || (RuleSettled(cfg, es[..n], i) && KeepsRule(before, after, es[n], i))
  }

  predicate KeepsRule(before: Db, after: Db, e: Event, i: Id) {
    e.EditAssignments? && i < |before.sessions| && i < |after.sessions| ==> Equivalent(RuleOf(before, i), RuleOf(after, i))
  }

  /** A closed session whose rule is settled has the credit of its effective times,
      however many corrections it went through and whatever else was edited. */
  lemma CreditFollowsEffectiveTimes(cfg: Config, es: seq<Event>, i: Id)
    requires RuleSettled(cfg, es, i) && i < |Run(cfg, es).sessions|
    ensures FollowsRule(Run(cfg, es), i)
  {
    RunKeeps(cfg, es);
    var db := Run(cfg, es);
    assert SessionOk(db, i);
    UsedIsCurrent(cfg, es, i);
    if db.sessions[i].effectiveOut.Some? {
      CreditsAlikeExactly(db.sessions[i].ruleUsed.value, RuleOf(db, i));
    }
  }

  predicate Current(db: Db, i: Id) {
    i < |db.sessions| && db.sessions[i].ruleUsed.Some? ==> Equivalent(db.sessions[i].ruleUsed.value, RuleOf(db, i))
  }

  lemma {:induction false} UsedIsCurrent(cfg: Config, es: seq<Event>, i: Id)
    requires RuleSettled(cfg, es, i)
    ensures Current(Run(cfg, es), i)
  {
    if es != [] {
      var n := |es| - 1;
      var before := Run(cfg, es[..n]);
      var (after, o) := Apply(cfg, before, es[n]);
      RunKeeps(cfg, es[..n]);
      if Recomputes(before, after, es[n], o, i) {
        RecomputedIsCurrent(cfg, before, es[n], i);
      } else {
        UsedIsCurrent(cfg, es[..n], i);
        StepKeepsCurrent(cfg, before, es[n], i);
      }
    }
  }

  lemma RecomputedIsCurrent(cfg: Config, db: Db, e: Event, i: Id)
    requires Links(db)
    requires var (after, o) := Apply(cfg, db, e); Recomputes(db, after, e, o, i)
    ensures Current(Apply(cfg, db, e).0, i)
  {
  }

  lemma StepKeepsCurrent(cfg: Config, db: Db, e: Event, i: Id)
    requires Links(db) && Current(db, i)
    requires var (after, o) := Apply(cfg, db, e); !Recomputes(db, after, e, o, i) && KeepsRule(db, after, e, i)
    ensures Current(Apply(cfg, db, e).0, i)
  {
  }

  /** The rule of its assignment at the last recomputation of session i in the run. */
  function LastRule(cfg: Config, es: seq<Event>, i: Id): Option<BreakRule> {
    if es == [] then None
    else
      var n := |es| - 1;
      var before := Run(cfg, es[..n]);
      var (after, o) := Apply(cfg, before, es[n]);
      if i < |before.sessions| && Recomputes(before, after, es[n], o, i) then Some(RuleOf(before, i))
      else LastRule(cfg, es[..n], i)
  }

  ghost predicate UsesLast(db: Db, i: Id, last: Option<BreakRule>) {
    if i < |db.sessions| then db.sessions[i].ruleUsed == last else last.None?
  }

  lemma StepUsesLast(cfg: Config, db: Db, e: Event, i: Id, last: Option<BreakRule>)
    requires Links(db) && UsesLast(db, i, last)
    ensures var (after, o) := Apply(cfg, db, e);
      UsesLast(after, i, if i < |db.sessions| && Recomputes(db, after, e, o, i) then Some(RuleOf(db, i)) else last)
  {
    match e
    case TimeIn(c) => TimeInUsesLast(cfg, db, c, i, last);
    case _ =>
  }

  lemma TimeInUsesLast(cfg: Config, db: Db, c: Capture, i: Id, last: Option<BreakRule>)
    requires UsesLast(db, i, last)
    ensures UsesLast(ApplyTimeIn(cfg, db, c).0, i, last)
  {
  }

  lemma {:induction false} RunUsesLast(cfg: Config, es: seq<Event>, i: Id)
    ensures UsesLast(Run(cfg, es), i, LastRule(cfg, es, i))
  {
    if es != [] {
      var n := |es| - 1;
      RunUsesLast(cfg, es[..n], i);
      RunKeeps(cfg, es[..n]);
      StepUsesLast(cfg, Run(cfg, es[..n]), es[n], i, LastRule(cfg, es[..n], i));
    }
  }

  /** After any run, a closed session has the credit of its effective times under its
      assignment's rule exactly when the rule in force at its last recomputation credits
      those times as the present one does, whatever edits came between. */
  lemma CreditFollowsExactly(cfg: Config, es: seq<Event>, i: Id)
    requires i < |Run(cfg, es).sessions| && Run(cfg, es).sessions[i].effectiveOut.Some?
    ensures var db := Run(cfg, es);
            var s := db.sessions[i];
            var last := LastRule(cfg, es, i);
      last.Some? && (FollowsRule(db, i) <==> CreditUnder(s, last.value) == CreditUnder(s, RuleOf(db, i)))
  {
    FollowsExactly(cfg, es, i);
    RunUsesLast(cfg, es, i);
  }

  // ---- an edit between the rule read and the lock of a Time Out ----

  /** A Time Out that read its site before an edit and commits after it leaves what the
      Time Out followed by the edit leaves. */
  lemma EditOvertaken(cfg: Config, db: Db, edited: seq<Assignment>, c: Capture, i: Id)
    requires EditAllowed(db.assignments, edited) && ApplyTimeOut(cfg, db, c, i).1.Created?
    ensures i < |db.sessions|
    ensures var late := ApplyEdit(db, edited).0;
      InsertTimeOut(cfg, late, c, i, late.sessions[i].effectiveIn, late.sessions[i].flags, RuleOf(db, i))
        == (ApplyEdit(ApplyTimeOut(cfg, db, c, i).0, edited).0, Created(i))
  {
    var late := ApplyEdit(db, edited).0;
    assert late == db.(assignments := edited);
    EditCommutes(cfg, db, edited, c, i, db.sessions[i].effectiveIn, db.sessions[i].flags, RuleOf(db, i));
  }

  lemma EditCommutes(cfg: Config, db: Db, edited: seq<Assignment>, c: Capture, i: Id, curIn: Time, curFlags: seq<Flag>, rule: BreakRule)
    requires i < |db.sessions|
    ensures var r := InsertTimeOut(cfg, db, c, i, curIn, curFlags, rule);
      InsertTimeOut(cfg, db.(assignments := edited), c, i, curIn, curFlags, rule) == (r.0.(assignments := edited), r.1)
  {
  }
}
