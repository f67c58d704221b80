/** The completion milestone under interleaving. A Time Out and an approval sum the
    assignment's minutes inside their transaction, over rows they have not locked:
    they see their own writes and whatever has committed by then, and commit later.
    Here every recalculating transaction of Concurrent takes that sum as a step of
    its own, and the notifications table is carried along. */
module UnlockedSum {
  import opened Common
  import opened Hours
  import opened Schema
  import opened Ledger
  import opened LedgerInvariants
  import opened Progress
  import opened Notifications
  import opened Concurrent
  import opened Serialization
  import opened Steps

  /** What the sum query returned, and what the committed rows alone came to then. */
  datatype Read = Read(seen: int, base: int)

  /** A recalculation that committed, and the sum it had seen. */
  datatype Seen = Seen(trainee: Id, assignment: Id, minutes: int)

  datatype Noted = Noted(w: World, notes: seq<Note>, taken: map<nat, Read>, sums: seq<Seen>)

  datatype Act = SumQuery(index: nat, now: Time) | Step(move: Label)

  predicate Recalculating(p: Proc) { p.OutLocked? || p.DecideBoth? }

  function Minutes(db: Db, t: Id, a: Id): int { Sum(db.sessions, ByTrainee(t, a)) }

  /** The committed tables plus the transaction's own writes. */
  function OwnView(cfg: Config, db: Db, p: Proc, now: Time): (Db, Outcome) {
    match p
    case OutLocked(c, i, rule, curIn, curFlags) =>
      if i < |db.sessions| then InsertTimeOut(cfg, db, c, i, curIn, curFlags, rule) else (db, Refused(Internal))
    case DecideBoth(k, i, curIn, curOut) =>
      if k < |db.corrections| && db.corrections[k].attendance < |db.sessions| && i < |db.sessions|
      then ApproveWith(db, k, curIn, curOut, RuleOf(db, i), now) else (db, Refused(Internal))
    case _ => (db, Refused(Internal))
  }

  predicate Sums(cfg: Config, s: Noted, n: nat, now: Time) {
    && n < |s.w.procs| && Recalculating(s.w.procs[n]) && n !in s.taken
    && s.w.procs[n].session < |s.w.db.sessions| && Committed(OwnView(cfg, s.w.db, s.w.procs[n], now).1)
  }

  function TakeSum(cfg: Config, s: Noted, n: nat, now: Time): Read
    requires Sums(cfg, s, n, now)
  {
    var row := s.w.db.sessions[s.w.procs[n].session];
    Read(Minutes(OwnView(cfg, s.w.db, s.w.procs[n], now).0, row.trainee, row.assignment),
         Minutes(s.w.db, row.trainee, row.assignment))
  }

  function MilestoneNote(cfg: Config, t: Id, a: Id): Note { Note(cfg.userOf(t), Completion(t, a)) }

  function MilestoneIf(cfg: Config, db: Db, notes: seq<Note>, t: Id, a: Id, seen: int): seq<Note> {
    if a < |db.assignments| && seen >= db.assignments[a].required then CreateTx(notes, MilestoneNote(cfg, t, a)) else notes
  }

  /** Request l.index is about to commit a recalculation. */
  predicate Recalculates(w: World, l: Label, v: World) {
    && l.Move? && l.index < |w.procs| && Recalculating(w.procs[l.index])
    && w.procs[l.index].session < |w.db.sessions| && v.log != w.log
  }

  function Kept(taken: map<nat, Read>, v: World): map<nat, Read> {
    map n | n in taken && n < |v.procs| && Recalculating(v.procs[n]) :: taken[n]
  }

  function StepNoted(cfg: Config, s: Noted, act: Act): Noted {
    match act
    case SumQuery(n, now) => if Sums(cfg, s, n, now) then s.(taken := s.taken[n := TakeSum(cfg, s, n, now)]) else s
    case Step(l) =>
      var v := StepWorld(cfg, s.w, l);
      if !Recalculates(s.w, l, v) then
        Noted(v, if v.log == s.w.log || v.log == [] then s.notes else WithAnswer(cfg, v.db, s.notes, v.log[|v.log| - 1].event),
              Kept(s.taken, v), s.sums)
      else if l.index !in s.taken then s
      else
        var row := s.w.db.sessions[s.w.procs[l.index].session];
        var seen := s.taken[l.index].seen;
        var milestone := MilestoneIf(cfg, v.db, s.notes, row.trainee, row.assignment, seen);
        Noted(v, if v.log == [] then milestone else WithAnswer(cfg, v.db, milestone, v.log[|v.log| - 1].event),
              Kept(s.taken, v), s.sums + [Seen(row.trainee, row.assignment, seen)])
  }

  function ExecuteNoted(cfg: Config, db: Db, objects: set<Key>, notes: seq<Note>, acts: seq<Act>): Noted {
    if acts == [] then Noted(Execute(cfg, db, objects, []), notes, map[], [])
    else StepNoted(cfg, ExecuteNoted(cfg, db, objects, notes, acts[..|acts| - 1]), acts[|acts| - 1])
  }

  // ---- the tables are those of an interleaving ----

  /** Leaving the sums aside, this is an interleaving of Concurrent. */
  lemma {:induction false} NotedIsInterleaving(cfg: Config, db: Db, objects: set<Key>, notes: seq<Note>, acts: seq<Act>)
    ensures exists ls :: ExecuteNoted(cfg, db, objects, notes, acts).w == Execute(cfg, db, objects, ls)
  {
    if acts == [] {
      assert ExecuteNoted(cfg, db, objects, notes, acts).w == Execute(cfg, db, objects, []);
    } else {
      var n := |acts| - 1;
      NotedIsInterleaving(cfg, db, objects, notes, acts[..n]);
      var s := ExecuteNoted(cfg, db, objects, notes, acts[..n]);
      var ls :| s.w == Execute(cfg, db, objects, ls);
      StepIsInterleaving(cfg, db, objects, s, acts[n], ls);
    }
  }

  lemma StepIsInterleaving(cfg: Config, db: Db, objects: set<Key>, s: Noted, act: Act, ls: seq<Label>)
    requires s.w == Execute(cfg, db, objects, ls)
    ensures exists longer :: StepNoted(cfg, s, act).w == Execute(cfg, db, objects, longer)
  {
    NotedMovesWorld(cfg, s, act);
    if act.Step? && StepNoted(cfg, s, act).w != s.w {
      assert (ls + [act.move])[..|ls|] == ls;
      assert StepNoted(cfg, s, act).w == Execute(cfg, db, objects, ls + [act.move]);
    }
  }

  lemma NotedMovesWorld(cfg: Config, s: Noted, act: Act)
    ensures StepNoted(cfg, s, act).w == s.w || (act.Step? && StepNoted(cfg, s, act).w == StepWorld(cfg, s.w, act.move))
  {
  }

  // ---- what a recalculation changes ----

  /** The change of its session's credit a recalculating transaction makes. */
  function OwnChange(db: Db, p: Proc): int
    requires Recalculating(p) && p.session < |db.sessions| && (p.DecideBoth? ==> p.correction < |db.corrections|)
  {
    var was := db.sessions[p.session].credited.GetOr(0);
    match p
    case OutLocked(c, _, rule, curIn, _) => CreditedMinutes(curIn, c.now, rule).credited - was
    case DecideBoth(k, i, curIn, curOut) =>
      var newIn := db.corrections[k].proposedIn.GetOr(curIn);
      var newOut := ProposedOr(db.corrections[k].proposedOut, curOut);
      if newOut.Some? then CreditedMinutes(newIn, newOut.value, RuleOf(db, i)).credited - was else 0
  }

  predicate Holding(db: Db, p: Proc) {
    Recalculating(p) && p.session < |db.sessions| && (p.DecideBoth? ==> p.correction < |db.corrections| && db.corrections[p.correction].attendance == p.session)
  }

  lemma LockedIsHolding(cfg: Config, db: Db, p: Proc)
    requires ProcOk(cfg, db, p) && Recalculating(p)
    ensures Holding(db, p)
  {
  }

  lemma OwnViewChanges(cfg: Config, db: Db, p: Proc, now: Time)
    requires Holding(db, p) && Committed(OwnView(cfg, db, p, now).1)
    ensures var row := db.sessions[p.session];
            var view := OwnView(cfg, db, p, now).0;
      && Minutes(view, row.trainee, row.assignment) == Minutes(db, row.trainee, row.assignment) + OwnChange(db, p)
      && view.assignments == db.assignments
  {
    var row := db.sessions[p.session];
    var view := OwnView(cfg, db, p, now).0;
    SumUpdate(db.sessions, p.session, view.sessions[p.session], ByTrainee(row.trainee, row.assignment));
  }

  /** A recalculation commits exactly what its transaction saw as its own view. */
  lemma CommitIsOwnView(cfg: Config, db: Db, w: World, n: nat, ch: Choice)
    requires WorldInv(cfg, db, w) && n < |w.procs| && Recalculating(w.procs[n])
    requires StepWorld(cfg, w, Move(n, ch)).log != w.log
    ensures var v := StepWorld(cfg, w, Move(n, ch));
      && v.db == OwnView(cfg, w.db, w.procs[n], ch.now).0 && Committed(OwnView(cfg, w.db, w.procs[n], ch.now).1)
      && |v.log| == |w.log| + 1 && v.procs[n].Finished?
      && (v.log[|w.log|].event.TimeOut? || v.log[|w.log|].event.Decide?)
  {
    assert ProcOk(cfg, w.db, w.procs[n]);
  }

  // ---- reads stay accurate ----

  /** Every sum read so far is the committed minutes of that moment plus the change
      the reader, still holding its locks, is about to make. */
  ghost predicate ReadsOk(s: Noted) {
    forall n :: n in s.taken ==>
      n < |s.w.procs| && Holding(s.w.db, s.w.procs[n]) && s.taken[n].seen == s.taken[n].base + OwnChange(s.w.db, s.w.procs[n])
  }

  lemma FrameKeepsChange(a: Db, b: Db, i: Option<Id>, k: Option<Id>, p: Proc)
    requires Frame(a, b, i, k) && Holding(a, p) && SessionHeld(p) != i && (p.DecideBoth? ==> CorrectionHeld(p) != k)
    ensures Holding(b, p) && OwnChange(b, p) == OwnChange(a, p)
  {
  }

  lemma StepKeepsReads(cfg: Config, db: Db, s: Noted, act: Act)
    requires WorldInv(cfg, db, s.w) && ReadsOk(s)
    ensures ReadsOk(StepNoted(cfg, s, act))
  {
    match act
    case SumQuery(n, now) =>
      if Sums(cfg, s, n, now) {
        assert ProcOk(cfg, s.w.db, s.w.procs[n]);
        LockedIsHolding(cfg, s.w.db, s.w.procs[n]);
        OwnViewChanges(cfg, s.w.db, s.w.procs[n], now);
      }
    case Step(l) => WorldStepKeepsReads(cfg, db, s, l);
  }

  lemma WorldStepKeepsReads(cfg: Config, db: Db, s: Noted, l: Label)
    requires WorldInv(cfg, db, s.w) && ReadsOk(s)
    ensures ReadsOk(StepNoted(cfg, s, Step(l)))
  {
    var v := StepWorld(cfg, s.w, l);
    forall n | n in Kept(s.taken, v)
      ensures Holding(v.db, v.procs[n]) && s.taken[n].seen == s.taken[n].base + OwnChange(v.db, v.procs[n])
    {
      ReadKept(cfg, db, s, l, n);
    }
    KeepsOrStops(cfg, s, l, v);
  }

  lemma KeepsOrStops(cfg: Config, s: Noted, l: Label, v: World)
    requires v == StepWorld(cfg, s.w, l)
    ensures StepNoted(cfg, s, Step(l)) == s || (StepNoted(cfg, s, Step(l)).w == v && StepNoted(cfg, s, Step(l)).taken == Kept(s.taken, v))
  {
  }

  lemma ReadKept(cfg: Config, db: Db, s: Noted, l: Label, n: nat)
    requires WorldInv(cfg, db, s.w) && ReadsOk(s) && n in Kept(s.taken, StepWorld(cfg, s.w, l))
    ensures var v := StepWorld(cfg, s.w, l);
      Holding(v.db, v.procs[n]) && s.taken[n].seen == s.taken[n].base + OwnChange(v.db, v.procs[n])
  {
    var v := StepWorld(cfg, s.w, l);
    StepIsLocal(cfg, s.w, l);
    StepFrames(cfg, db, s.w, l);
    if Moves(l, n) {
      RecalculatingMoveEnds(cfg, s.w, l, n);
    } else {
      OthersHoldOtherLocks(cfg, db, s.w, l, n);
      FrameKeepsChange(s.w.db, v.db, SessionLock(s.w, l), CorrectionLock(s.w, l), s.w.procs[n]);
    }
  }

  /** A request that may sum moves by committing or aborting. */
  lemma RecalculatingMoveEnds(cfg: Config, w: World, l: Label, n: nat)
    requires Moves(l, n) && n < |w.procs| && Recalculating(w.procs[n])
    ensures var v := StepWorld(cfg, w, l); n < |v.procs| && !Recalculating(v.procs[n])
  {
  }

  lemma OthersHoldOtherLocks(cfg: Config, db: Db, w: World, l: Label, n: nat)
    requires WorldInv(cfg, db, w) && n < |w.procs| && Recalculating(w.procs[n]) && !Moves(l, n)
    ensures SessionHeld(w.procs[n]) != SessionLock(w, l)
    ensures w.procs[n].DecideBoth? ==> CorrectionHeld(w.procs[n]) != CorrectionLock(w, l)
  {
  }

  lemma {:induction false} ExecutionKeepsReads(cfg: Config, db: Db, objects: set<Key>, notes: seq<Note>, acts: seq<Act>)
    requires Inv(db)
    ensures var s := ExecuteNoted(cfg, db, objects, notes, acts); WorldInv(cfg, db, s.w) && ReadsOk(s)
  {
    if acts == [] {
      ExecutionKeepsWorld(cfg, db, objects, []);
    } else {
      var n := |acts| - 1;
      ExecutionKeepsReads(cfg, db, objects, notes, acts[..n]);
      var s := ExecuteNoted(cfg, db, objects, notes, acts[..n]);
      StepKeepsReads(cfg, db, s, acts[n]);
      NotedMovesWorld(cfg, s, acts[n]);
      if acts[n].Step? { StepKeepsWorld(cfg, db, s.w, acts[n].move); }
    }
  }

  // ---- the milestone, commit by commit ----

  lemma AnswersAreNotMilestones(cfg: Config, after: Db, notes: seq<Note>, e: Event, t: Id, a: Id)
    ensures MilestoneNote(cfg, t, a) in WithAnswer(cfg, after, notes, e) <==> MilestoneNote(cfg, t, a) in notes
  {
    if e.Decide? && e.correction < |after.corrections| {
      CreateTxAddsOnce(notes, Note(cfg.userOf(after.corrections[e.correction].trainee), Decision(e.correction, e.verdict == Approve)));
    } else if e.ReviewJournal? && e.journal < |after.journals| {
      CreateTxAddsOnce(notes, Note(cfg.userOf(after.journals[e.journal].trainee),
                                   ReviewNumber(e.journal, Count(after.reviews, ReviewOf(e.journal)))));
    }
  }

  lemma MilestoneIfExactly(cfg: Config, db: Db, notes: seq<Note>, t: Id, a: Id, seen: int, u: Id, b: Id)
    ensures MilestoneNote(cfg, u, b) in MilestoneIf(cfg, db, notes, t, a, seen) <==>
      MilestoneNote(cfg, u, b) in notes || (u == t && b == a && a < |db.assignments| && seen >= db.assignments[a].required)
  {
    CreateTxAddsOnce(notes, MilestoneNote(cfg, t, a));
  }

  /** The step commits the recalculation of a request that has taken its sum. */
  predicate CommitsSummed(cfg: Config, s: Noted, l: Label) {
    Recalculates(s.w, l, StepWorld(cfg, s.w, l)) && l.index in s.taken
  }

  /** A recalculation only ever commits after its sum. */
  lemma SummedBeforeCommit(cfg: Config, s: Noted, l: Label)
    requires l.Move? && l.index < |s.w.procs| && Recalculating(s.w.procs[l.index])
    requires s.w.procs[l.index].session < |s.w.db.sessions| && StepNoted(cfg, s, Step(l)).w.log != s.w.log
    ensures CommitsSummed(cfg, s, l)
  {
  }

  /** Net minutes of the assignment that others committed between the sum of request n
      and now. */
  function Drift(s: Noted, n: nat): int
    requires n in s.taken && n < |s.w.procs| && Recalculating(s.w.procs[n]) && s.w.procs[n].session < |s.w.db.sessions|
  {
    var row := s.w.db.sessions[s.w.procs[n].session];
    Minutes(s.w.db, row.trainee, row.assignment) - s.taken[n].base
  }

  lemma CommitChecksSum(cfg: Config, db: Db, s: Noted, l: Label)
    requires WorldInv(cfg, db, s.w) && ReadsOk(s) && CommitsSummed(cfg, s, l)
    ensures var v := StepNoted(cfg, s, Step(l));
            var row := s.w.db.sessions[s.w.procs[l.index].session];
            var (t, a) := (row.trainee, row.assignment);
      && a < |v.w.db.assignments| && v.w.db.assignments == s.w.db.assignments
      && v.w == StepWorld(cfg, s.w, l)
      && Minutes(v.w.db, t, a) - Drift(s, l.index) == s.taken[l.index].seen
      && v.sums == s.sums + [Seen(t, a, s.taken[l.index].seen)]
  {
    var n, ch := l.index, l.choice;
    var p := s.w.procs[n];
    assert ProcOk(cfg, s.w.db, p);
    CommitIsOwnView(cfg, db, s.w, n, ch);
    OwnViewChanges(cfg, s.w.db, p, ch.now);
  }

  lemma CommitNotifies(cfg: Config, db: Db, s: Noted, l: Label, u: Id, b: Id)
    requires WorldInv(cfg, db, s.w) && CommitsSummed(cfg, s, l)
    ensures var v := StepNoted(cfg, s, Step(l));
            var row := s.w.db.sessions[s.w.procs[l.index].session];
      MilestoneNote(cfg, u, b) in v.notes <==>
        MilestoneNote(cfg, u, b) in s.notes ||
        (u == row.trainee && b == row.assignment && b < |v.w.db.assignments| && s.taken[l.index].seen >= v.w.db.assignments[b].required)
  {
    var v := StepWorld(cfg, s.w, l);
    var row := s.w.db.sessions[s.w.procs[l.index].session];
    var seen := s.taken[l.index].seen;
    var milestone := MilestoneIf(cfg, v.db, s.notes, row.trainee, row.assignment, seen);
    MilestoneIfExactly(cfg, v.db, s.notes, row.trainee, row.assignment, seen, u, b);
    if v.log != [] { AnswersAreNotMilestones(cfg, v.db, milestone, v.log[|v.log| - 1].event, u, b); }
  }

  /** The commit left the minutes at the requirement or above, and no milestone. */
  predicate Misses(cfg: Config, v: Noted, t: Id, a: Id) {
    a < |v.w.db.assignments| && Reached(v.w.db, t, a) && MilestoneNote(cfg, t, a) !in v.notes
  }

  /** The commit of request l.index misses the milestone exactly when there was none and
      the requirement is met now but not without what others committed since its sum. */
  ghost predicate MissesByDrift(cfg: Config, s: Noted, l: Label, v: Noted)
    requires CommitsSummed(cfg, s, l)
  {
    var row := s.w.db.sessions[s.w.procs[l.index].session];
    var (t, a) := (row.trainee, row.assignment);
    && a < |v.w.db.assignments|
    && var required, now := v.w.db.assignments[a].required, Minutes(v.w.db, t, a);
       (Misses(cfg, v, t, a) <==>
          MilestoneNote(cfg, t, a) !in s.notes && now - Drift(s, l.index) < required <= now)
  }

  lemma CommitMisses(cfg: Config, db: Db, s: Noted, l: Label)
    requires WorldInv(cfg, db, s.w) && ReadsOk(s) && CommitsSummed(cfg, s, l)
    ensures MissesByDrift(cfg, s, l, StepNoted(cfg, s, Step(l)))
  {
    var row := s.w.db.sessions[s.w.procs[l.index].session];
    CommitChecksSum(cfg, db, s, l);
    CommitNotifies(cfg, db, s, l, row.trainee, row.assignment);
  }

  /** This holds of the commit of every Time Out and every approval after any
      interleaving of any number of requests. In particular nothing is missed if nobody
      else's minutes of the assignment changed since the sum. */
  lemma MissedExactly(cfg: Config, db: Db, objects: set<Key>, notes: seq<Note>, acts: seq<Act>, l: Label)
    requires Inv(db) && CommitsSummed(cfg, ExecuteNoted(cfg, db, objects, notes, acts), l)
    ensures MissesByDrift(cfg, ExecuteNoted(cfg, db, objects, notes, acts), l, ExecuteNoted(cfg, db, objects, notes, acts + [Step(l)]))
  {
    ExecutionKeepsReads(cfg, db, objects, notes, acts);
    assert (acts + [Step(l)])[..|acts|] == acts;
    CommitMisses(cfg, db, ExecuteNoted(cfg, db, objects, notes, acts), l);
  }

  // ---- the milestone over a whole run ----

  /** Every other step leaves the milestones alone. */
  lemma OthersDoNotNotify(cfg: Config, db: Db, s: Noted, act: Act, t: Id, a: Id)
    requires WorldInv(cfg, db, s.w) && !(act.Step? && CommitsSummed(cfg, s, act.move))
    ensures var v := StepNoted(cfg, s, act);
      && v.w.db.assignments == s.w.db.assignments && v.sums == s.sums
      && (MilestoneNote(cfg, t, a) in v.notes <==> MilestoneNote(cfg, t, a) in s.notes)
  {
    if act.Step? {
      StepFrames(cfg, db, s.w, act.move);
      QuietStepNotes(cfg, s, act.move, StepWorld(cfg, s.w, act.move), t, a);
    }
  }

  lemma QuietStepNotes(cfg: Config, s: Noted, l: Label, v: World, t: Id, a: Id)
    requires v == StepWorld(cfg, s.w, l) && !CommitsSummed(cfg, s, l)
    ensures var r := StepNoted(cfg, s, Step(l));
      && (r.w == s.w || r.w == v) && r.sums == s.sums
      && (MilestoneNote(cfg, t, a) in r.notes <==> MilestoneNote(cfg, t, a) in s.notes)
  {
    if !Recalculates(s.w, l, v) && v.log != [] {
      AnswersAreNotMilestones(cfg, v.db, s.notes, v.log[|v.log| - 1].event, t, a);
    }
  }

  /** Some recalculation of the assignment committed having seen the requirement met. */
  ghost predicate SomeoneSaw(sums: seq<Seen>, t: Id, a: Id, required: int) {
    exists k :: 0 <= k < |sums| && sums[k].trainee == t && sums[k].assignment == a && sums[k].minutes >= required
  }

  lemma SawOneMore(sums: seq<Seen>, m: Seen, t: Id, a: Id, required: int)
    ensures SomeoneSaw(sums + [m], t, a, required) <==>
      SomeoneSaw(sums, t, a, required) || (m.trainee == t && m.assignment == a && m.minutes >= required)
  {
    if k :| 0 <= k < |sums| && sums[k].trainee == t && sums[k].assignment == a && sums[k].minutes >= required {
      assert (sums + [m])[k] == sums[k];
    }
    if m.trainee == t && m.assignment == a && m.minutes >= required {
      assert (sums + [m])[|sums|] == m;
    }
  }

  ghost predicate Told(cfg: Config, s: Noted, was: bool, assignments: seq<Assignment>, t: Id, a: Id)
    requires a < |assignments|
  {
    && s.w.db.assignments == assignments
    && (MilestoneNote(cfg, t, a) in s.notes <==> was || SomeoneSaw(s.sums, t, a, assignments[a].required))
  }

  lemma StepKeepsTold(cfg: Config, db: Db, s: Noted, act: Act, was: bool, assignments: seq<Assignment>, t: Id, a: Id)
    requires WorldInv(cfg, db, s.w) && ReadsOk(s) && a < |assignments| && Told(cfg, s, was, assignments, t, a)
    ensures Told(cfg, StepNoted(cfg, s, act), was, assignments, t, a)
  {
    if act.Step? && CommitsSummed(cfg, s, act.move) {
      var l := act.move;
      var row := s.w.db.sessions[s.w.procs[l.index].session];
      CommitChecksSum(cfg, db, s, l);
      CommitNotifies(cfg, db, s, l, t, a);
      SawOneMore(s.sums, Seen(row.trainee, row.assignment, s.taken[l.index].seen), t, a, assignments[a].required);
    } else {
      OthersDoNotNotify(cfg, db, s, act, t, a);
    }
  }

  /** At every point of every interleaving the milestone exists exactly when it did at
      the start or some committed recalculation had seen the requirement met. */
  lemma {:induction false} MilestoneExactly(cfg: Config, db: Db, objects: set<Key>, notes: seq<Note>, acts: seq<Act>, t: Id, a: Id)
    requires Inv(db) && a < |db.assignments|
    ensures Told(cfg, ExecuteNoted(cfg, db, objects, notes, acts), MilestoneNote(cfg, t, a) in notes, db.assignments, t, a)
  {
    if acts != [] {
      var n := |acts| - 1;
      MilestoneExactly(cfg, db, objects, notes, acts[..n], t, a);
      ExecutionKeepsReads(cfg, db, objects, notes, acts[..n]);
      StepKeepsTold(cfg, db, ExecuteNoted(cfg, db, objects, notes, acts[..n]), acts[n], MilestoneNote(cfg, t, a) in notes, db.assignments, t, a);
    }
  }

  // ---- two overlapping recalculations ----

  /** Two requests hold different sessions of one assignment, and neither has summed. */
  predicate Overlap(cfg: Config, s: Noted, m: nat, n: nat, now: Time) {
    && m != n && Sums(cfg, s, m, now) && Sums(cfg, s, n, now)
    && s.w.db.sessions[s.w.procs[m].session].assignment == s.w.db.sessions[s.w.procs[n].session].assignment
  }

  /** Both sum, then both commit. */
  function Together(m: nat, n: nat, now: Time, first: Choice, second: Choice): seq<Act> {
    [SumQuery(m, now), SumQuery(n, now), Step(Move(m, first)), Step(Move(n, second))]
  }

  /** The pair's figures: whose minutes, what they were, what each of the two changes,
      what is required, and whether the milestone existed. */
  datatype Pair = Pair(t: Id, a: Id, base: int, d1: int, d2: int, required: int, had: bool)

  function PairOf(cfg: Config, s: Noted, m: nat, n: nat): Pair
    requires m < |s.w.procs| && n < |s.w.procs| && Holding(s.w.db, s.w.procs[m]) && Holding(s.w.db, s.w.procs[n])
    requires s.w.db.sessions[s.w.procs[m].session].assignment < |s.w.db.assignments|
  {
    var row := s.w.db.sessions[s.w.procs[m].session];
    Pair(row.trainee, row.assignment, Minutes(s.w.db, row.trainee, row.assignment),
         OwnChange(s.w.db, s.w.procs[m]), OwnChange(s.w.db, s.w.procs[n]),
         s.w.db.assignments[row.assignment].required, MilestoneNote(cfg, row.trainee, row.assignment) in s.notes)
  }

  /** Request n holds a session of the pair's assignment. */
  predicate Of(s: Noted, n: nat, p: Pair) {
    && n < |s.w.procs| && Recalculating(s.w.procs[n]) && s.w.procs[n].session < |s.w.db.sessions|
    && s.w.db.sessions[s.w.procs[n].session].trainee == p.t && s.w.db.sessions[s.w.procs[n].session].assignment == p.a
  }

  predicate Stands(cfg: Config, s: Noted, p: Pair, minutes: int, told: bool) {
    && p.a < |s.w.db.assignments| && s.w.db.assignments[p.a].required == p.required
    && Minutes(s.w.db, p.t, p.a) == minutes && (MilestoneNote(cfg, p.t, p.a) in s.notes <==> told)
  }

  /** Where the pair is after k of its four acts. */
  predicate Phase(cfg: Config, s: Noted, p: Pair, m: nat, n: nat, now: Time, k: nat) {
    if k == 0 then
      && Overlap(cfg, s, m, n, now) && Of(s, m, p) && Of(s, n, p) && Stands(cfg, s, p, p.base, p.had)
      && Holding(s.w.db, s.w.procs[m]) && Holding(s.w.db, s.w.procs[n])
      && OwnChange(s.w.db, s.w.procs[m]) == p.d1 && OwnChange(s.w.db, s.w.procs[n]) == p.d2
    else if k == 1 then
      && m != n && Of(s, m, p) && Of(s, n, p) && Stands(cfg, s, p, p.base, p.had) && Sums(cfg, s, n, now)
      && Holding(s.w.db, s.w.procs[n]) && OwnChange(s.w.db, s.w.procs[n]) == p.d2
      && m in s.taken && s.taken[m] == Read(p.base + p.d1, p.base)
    else if k == 2 then
      && m != n && Of(s, m, p) && Of(s, n, p) && Stands(cfg, s, p, p.base, p.had)
      && m in s.taken && s.taken[m] == Read(p.base + p.d1, p.base)
      && n in s.taken && s.taken[n] == Read(p.base + p.d2, p.base)
    else if k == 3 then
      && Of(s, n, p) && n in s.taken && s.taken[n] == Read(p.base + p.d2, p.base)
      && Stands(cfg, s, p, p.base + p.d1, p.had || p.base + p.d1 >= p.required)
    else
      Stands(cfg, s, p, p.base + p.d1 + p.d2, p.had || p.base + p.d1 >= p.required || p.base + p.d2 >= p.required)
  }

  lemma FirstSums(cfg: Config, s: Noted, p: Pair, m: nat, n: nat, now: Time)
    requires Phase(cfg, s, p, m, n, now, 0)
    ensures Phase(cfg, StepNoted(cfg, s, SumQuery(m, now)), p, m, n, now, 1)
  {
    OwnViewChanges(cfg, s.w.db, s.w.procs[m], now);
  }

  lemma SecondSums(cfg: Config, s: Noted, p: Pair, m: nat, n: nat, now: Time)
    requires Phase(cfg, s, p, m, n, now, 1)
    ensures Phase(cfg, StepNoted(cfg, s, SumQuery(n, now)), p, m, n, now, 2)
  {
    OwnViewChanges(cfg, s.w.db, s.w.procs[n], now);
  }

  lemma FirstCommits(cfg: Config, db: Db, s: Noted, v: Noted, p: Pair, m: nat, n: nat, now: Time, ch: Choice)
    requires WorldInv(cfg, db, s.w) && ReadsOk(s) && Phase(cfg, s, p, m, n, now, 2)
    requires v == StepNoted(cfg, s, Step(Move(m, ch))) && v.w.log != s.w.log
    ensures Phase(cfg, v, p, m, n, now, 3)
  {
    CommitStands(cfg, db, s, v, p, m, ch, p.base + p.d1, p.had);
    BesideStays(cfg, db, s, p, n, Move(m, ch));
  }

  /** A request that has summed and waits is not disturbed by another's step. */
  lemma BesideStays(cfg: Config, db: Db, s: Noted, p: Pair, n: nat, l: Label)
    requires WorldInv(cfg, db, s.w) && Of(s, n, p) && n in s.taken && !Moves(l, n) && CommitsSummed(cfg, s, l)
    ensures var v := StepNoted(cfg, s, Step(l)); Of(v, n, p) && n in v.taken && v.taken[n] == s.taken[n]
  {
    StepIsLocal(cfg, s.w, l);
    StepFrames(cfg, db, s.w, l);
  }

  /** The commit of a summed recalculation of the pair's assignment. */
  lemma CommitStands(cfg: Config, db: Db, s: Noted, v: Noted, p: Pair, n: nat, ch: Choice, seen: int, told: bool)
    requires WorldInv(cfg, db, s.w) && ReadsOk(s) && Of(s, n, p) && n in s.taken && s.taken[n].seen == seen
    requires Stands(cfg, s, p, Minutes(s.w.db, p.t, p.a), told)
    requires v == StepNoted(cfg, s, Step(Move(n, ch))) && v.w.log != s.w.log
    ensures CommitsSummed(cfg, s, Move(n, ch))
    ensures Stands(cfg, v, p, seen + Minutes(s.w.db, p.t, p.a) - s.taken[n].base, told || seen >= p.required)
  {
    var l := Move(n, ch);
    SummedBeforeCommit(cfg, s, l);
    CommitChecksSum(cfg, db, s, l);
    CommitNotifies(cfg, db, s, l, p.t, p.a);
  }

  lemma SecondCommits(cfg: Config, db: Db, s: Noted, v: Noted, p: Pair, m: nat, n: nat, now: Time, ch: Choice)
    requires WorldInv(cfg, db, s.w) && ReadsOk(s) && Phase(cfg, s, p, m, n, now, 3)
    requires v == StepNoted(cfg, s, Step(Move(n, ch))) && v.w.log != s.w.log
    ensures Phase(cfg, v, p, m, n, now, 4)
  {
    CommitStands(cfg, db, s, v, p, n, ch, p.base + p.d2, p.had || p.base + p.d1 >= p.required);
  }

  lemma PairBegins(cfg: Config, db: Db, s: Noted, m: nat, n: nat, now: Time)
    requires WorldInv(cfg, db, s.w) && Overlap(cfg, s, m, n, now)
    ensures Holding(s.w.db, s.w.procs[m]) && Holding(s.w.db, s.w.procs[n])
    ensures s.w.db.sessions[s.w.procs[m].session].assignment < |s.w.db.assignments|
    ensures Phase(cfg, s, PairOf(cfg, s, m, n), m, n, now, 0)
  {
    assert ProcOk(cfg, s.w.db, s.w.procs[m]) && ProcOk(cfg, s.w.db, s.w.procs[n]);
    LockedIsHolding(cfg, s.w.db, s.w.procs[m]);
    LockedIsHolding(cfg, s.w.db, s.w.procs[n]);
  }

  function StateAt(cfg: Config, db: Db, objects: set<Key>, notes: seq<Note>, acts: seq<Act>, plan: seq<Act>, k: nat): Noted
    requires k <= |plan|
  {
    ExecuteNoted(cfg, db, objects, notes, acts + plan[..k])
  }

  /** Both of the pair commit. */
  predicate BothCommit(cfg: Config, db: Db, objects: set<Key>, notes: seq<Note>, acts: seq<Act>, plan: seq<Act>)
    requires |plan| == 4
  {
    && StateAt(cfg, db, objects, notes, acts, plan, 3).w.log != StateAt(cfg, db, objects, notes, acts, plan, 2).w.log
    && StateAt(cfg, db, objects, notes, acts, plan, 4).w.log != StateAt(cfg, db, objects, notes, acts, plan, 3).w.log
  }

  lemma NextState(cfg: Config, db: Db, objects: set<Key>, notes: seq<Note>, acts: seq<Act>, plan: seq<Act>, k: nat)
    requires k < |plan|
    ensures StateAt(cfg, db, objects, notes, acts, plan, k + 1) == StepNoted(cfg, StateAt(cfg, db, objects, notes, acts, plan, k), plan[k])
  {
    var longer := acts + plan[..k + 1];
    assert longer[..|longer| - 1] == acts + plan[..k] && longer[|longer| - 1] == plan[k];
  }

  lemma WholePlan(cfg: Config, db: Db, objects: set<Key>, notes: seq<Note>, acts: seq<Act>, plan: seq<Act>, k: nat)
    requires k == |plan|
    ensures StateAt(cfg, db, objects, notes, acts, plan, k) == ExecuteNoted(cfg, db, objects, notes, acts + plan)
  {
    assert plan[..k] == plan;
  }

  lemma PhaseStep(cfg: Config, db: Db, s: Noted, v: Noted, p: Pair, m: nat, n: nat, now: Time, first: Choice, second: Choice, k: nat)
    requires WorldInv(cfg, db, s.w) && ReadsOk(s) && k < 4 && Phase(cfg, s, p, m, n, now, k)
    requires v == StepNoted(cfg, s, Together(m, n, now, first, second)[k]) && (k >= 2 ==> v.w.log != s.w.log)
    ensures Phase(cfg, v, p, m, n, now, k + 1)
  {
    match k
    case 0 => FirstSums(cfg, s, p, m, n, now);
    case 1 => SecondSums(cfg, s, p, m, n, now);
    case 2 => FirstCommits(cfg, db, s, v, p, m, n, now, first);
    case 3 => SecondCommits(cfg, db, s, v, p, m, n, now, second);
  }

  lemma {:induction false} PhaseAt(cfg: Config, db: Db, objects: set<Key>, notes: seq<Note>, acts: seq<Act>, p: Pair,
                                   m: nat, n: nat, now: Time, first: Choice, second: Choice, k: nat)
    requires Inv(db) && k <= 4 && Phase(cfg, ExecuteNoted(cfg, db, objects, notes, acts), p, m, n, now, 0)
    requires BothCommit(cfg, db, objects, notes, acts, Together(m, n, now, first, second))
    ensures Phase(cfg, StateAt(cfg, db, objects, notes, acts, Together(m, n, now, first, second), k), p, m, n, now, k)
  {
    var plan := Together(m, n, now, first, second);
    if k == 0 {
      assert acts + plan[..0] == acts;
    } else {
      PhaseAt(cfg, db, objects, notes, acts, p, m, n, now, first, second, k - 1);
      PhaseNext(cfg, db, objects, notes, acts, p, m, n, now, first, second, k - 1);
    }
  }

  lemma PhaseNext(cfg: Config, db: Db, objects: set<Key>, notes: seq<Note>, acts: seq<Act>, p: Pair,
                  m: nat, n: nat, now: Time, first: Choice, second: Choice, k: nat)
    requires Inv(db) && k < 4 && BothCommit(cfg, db, objects, notes, acts, Together(m, n, now, first, second))
    requires Phase(cfg, StateAt(cfg, db, objects, notes, acts, Together(m, n, now, first, second), k), p, m, n, now, k)
    ensures Phase(cfg, StateAt(cfg, db, objects, notes, acts, Together(m, n, now, first, second), k + 1), p, m, n, now, k + 1)
  {
    var plan := Together(m, n, now, first, second);
    NextState(cfg, db, objects, notes, acts, plan, k);
    ExecutionKeepsReads(cfg, db, objects, notes, acts + plan[..k]);
    PhaseStep(cfg, db, StateAt(cfg, db, objects, notes, acts, plan, k), StateAt(cfg, db, objects, notes, acts, plan, k + 1),
              p, m, n, now, first, second, k);
  }

  /** The milestone of the pair that was in flight at s is missed at v exactly when there
      was none at s, neither change alone reaches the requirement, and both do. */
  ghost predicate PairMissesExactly(cfg: Config, s: Noted, m: nat, n: nat, v: Noted) {
    && m < |s.w.procs| && n < |s.w.procs| && Holding(s.w.db, s.w.procs[m]) && Holding(s.w.db, s.w.procs[n])
    && s.w.db.sessions[s.w.procs[m].session].assignment < |s.w.db.assignments|
    && var p := PairOf(cfg, s, m, n);
       && Minutes(v.w.db, p.t, p.a) == p.base + p.d1 + p.d2
       && (Misses(cfg, v, p.t, p.a) <==>
             !p.had && p.base + p.d1 < p.required && p.base + p.d2 < p.required && p.required <= p.base + p.d1 + p.d2)
  }

  lemma PairEnds(cfg: Config, s: Noted, v: Noted, m: nat, n: nat, now: Time)
    requires m < |s.w.procs| && n < |s.w.procs| && Holding(s.w.db, s.w.procs[m]) && Holding(s.w.db, s.w.procs[n])
    requires s.w.db.sessions[s.w.procs[m].session].assignment < |s.w.db.assignments|
    requires Phase(cfg, v, PairOf(cfg, s, m, n), m, n, now, 4)
    ensures PairMissesExactly(cfg, s, m, n, v)
  {
  }

  lemma PairRuns(cfg: Config, db: Db, objects: set<Key>, notes: seq<Note>, acts: seq<Act>, s: Noted,
                 m: nat, n: nat, now: Time, first: Choice, second: Choice)
    requires Inv(db) && s == ExecuteNoted(cfg, db, objects, notes, acts) && Overlap(cfg, s, m, n, now)
    requires BothCommit(cfg, db, objects, notes, acts, Together(m, n, now, first, second))
    ensures PairMissesExactly(cfg, s, m, n, StateAt(cfg, db, objects, notes, acts, Together(m, n, now, first, second), 4))
  {
    ExecutionKeepsReads(cfg, db, objects, notes, acts);
    PairBegins(cfg, db, s, m, n, now);
    PhaseAt(cfg, db, objects, notes, acts, PairOf(cfg, s, m, n), m, n, now, first, second, 4);
    PairEnds(cfg, s, StateAt(cfg, db, objects, notes, acts, Together(m, n, now, first, second), 4), m, n, now);
  }

  /** At any point of any interleaving, let two recalculations of one assignment (each a
      Time Out or an approval) sum, and then both commit, changing its minutes by d1 and
      d2: the milestone is missed exactly when there was none, base + d1 and base + d2
      are below the requirement and base + d1 + d2 is not. */
  lemma OverlappingPairMissesExactly(cfg: Config, db: Db, objects: set<Key>, notes: seq<Note>, acts: seq<Act>,
                                     m: nat, n: nat, now: Time, first: Choice, second: Choice)
    requires Inv(db) && Overlap(cfg, ExecuteNoted(cfg, db, objects, notes, acts), m, n, now)
    requires BothCommit(cfg, db, objects, notes, acts, Together(m, n, now, first, second))
    ensures PairMissesExactly(cfg, ExecuteNoted(cfg, db, objects, notes, acts), m, n,
              ExecuteNoted(cfg, db, objects, notes, acts + Together(m, n, now, first, second)))
  {
    PairRuns(cfg, db, objects, notes, acts, ExecuteNoted(cfg, db, objects, notes, acts), m, n, now, first, second);
    var plan := Together(m, n, now, first, second);
    assert plan[..4] == plan;
  }
}
