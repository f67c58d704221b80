/** Interleavings that miss the completion milestone: a Time Out overlapping another
    Time Out, and a Time Out overlapping the approval of a correction. */
module MissedMilestone {
  import opened Common
  import opened Hours
  import opened Text
  import opened Schema
  import opened Ledger
  import opened LedgerInvariants
  import opened LedgerHistory
  import opened Progress
  import opened Notifications
  import opened Concurrent
  import opened Serialization
  import opened Liveness
  import opened UnlockedSum

  // ---- driving a Time Out to its row lock ----

  /** The request's program point after k of the six moves, the environment obliging. */
  function Point(db: Db, c: Capture, i: Id, now: Time, k1: Key, k2: Key, k: nat): Proc
    requires i < |db.sessions|
  {
    var job := JobOut(i, RuleOf(db, i));
    if k == 0 then OutBegin(c, i)
    else if k == 1 then OutRead(c, i, db.sessions[i].status)
    else if k == 2 then OutFresh(c, i)
    else if k == 3 then PutOriginal(c.(now := now), job)
    else if k == 4 then PutWatermarked(c.(now := now, originalKey := k1), job)
    else if k == 5 then Proc.Ready(Taken(c, now, k1, k2), job)
    else OutLocked(Taken(c, now, k1, k2), i, RuleOf(db, i), db.sessions[i].effectiveIn, db.sessions[i].flags)
  }

  function Taken(c: Capture, now: Time, k1: Key, k2: Key): Capture { c.(now := now, originalKey := k1, watermarkedKey := k2) }

  function SixMoves(n: nat, now: Time, k1: Key, k2: Key): seq<Act> {
    var plain := Step(Move(n, Choice(now, 0, true)));
    [plain, plain, plain, Step(Move(n, Choice(now, k1, true))), Step(Move(n, Choice(now, k2, true))), plain]
  }

  /** The session can be locked by a Time Out that has just arrived as request n. */
  predicate Lockable(s: Noted, n: nat, c: Capture, i: Id, k1: Key, k2: Key) {
    && n < |s.w.procs| && s.taken == map[]
    && Owned(s.w.db, c.trainee, i) && s.w.db.sessions[i].status == Open && !MissingReason(c)
    && Find(s.w.db.evidence, WithAction(c.trainee, c.clientAction)).None?
    && (forall m :: 0 <= m < |s.w.procs| && m != n ==> SessionHeld(s.w.procs[m]) != Some(i))
    && k1 != k2 && k1 !in s.w.used && k2 !in s.w.used
  }

  predicate OutPhase(s0: Noted, s: Noted, n: nat, c: Capture, i: Id, now: Time, k1: Key, k2: Key, k: nat)
    requires i < |s0.w.db.sessions|
  {
    && s.notes == s0.notes && s.taken == map[] && s.w.db == s0.w.db && s.w.log == s0.w.log
    && |s.w.procs| == |s0.w.procs| && (forall m :: 0 <= m < |s.w.procs| && m != n ==> s.w.procs[m] == s0.w.procs[m])
    && n < |s.w.procs| && s.w.procs[n] == Point(s0.w.db, c, i, now, k1, k2, k)
    && s.w.used == s0.w.used + (if k >= 4 then {k1} else {}) + (if k >= 5 then {k2} else {})
  }

  lemma QuietAct(cfg: Config, s: Noted, l: Label)
    requires s.taken == map[] && StepWorld(cfg, s.w, l).log == s.w.log
    ensures StepNoted(cfg, s, Step(l)) == s.(w := StepWorld(cfg, s.w, l))
  {
  }

  lemma OutStep(cfg: Config, s0: Noted, s: Noted, n: nat, c: Capture, i: Id, now: Time, k1: Key, k2: Key, k: nat)
    requires k < 6 && Lockable(s0, n, c, i, k1, k2) && OutPhase(s0, s, n, c, i, now, k1, k2, k)
    ensures OutPhase(s0, StepNoted(cfg, s, SixMoves(n, now, k1, k2)[k]), n, c, i, now, k1, k2, k + 1)
  {
    var l := SixMoves(n, now, k1, k2)[k].move;
    if k < 3 {
      ReadingMove(cfg, s0, s.w, n, c, i, now, k1, k2, k);
    } else if k < 5 {
      PuttingMove(cfg, s0, s.w, n, c, i, now, k1, k2, k);
    } else {
      LockingMove(cfg, s0, s.w, n, c, i, now, k1, k2);
    }
    QuietAct(cfg, s, l);
  }

  lemma ReadingMove(cfg: Config, s0: Noted, w: World, n: nat, c: Capture, i: Id, now: Time, k1: Key, k2: Key, k: nat)
    requires k < 3 && Lockable(s0, n, c, i, k1, k2) && w.db == s0.w.db
    requires n < |w.procs| && w.procs[n] == Point(s0.w.db, c, i, now, k1, k2, k)
    ensures StepWorld(cfg, w, Move(n, Choice(now, 0, true))) == With(w, n, Point(s0.w.db, c, i, now, k1, k2, k + 1))
  {
  }

  lemma PuttingMove(cfg: Config, s0: Noted, w: World, n: nat, c: Capture, i: Id, now: Time, k1: Key, k2: Key, k: nat)
    requires 3 <= k < 5 && Lockable(s0, n, c, i, k1, k2) && w.db == s0.w.db
    requires n < |w.procs| && w.procs[n] == Point(s0.w.db, c, i, now, k1, k2, k) && (if k == 3 then k1 else k2) !in w.used
    ensures var key := if k == 3 then k1 else k2;
      StepWorld(cfg, w, Move(n, Choice(now, key, true))) == Put(w, n, key, Point(s0.w.db, c, i, now, k1, k2, k + 1))
  {
  }

  lemma LockingMove(cfg: Config, s0: Noted, w: World, n: nat, c: Capture, i: Id, now: Time, k1: Key, k2: Key)
    requires Lockable(s0, n, c, i, k1, k2) && w.db == s0.w.db
    requires n < |w.procs| && w.procs[n] == Point(s0.w.db, c, i, now, k1, k2, 5)
    requires forall m :: 0 <= m < |w.procs| && m != n ==> SessionHeld(w.procs[m]) != Some(i)
    ensures StepWorld(cfg, w, Move(n, Choice(now, 0, true))) == With(w, n, Point(s0.w.db, c, i, now, k1, k2, 6))
  {
    forall m | 0 <= m < |w.procs| ensures !HoldsSession(i)(w.procs[m]) {}
  }

  lemma {:induction false} OutLocksAt(cfg: Config, db: Db, objects: set<Key>, notes: seq<Note>, acts: seq<Act>, s0: Noted,
                                      n: nat, c: Capture, i: Id, now: Time, k1: Key, k2: Key, k: nat)
    requires k <= 6 && s0 == ExecuteNoted(cfg, db, objects, notes, acts)
    requires Lockable(s0, n, c, i, k1, k2) && s0.w.procs[n] == OutBegin(c, i)
    ensures OutPhase(s0, StateAt(cfg, db, objects, notes, acts, SixMoves(n, now, k1, k2), k), n, c, i, now, k1, k2, k)
  {
    var plan := SixMoves(n, now, k1, k2);
    if k == 0 {
      assert acts + plan[..0] == acts;
    } else {
      OutLocksAt(cfg, db, objects, notes, acts, s0, n, c, i, now, k1, k2, k - 1);
      NextState(cfg, db, objects, notes, acts, plan, k - 1);
      OutStep(cfg, s0, StateAt(cfg, db, objects, notes, acts, plan, k - 1), n, c, i, now, k1, k2, k - 1);
    }
  }

  // ---- driving an approval to its row locks ----

  function TwoMoves(n: nat, now: Time): seq<Act> {
    [Step(Move(n, Choice(now, 0, true))), Step(Move(n, Choice(now, 0, true)))]
  }

  function DecidePoint(db: Db, k: Id, step: nat): Proc
    requires k < |db.corrections| && db.corrections[k].attendance < |db.sessions|
  {
    var i := db.corrections[k].attendance;
    if step == 0 then DecideBegin(k, Approve)
    else if step == 1 then DecideHeld(k, Approve)
    else DecideBoth(k, i, db.sessions[i].effectiveIn, db.sessions[i].effectiveOut)
  }

  predicate Decidable(s: Noted, n: nat, k: Id) {
    && n < |s.w.procs| && s.taken == map[] && PendingOn(s.w.db, k)
    && (forall m :: 0 <= m < |s.w.procs| && m != n ==>
          SessionHeld(s.w.procs[m]) != Some(s.w.db.corrections[k].attendance) && CorrectionHeld(s.w.procs[m]) != Some(k))
  }

  predicate DecidePhase(s0: Noted, s: Noted, n: nat, k: Id, step: nat)
    requires PendingOn(s0.w.db, k)
  {
    && s.notes == s0.notes && s.taken == map[] && s.w.db == s0.w.db && s.w.log == s0.w.log
    && |s.w.procs| == |s0.w.procs| && (forall m :: 0 <= m < |s.w.procs| && m != n ==> s.w.procs[m] == s0.w.procs[m])
    && n < |s.w.procs| && s.w.procs[n] == DecidePoint(s0.w.db, k, step)
  }

  lemma DecideStep(cfg: Config, s0: Noted, s: Noted, n: nat, k: Id, now: Time, step: nat)
    requires step < 2 && Decidable(s0, n, k) && DecidePhase(s0, s, n, k, step)
    ensures DecidePhase(s0, StepNoted(cfg, s, TwoMoves(n, now)[step]), n, k, step + 1)
  {
    DecideMove(cfg, s0, s.w, n, k, now, step);
    QuietAct(cfg, s, TwoMoves(n, now)[step].move);
  }

  lemma DecideMove(cfg: Config, s0: Noted, w: World, n: nat, k: Id, now: Time, step: nat)
    requires step < 2 && Decidable(s0, n, k) && w.db == s0.w.db && n < |w.procs| && w.procs[n] == DecidePoint(s0.w.db, k, step)
    requires |w.procs| == |s0.w.procs| && forall m :: 0 <= m < |w.procs| && m != n ==> w.procs[m] == s0.w.procs[m]
    ensures StepWorld(cfg, w, Move(n, Choice(now, 0, true))) == With(w, n, DecidePoint(s0.w.db, k, step + 1))
  {
    var i := w.db.corrections[k].attendance;
    forall m | 0 <= m < |w.procs| ensures !HoldsSession(i)(w.procs[m]) {}
    if step == 0 {
      forall m | 0 <= m < |w.procs| ensures !HoldsCorrection(k)(w.procs[m]) {}
    }
  }

  lemma {:induction false} DecideLocksAt(cfg: Config, db: Db, objects: set<Key>, notes: seq<Note>, acts: seq<Act>, s0: Noted,
                                         n: nat, k: Id, now: Time, step: nat)
    requires step <= 2 && s0 == ExecuteNoted(cfg, db, objects, notes, acts)
    requires Decidable(s0, n, k) && s0.w.procs[n] == DecideBegin(k, Approve)
    ensures DecidePhase(s0, StateAt(cfg, db, objects, notes, acts, TwoMoves(n, now), step), n, k, step)
  {
    var plan := TwoMoves(n, now);
    if step == 0 {
      assert acts + plan[..0] == acts;
    } else {
      DecideLocksAt(cfg, db, objects, notes, acts, s0, n, k, now, step - 1);
      NextState(cfg, db, objects, notes, acts, plan, step - 1);
      DecideStep(cfg, s0, StateAt(cfg, db, objects, notes, acts, plan, step - 1), n, k, now, step - 1);
    }
  }

  // ---- both in flight ----

  function Arrivals(p: Proc, q: Proc): seq<Act> { [Step(Arrive(p)), Step(Arrive(q))] }

  lemma BothArrive(cfg: Config, db: Db, objects: set<Key>, notes: seq<Note>, p: Proc, q: Proc)
    requires IsBegin(p) && IsBegin(q)
    ensures ExecuteNoted(cfg, db, objects, notes, Arrivals(p, q)) ==
      Noted(World(db, objects, objects, {}, [p, q], [p, q], []), notes, map[], [])
  {
    var acts := Arrivals(p, q);
    assert acts[..1] == [Step(Arrive(p))];
    assert acts[..1][..0] == [];
    var start := ExecuteNoted(cfg, db, objects, notes, []);
    assert start == Noted(World(db, objects, objects, {}, [], [], []), notes, map[], []);
    QuietAct(cfg, start, Arrive(p));
    var one := ExecuteNoted(cfg, db, objects, notes, acts[..1]);
    assert one.w.procs == [p];
    QuietAct(cfg, one, Arrive(q));
  }

  // ---- both commit ----

  lemma MoveCommits(cfg: Config, w: World, n: nat, ch: Choice)
    requires n < |w.procs| && ch.ok && Recalculating(w.procs[n]) && w.procs[n].session < |w.db.sessions|
    requires Committed(OwnView(cfg, w.db, w.procs[n], ch.now).1)
    ensures var v := StepWorld(cfg, w, Move(n, ch));
      && v.log != w.log && v.db == OwnView(cfg, w.db, w.procs[n], ch.now).0
      && |v.procs| == |w.procs| && forall m :: 0 <= m < |w.procs| && m != n ==> v.procs[m] == w.procs[m]
  {
    assert |StepWorld(cfg, w, Move(n, ch)).log| == |w.log| + 1;
  }

  lemma SumsTaken(cfg: Config, s: Noted, m: nat, n: nat, now: Time)
    requires Overlap(cfg, s, m, n, now)
    ensures var both := StepNoted(cfg, StepNoted(cfg, s, SumQuery(m, now)), SumQuery(n, now));
      both.w == s.w && m in both.taken && n in both.taken
  {
  }

  lemma SummedCommits(cfg: Config, s: Noted, n: nat, ch: Choice)
    requires n < |s.w.procs| && n in s.taken && ch.ok && Recalculating(s.w.procs[n]) && s.w.procs[n].session < |s.w.db.sessions|
    requires Committed(OwnView(cfg, s.w.db, s.w.procs[n], ch.now).1)
    ensures var v := StepNoted(cfg, s, Step(Move(n, ch)));
      && v.w.log != s.w.log && v.w.db == OwnView(cfg, s.w.db, s.w.procs[n], ch.now).0
      && |v.w.procs| == |s.w.procs| && (forall m :: 0 <= m < |s.w.procs| && m != n ==> v.w.procs[m] == s.w.procs[m])
      && (forall m :: m in s.taken && m != n && m < |s.w.procs| && Recalculating(s.w.procs[m]) ==> m in v.taken)
  {
    MoveCommits(cfg, s.w, n, ch);
  }

  /** If each of the two transactions succeeds where it runs, both commit. */
  lemma PairCommits(cfg: Config, db: Db, objects: set<Key>, notes: seq<Note>, acts: seq<Act>, s: Noted,
                    m: nat, n: nat, now: Time, ch: Choice)
    requires s == ExecuteNoted(cfg, db, objects, notes, acts) && Overlap(cfg, s, m, n, now) && ch.ok
    requires Committed(OwnView(cfg, s.w.db, s.w.procs[m], ch.now).1)
    requires var first := OwnView(cfg, s.w.db, s.w.procs[m], ch.now).0;
             s.w.procs[n].session < |first.sessions| && Committed(OwnView(cfg, first, s.w.procs[n], ch.now).1)
    ensures BothCommit(cfg, db, objects, notes, acts, Together(m, n, now, ch, ch))
  {
    var plan := Together(m, n, now, ch, ch);
    SumsFirst(cfg, db, objects, notes, acts, s, plan, m, n, now);
    PairCommitsAfter(cfg, db, objects, notes, acts, plan, StateAt(cfg, db, objects, notes, acts, plan, 2), m, n, now, ch);
  }

  lemma SumsFirst(cfg: Config, db: Db, objects: set<Key>, notes: seq<Note>, acts: seq<Act>, s: Noted, plan: seq<Act>, m: nat, n: nat, now: Time)
    requires s == ExecuteNoted(cfg, db, objects, notes, acts) && Overlap(cfg, s, m, n, now)
    requires |plan| == 4 && plan[0] == SumQuery(m, now) && plan[1] == SumQuery(n, now)
    ensures var both := StateAt(cfg, db, objects, notes, acts, plan, 2); both.w == s.w && m in both.taken && n in both.taken
  {
    assert acts + plan[..0] == acts;
    NextState(cfg, db, objects, notes, acts, plan, 0);
    NextState(cfg, db, objects, notes, acts, plan, 1);
    SumsTaken(cfg, s, m, n, now);
  }

  lemma PairCommitsAfter(cfg: Config, db: Db, objects: set<Key>, notes: seq<Note>, acts: seq<Act>, plan: seq<Act>, both: Noted,
                         m: nat, n: nat, now: Time, ch: Choice)
    requires plan == Together(m, n, now, ch, ch) && both == StateAt(cfg, db, objects, notes, acts, plan, 2)
    requires m < |both.w.procs| && n < |both.w.procs| && m != n && m in both.taken && n in both.taken && ch.ok
    requires Recalculating(both.w.procs[m]) && both.w.procs[m].session < |both.w.db.sessions| && Recalculating(both.w.procs[n])
    requires Committed(OwnView(cfg, both.w.db, both.w.procs[m], ch.now).1)
    requires var first := OwnView(cfg, both.w.db, both.w.procs[m], ch.now).0;
             both.w.procs[n].session < |first.sessions| && Committed(OwnView(cfg, first, both.w.procs[n], ch.now).1)
    ensures BothCommit(cfg, db, objects, notes, acts, plan)
  {
    NextState(cfg, db, objects, notes, acts, plan, 2);
    SummedCommits(cfg, both, m, ch);
    NextState(cfg, db, objects, notes, acts, plan, 3);
    SummedCommits(cfg, StateAt(cfg, db, objects, notes, acts, plan, 3), n, ch);
  }

  // ---- what the two transactions see ----

  /** A Time Out of an open session that would be accepted at `now`. */
  predicate Fits(db: Db, c: Capture, i: Id, now: Time) {
    && Owned(db, c.trainee, i) && db.sessions[i].status == Open && !MissingReason(c)
    && Find(db.evidence, WithAction(c.trainee, c.clientAction)).None? && CloseAllowed(db.sessions[i], now)
  }

  function Credit(db: Db, i: Id, now: Time): int
    requires i < |db.sessions|
  {
    CreditedMinutes(db.sessions[i].effectiveIn, now, RuleOf(db, i)).credited
  }

  lemma OpenIsFresh(db: Db, i: Id)
    requires Inv(db) && i < |db.sessions| && db.sessions[i].status == Open
    ensures Find(db.evidence, EvidenceOf(i, TimeOutAction)).None? && db.sessions[i].credited.None?
  {
    assert SessionOk(db, i);
    CountNone(db.evidence, EvidenceOf(i, TimeOutAction));
    OverlayUntouched(i, Originals(db.sessions[i]), db.adjustments, db.corrections);
  }

  /** What a Time Out of session i leaves of the rest. */
  ghost predicate OnlyCloses(db: Db, first: Db, row: Evidence, i: Id) {
    && first.evidence == db.evidence + [row] && first.assignments == db.assignments
    && first.corrections == db.corrections && first.adjustments == db.adjustments
    && |first.sessions| == |db.sessions| && forall j :: 0 <= j < |db.sessions| && j != i ==> first.sessions[j] == db.sessions[j]
  }

  /** The locked Time Out would commit, and credit its minutes. */
  lemma TimeOutView(cfg: Config, db: Db, c: Capture, i: Id, now: Time, k1: Key, k2: Key, t: Time)
    requires Inv(db) && Fits(db, c, i, now)
    ensures var p := Point(db, c, i, now, k1, k2, 6);
      && Committed(OwnView(cfg, db, p, t).1) && Holding(db, p) && OwnChange(db, p) == Credit(db, i, now)
      && OnlyCloses(db, OwnView(cfg, db, p, t).0, EvidenceRow(Taken(c, now, k1, k2), i, TimeOutAction), i)
  {
    OpenIsFresh(db, i);
  }

  lemma EvidenceStillNew(evidence: seq<Evidence>, row: Evidence, d: Capture, j: Id)
    requires Find(evidence, WithAction(d.trainee, d.clientAction)).None? && row.clientAction != d.clientAction
    requires Find(evidence, EvidenceOf(j, TimeOutAction)).None? && row.attendance != j
    ensures Find(evidence + [row], WithAction(d.trainee, d.clientAction)).None?
    ensures Find(evidence + [row], EvidenceOf(j, TimeOutAction)).None?
  {
    FindAppend(evidence, row, WithAction(d.trainee, d.clientAction));
    FindAppend(evidence, row, EvidenceOf(j, TimeOutAction));
  }

  /** Another session's Time Out would still commit after the first. */
  lemma TimeOutAfter(cfg: Config, db: Db, first: Db, row: Evidence, d: Capture, j: Id, now: Time, k1: Key, k2: Key, t: Time)
    requires Inv(db) && Fits(db, d, j, now) && j < |first.sessions| && first.sessions[j] == db.sessions[j]
    requires first.evidence == db.evidence + [row] && row.clientAction != d.clientAction && row.attendance != j
    ensures Committed(OwnView(cfg, first, Point(db, d, j, now, k1, k2, 6), t).1)
  {
    OpenIsFresh(db, j);
    EvidenceStillNew(db.evidence, row, Taken(d, now, k1, k2), j);
  }

  // ---- two Time Outs ----

  /** Short of the requirement with either of x and y, not with both; no milestone yet. */
  ghost predicate OnlyTogether(cfg: Config, db: Db, notes: seq<Note>, t: Id, a: Id, x: int, y: int) {
    && a < |db.assignments| && MilestoneNote(cfg, t, a) !in notes
    && Minutes(db, t, a) + x < db.assignments[a].required && Minutes(db, t, a) + y < db.assignments[a].required
    && db.assignments[a].required <= Minutes(db, t, a) + x + y
  }

  /** Both requests hold their locks and would commit one after the other; together
      they complete the trainee. */
  ghost predicate Poised(cfg: Config, s: Noted, now: Time, t: Id, a: Id) {
    && Overlap(cfg, s, 0, 1, now) && Holding(s.w.db, s.w.procs[0]) && Holding(s.w.db, s.w.procs[1])
    && s.w.db.sessions[s.w.procs[0].session].trainee == t && s.w.db.sessions[s.w.procs[0].session].assignment == a
    && OnlyTogether(cfg, s.w.db, s.notes, t, a, OwnChange(s.w.db, s.w.procs[0]), OwnChange(s.w.db, s.w.procs[1]))
    && Committed(OwnView(cfg, s.w.db, s.w.procs[0], now).1)
    && var first := OwnView(cfg, s.w.db, s.w.procs[0], now).0;
       s.w.procs[1].session < |first.sessions| && Committed(OwnView(cfg, first, s.w.procs[1], now).1)
  }

  lemma PoisedMisses(cfg: Config, db: Db, objects: set<Key>, notes: seq<Note>, acts: seq<Act>, s: Noted, now: Time, t: Id, a: Id)
    requires Inv(db) && s == ExecuteNoted(cfg, db, objects, notes, acts) && Poised(cfg, s, now, t, a)
    ensures exists all :: Misses(cfg, ExecuteNoted(cfg, db, objects, notes, all), t, a)
  {
    var ch := Choice(now, 0, true);
    PairCommits(cfg, db, objects, notes, acts, s, 0, 1, now, ch);
    OverlappingPairMissesExactly(cfg, db, objects, notes, acts, 0, 1, now, ch, ch);
    assert Misses(cfg, ExecuteNoted(cfg, db, objects, notes, acts + Together(0, 1, now, ch, ch)), t, a);
  }

  /** From any state of the ledger in which two open sessions of one assignment reach its
      requirement together but neither alone, some interleaving of their Time Outs
      completes the trainee and tells nobody. */
  lemma TwoTimeOutsMiss(cfg: Config, db: Db, objects: set<Key>, notes: seq<Note>, c: Capture, i: Id, d: Capture, j: Id, now: Time)
    requires Inv(db) && Fits(db, c, i, now) && Fits(db, d, j, now) && i != j && c.clientAction != d.clientAction
    requires db.sessions[i].assignment == db.sessions[j].assignment
    requires OnlyTogether(cfg, db, notes, c.trainee, db.sessions[i].assignment, Credit(db, i, now), Credit(db, j, now))
    ensures exists acts :: Misses(cfg, ExecuteNoted(cfg, db, objects, notes, acts), c.trainee, db.sessions[i].assignment)
  {
    var k := FreshKey(objects);
    var acts := TwoLocked(cfg, db, objects, notes, c, i, d, j, now, k);
    var s := ExecuteNoted(cfg, db, objects, notes, acts);
    TwoTimeOutsPoised(cfg, db, s, c, i, d, j, now, k);
    PoisedMisses(cfg, db, objects, notes, acts, s, now, c.trainee, db.sessions[i].assignment);
  }

  lemma TwoTimeOutsPoised(cfg: Config, db: Db, s: Noted, c: Capture, i: Id, d: Capture, j: Id, now: Time, k: Key)
    requires Inv(db) && Fits(db, c, i, now) && Fits(db, d, j, now) && i != j && c.clientAction != d.clientAction
    requires db.sessions[i].assignment == db.sessions[j].assignment && s.w.db == db && s.taken == map[]
    requires OnlyTogether(cfg, db, s.notes, c.trainee, db.sessions[i].assignment, Credit(db, i, now), Credit(db, j, now))
    requires s.w.procs == [Point(db, c, i, now, k, k + 1, 6), Point(db, d, j, now, k + 2, k + 3, 6)]
    ensures Poised(cfg, s, now, c.trainee, db.sessions[i].assignment)
  {
    var p, q := s.w.procs[0], s.w.procs[1];
    var first := OwnView(cfg, db, p, now).0;
    BothViews(cfg, db, c, i, d, j, now, k, p, q, first);
    PoisedWhen(cfg, s, now, c.trainee, db.sessions[i].assignment, p, q, first);
  }

  lemma BothViews(cfg: Config, db: Db, c: Capture, i: Id, d: Capture, j: Id, now: Time, k: Key, p: Proc, q: Proc, first: Db)
    requires Inv(db) && Fits(db, c, i, now) && Fits(db, d, j, now) && i != j && c.clientAction != d.clientAction
    requires p == Point(db, c, i, now, k, k + 1, 6) && q == Point(db, d, j, now, k + 2, k + 3, 6)
    requires first == OwnView(cfg, db, p, now).0
    ensures Holding(db, p) && p.session == i && Holding(db, q) && q.session == j
    ensures OwnChange(db, p) == Credit(db, i, now) && OwnChange(db, q) == Credit(db, j, now)
    ensures Committed(OwnView(cfg, db, p, now).1) && Committed(OwnView(cfg, db, q, now).1)
    ensures j < |first.sessions| && Committed(OwnView(cfg, first, q, now).1)
  {
    TimeOutHolds(cfg, db, c, i, now, k, k + 1, p);
    TimeOutHolds(cfg, db, d, j, now, k + 2, k + 3, q);
    FirstThenSecond(cfg, db, c, i, d, j, now, k, p, q, first);
  }

  lemma FirstThenSecond(cfg: Config, db: Db, c: Capture, i: Id, d: Capture, j: Id, now: Time, k: Key, p: Proc, q: Proc, first: Db)
    requires Inv(db) && Fits(db, c, i, now) && Fits(db, d, j, now) && i != j && c.clientAction != d.clientAction
    requires p == Point(db, c, i, now, k, k + 1, 6) && q == Point(db, d, j, now, k + 2, k + 3, 6)
    requires first == OwnView(cfg, db, p, now).0
    ensures j < |first.sessions| && Committed(OwnView(cfg, first, q, now).1)
  {
    TimeOutView(cfg, db, c, i, now, k, k + 1, now);
    SecondTimeOutCommits(cfg, db, c, i, d, j, now, k, p, q, first);
  }

  lemma TimeOutHolds(cfg: Config, db: Db, c: Capture, i: Id, now: Time, k1: Key, k2: Key, p: Proc)
    requires Inv(db) && Fits(db, c, i, now) && p == Point(db, c, i, now, k1, k2, 6)
    ensures Holding(db, p) && p.session == i && OwnChange(db, p) == Credit(db, i, now) && Committed(OwnView(cfg, db, p, now).1)
  {
    TimeOutView(cfg, db, c, i, now, k1, k2, now);
  }

  lemma PoisedWhen(cfg: Config, s: Noted, now: Time, t: Id, a: Id, p: Proc, q: Proc, first: Db)
    requires s.w.procs == [p, q] && s.taken == map[] && Holding(s.w.db, p) && Holding(s.w.db, q)
    requires s.w.db.sessions[p.session].assignment == a == s.w.db.sessions[q.session].assignment && s.w.db.sessions[p.session].trainee == t
    requires OnlyTogether(cfg, s.w.db, s.notes, t, a, OwnChange(s.w.db, p), OwnChange(s.w.db, q))
    requires Committed(OwnView(cfg, s.w.db, p, now).1) && Committed(OwnView(cfg, s.w.db, q, now).1)
    requires first == OwnView(cfg, s.w.db, p, now).0 && q.session < |first.sessions| && Committed(OwnView(cfg, first, q, now).1)
    ensures Poised(cfg, s, now, t, a)
  {
    PairOverlaps(cfg, s, now);
  }

  lemma SecondTimeOutCommits(cfg: Config, db: Db, c: Capture, i: Id, d: Capture, j: Id, now: Time, k: Key, p: Proc, q: Proc, first: Db)
    requires Inv(db) && Fits(db, c, i, now) && Fits(db, d, j, now) && i != j && c.clientAction != d.clientAction
    requires p == Point(db, c, i, now, k, k + 1, 6) && q == Point(db, d, j, now, k + 2, k + 3, 6)
    requires OnlyCloses(db, first, EvidenceRow(Taken(c, now, k, k + 1), i, TimeOutAction), i)
    ensures q.OutLocked? && q.session < |first.sessions| && Committed(OwnView(cfg, first, q, now).1)
  {
    TimeOutAfter(cfg, db, first, EvidenceRow(Taken(c, now, k, k + 1), i, TimeOutAction), d, j, now, k + 2, k + 3, now);
  }

  /** Two requests that hold their locks and would commit overlap. */
  lemma PairOverlaps(cfg: Config, s: Noted, now: Time)
    requires |s.w.procs| == 2 && s.taken == map[] && Holding(s.w.db, s.w.procs[0]) && Holding(s.w.db, s.w.procs[1])
    requires s.w.db.sessions[s.w.procs[0].session].assignment == s.w.db.sessions[s.w.procs[1].session].assignment
    requires Committed(OwnView(cfg, s.w.db, s.w.procs[0], now).1) && Committed(OwnView(cfg, s.w.db, s.w.procs[1], now).1)
    ensures Overlap(cfg, s, 0, 1, now)
  {
  }

  /** A Time Out and another request arrive, and the Time Out goes on to hold its row lock. */
  lemma FirstLocks(cfg: Config, db: Db, objects: set<Key>, notes: seq<Note>, q: Proc, c: Capture, i: Id, now: Time, k: Key)
    returns (acts: seq<Act>, s0: Noted)
    requires Fits(db, c, i, now) && IsBegin(q) && forall u :: u in objects ==> u < k
    ensures s0 == Noted(World(db, objects, objects, {}, [OutBegin(c, i), q], [OutBegin(c, i), q], []), notes, map[], [])
    ensures OutPhase(s0, ExecuteNoted(cfg, db, objects, notes, acts), 0, c, i, now, k, k + 1, 6)
  {
    var arrivals := Arrivals(OutBegin(c, i), q);
    BothArrive(cfg, db, objects, notes, OutBegin(c, i), q);
    s0 := ExecuteNoted(cfg, db, objects, notes, arrivals);
    OutLocksAt(cfg, db, objects, notes, arrivals, s0, 0, c, i, now, k, k + 1, 6);
    WholePlan(cfg, db, objects, notes, arrivals, SixMoves(0, now, k, k + 1), 6);
    acts := arrivals + SixMoves(0, now, k, k + 1);
  }

  lemma TwoLocked(cfg: Config, db: Db, objects: set<Key>, notes: seq<Note>, c: Capture, i: Id, d: Capture, j: Id, now: Time, k: Key)
    returns (acts: seq<Act>)
    requires Inv(db) && Fits(db, c, i, now) && Fits(db, d, j, now) && i != j && forall u :: u in objects ==> u < k
    ensures var s := ExecuteNoted(cfg, db, objects, notes, acts);
      && s.w.db == db && s.notes == notes && s.taken == map[]
      && s.w.procs == [Point(db, c, i, now, k, k + 1, 6), Point(db, d, j, now, k + 2, k + 3, 6)]
  {
    var s: Noted;
    acts, s := FirstLocks(cfg, db, objects, notes, OutBegin(d, j), c, i, now, k);
    SecondLocks(cfg, db, objects, notes, acts, s, ExecuteNoted(cfg, db, objects, notes, acts), c, i, d, j, now, k);
    acts := acts + SixMoves(1, now, k + 2, k + 3);
  }

  lemma SecondLocks(cfg: Config, db: Db, objects: set<Key>, notes: seq<Note>, acts: seq<Act>, s0: Noted, s: Noted,
                    c: Capture, i: Id, d: Capture, j: Id, now: Time, k: Key)
    requires Inv(db) && Fits(db, c, i, now) && Fits(db, d, j, now) && i != j && forall u :: u in objects ==> u < k
    requires s0 == Noted(World(db, objects, objects, {}, [OutBegin(c, i), OutBegin(d, j)], [OutBegin(c, i), OutBegin(d, j)], []), notes, map[], [])
    requires s == ExecuteNoted(cfg, db, objects, notes, acts) && OutPhase(s0, s, 0, c, i, now, k, k + 1, 6)
    ensures var v := ExecuteNoted(cfg, db, objects, notes, acts + SixMoves(1, now, k + 2, k + 3));
      && v.w.db == db && v.notes == notes && v.taken == map[]
      && v.w.procs == [Point(db, c, i, now, k, k + 1, 6), Point(db, d, j, now, k + 2, k + 3, 6)]
  {
    SecondLockable(s0, s, c, i, d, j, now, k);
    var plan := SixMoves(1, now, k + 2, k + 3);
    OutLocksAt(cfg, db, objects, notes, acts, s, 1, d, j, now, k + 2, k + 3, 6);
    SecondLocked(s, StateAt(cfg, db, objects, notes, acts, plan, 6), c, i, d, j, now, k);
    WholePlan(cfg, db, objects, notes, acts, plan, 6);
  }

  lemma SecondLockable(s0: Noted, s: Noted, c: Capture, i: Id, d: Capture, j: Id, now: Time, k: Key)
    requires i < |s0.w.db.sessions| && Fits(s0.w.db, d, j, now) && i != j && forall u :: u in s0.w.used ==> u < k
    requires s0.w.procs == [OutBegin(c, i), OutBegin(d, j)] && OutPhase(s0, s, 0, c, i, now, k, k + 1, 6)
    ensures Lockable(s, 1, d, j, k + 2, k + 3)
    ensures s.w.procs == [Point(s0.w.db, c, i, now, k, k + 1, 6), OutBegin(d, j)]
  {
  }

  lemma SecondLocked(s: Noted, v: Noted, c: Capture, i: Id, d: Capture, j: Id, now: Time, k: Key)
    requires i < |s.w.db.sessions| && j < |s.w.db.sessions| && OutPhase(s, v, 1, d, j, now, k + 2, k + 3, 6)
    requires s.w.procs == [Point(s.w.db, c, i, now, k, k + 1, 6), OutBegin(d, j)]
    ensures v.w.procs == [Point(s.w.db, c, i, now, k, k + 1, 6), Point(s.w.db, d, j, now, k + 2, k + 3, 6)]
  {
  }

  // ---- a Time Out and an approval ----

  /** An approval of the pending correction k would be accepted. */
  predicate Approvable(db: Db, k: Id) {
    && PendingOn(db, k)
    && var row := db.sessions[db.corrections[k].attendance];
       var newIn, newOut := db.corrections[k].proposedIn.GetOr(row.effectiveIn), ProposedOr(db.corrections[k].proposedOut, row.effectiveOut);
       newOut.Some? ==> newOut.value > newIn
  }

  /** The approval would commit, before or after a Time Out of another session. */
  lemma ApprovalView(cfg: Config, db: Db, first: Db, k: Id, t: Time)
    requires Inv(db) && Approvable(db, k)
    requires first.corrections == db.corrections && first.adjustments == db.adjustments && first.assignments == db.assignments
    requires |first.sessions| == |db.sessions| && first.sessions[db.corrections[k].attendance] == db.sessions[db.corrections[k].attendance]
    ensures Holding(db, DecidePoint(db, k, 2)) && Committed(OwnView(cfg, first, DecidePoint(db, k, 2), t).1)
  {
    CountNone(db.adjustments, FromCorrection(k));
  }

  /** Likewise for the Time Out of one session overlapping the approval of a correction
      of another. */
  lemma TimeOutAndApprovalMiss(cfg: Config, db: Db, objects: set<Key>, notes: seq<Note>, c: Capture, i: Id, k: Id, now: Time)
    requires Inv(db) && Fits(db, c, i, now) && Approvable(db, k) && db.corrections[k].attendance != i
    requires db.sessions[i].assignment == db.sessions[db.corrections[k].attendance].assignment
    requires OnlyTogether(cfg, db, notes, c.trainee, db.sessions[i].assignment, Credit(db, i, now), OwnChange(db, DecidePoint(db, k, 2)))
    ensures exists acts :: Misses(cfg, ExecuteNoted(cfg, db, objects, notes, acts), c.trainee, db.sessions[i].assignment)
  {
    var key := FreshKey(objects);
    var acts := OutAndDecideLocked(cfg, db, objects, notes, c, i, k, now, key);
    var s := ExecuteNoted(cfg, db, objects, notes, acts);
    TimeOutAndApprovalPoised(cfg, db, s, c, i, k, now, key);
    PoisedMisses(cfg, db, objects, notes, acts, s, now, c.trainee, db.sessions[i].assignment);
  }

  lemma TimeOutAndApprovalPoised(cfg: Config, db: Db, s: Noted, c: Capture, i: Id, k: Id, now: Time, key: Key)
    requires Inv(db) && Fits(db, c, i, now) && Approvable(db, k) && db.corrections[k].attendance != i
    requires db.sessions[i].assignment == db.sessions[db.corrections[k].attendance].assignment
    requires OnlyTogether(cfg, db, s.notes, c.trainee, db.sessions[i].assignment, Credit(db, i, now), OwnChange(db, DecidePoint(db, k, 2)))
    requires s.w.db == db && s.taken == map[]
    requires s.w.procs == [Point(db, c, i, now, key, key + 1, 6), DecidePoint(db, k, 2)]
    ensures Poised(cfg, s, now, c.trainee, db.sessions[i].assignment)
  {
    TimeOutView(cfg, db, c, i, now, key, key + 1, now);
    ApprovalView(cfg, db, db, k, now);
    ApprovalCommits(cfg, db, c, i, k, now, key, OwnView(cfg, db, s.w.procs[0], now).0);
    PairOverlaps(cfg, s, now);
  }

  lemma ApprovalCommits(cfg: Config, db: Db, c: Capture, i: Id, k: Id, now: Time, key: Key, first: Db)
    requires Inv(db) && Fits(db, c, i, now) && Approvable(db, k) && db.corrections[k].attendance != i
    requires OnlyCloses(db, first, EvidenceRow(Taken(c, now, key, key + 1), i, TimeOutAction), i)
    ensures db.corrections[k].attendance < |first.sessions| && Committed(OwnView(cfg, first, DecidePoint(db, k, 2), now).1)
  {
    ApprovalView(cfg, db, first, k, now);
  }

  lemma OutAndDecideLocked(cfg: Config, db: Db, objects: set<Key>, notes: seq<Note>, c: Capture, i: Id, k: Id, now: Time, key: Key)
    returns (acts: seq<Act>)
    requires Inv(db) && Fits(db, c, i, now) && PendingOn(db, k) && db.corrections[k].attendance != i
    requires forall u :: u in objects ==> u < key
    ensures var s := ExecuteNoted(cfg, db, objects, notes, acts);
      && s.w.db == db && s.notes == notes && s.taken == map[]
      && s.w.procs == [Point(db, c, i, now, key, key + 1, 6), DecidePoint(db, k, 2)]
  {
    var s: Noted;
    acts, s := FirstLocks(cfg, db, objects, notes, DecideBegin(k, Approve), c, i, now, key);
    DecideLocks(cfg, db, objects, notes, acts, s, ExecuteNoted(cfg, db, objects, notes, acts), c, i, k, now, key);
    acts := acts + TwoMoves(1, now);
  }

  lemma DecideLocks(cfg: Config, db: Db, objects: set<Key>, notes: seq<Note>, acts: seq<Act>, s0: Noted, s: Noted,
                    c: Capture, i: Id, k: Id, now: Time, key: Key)
    requires Inv(db) && Fits(db, c, i, now) && PendingOn(db, k) && db.corrections[k].attendance != i
    requires var procs := [OutBegin(c, i), DecideBegin(k, Approve)];
             s0 == Noted(World(db, objects, objects, {}, procs, procs, []), notes, map[], [])
    requires s == ExecuteNoted(cfg, db, objects, notes, acts) && OutPhase(s0, s, 0, c, i, now, key, key + 1, 6)
    ensures var v := ExecuteNoted(cfg, db, objects, notes, acts + TwoMoves(1, now));
      && v.w.db == db && v.notes == notes && v.taken == map[]
      && v.w.procs == [Point(db, c, i, now, key, key + 1, 6), DecidePoint(db, k, 2)]
  {
    SecondDecidable(s0, s, c, i, k, now, key);
    var plan := TwoMoves(1, now);
    DecideLocksAt(cfg, db, objects, notes, acts, s, 1, k, now, 2);
    DecideLocked(s, StateAt(cfg, db, objects, notes, acts, plan, 2), c, i, k, now, key);
    WholePlan(cfg, db, objects, notes, acts, plan, 2);
  }

  lemma SecondDecidable(s0: Noted, s: Noted, c: Capture, i: Id, k: Id, now: Time, key: Key)
    requires i < |s0.w.db.sessions| && PendingOn(s0.w.db, k) && s0.w.db.corrections[k].attendance != i
    requires s0.w.procs == [OutBegin(c, i), DecideBegin(k, Approve)] && OutPhase(s0, s, 0, c, i, now, key, key + 1, 6)
    ensures Decidable(s, 1, k) && s.w.procs == [Point(s0.w.db, c, i, now, key, key + 1, 6), DecideBegin(k, Approve)]
  {
  }

  lemma DecideLocked(s: Noted, v: Noted, c: Capture, i: Id, k: Id, now: Time, key: Key)
    requires i < |s.w.db.sessions| && PendingOn(s.w.db, k) && DecidePhase(s, v, 1, k, 2)
    requires s.w.procs == [Point(s.w.db, c, i, now, key, key + 1, 6), DecideBegin(k, Approve)]
    ensures v.w.procs == [Point(s.w.db, c, i, now, key, key + 1, 6), DecidePoint(s.w.db, k, 2)]
  {
  }

  // ---- instances ----

  function Site(): Assignment { Assignment(0, true, 0, None, 100, BreakRule(NoBreak, 0, 0), {}) }

  function OpenAt(date: Date, now: Time): Session {
    Session(0, 0, date, now, None, now, None, None, Open, [], 1, None, None)
  }

  /** Two days, started a minute apart, against a requirement of 100 minutes. */
  function TwoOpenDays(): seq<Event> {
    [EditAssignments([Site()]),
     TimeIn(Capture(0, 1, Verified, false, 1, 2, 0)),
     TimeIn(Capture(0, 2, Verified, false, 3, 4, NANOS_PER_MINUTE))]
  }

  /** The trainee also says the first day ended after 61 minutes. */
  function MissedFirstTimeOut(reason: string): Proposal {
    Proposal(0, 0, MissedTimeOut, reason, None, Some(61 * NANOS_PER_MINUTE), 0, 62 * NANOS_PER_MINUTE)
  }

  predicate Prepared(db: Db) {
    && db.assignments == [Site()] && db.corrections == []
    && db.sessions == [OpenAt(0, 0), OpenAt(1, NANOS_PER_MINUTE)]
    && db.evidence == [Evidence(0, 0, TimeInAction, 1, 0, Verified, 1, 2), Evidence(1, 0, TimeInAction, 2, NANOS_PER_MINUTE, Verified, 3, 4)]
  }

  lemma FirstOpens(cfg: Config, db: Db, c: Capture)
    requires db.assignments == [Site()] && c.trainee == 0 && c.location == Verified && cfg.localDate(c.now) >= 0
    requires Find(db.sessions, OnDay(0, cfg.localDate(c.now))).None? && Find(db.evidence, WithAction(0, c.clientAction)).None?
    ensures ApplyTimeIn(cfg, db, c).0 ==
      db.(sessions := db.sessions + [OpenAt(cfg.localDate(c.now), c.now)],
          evidence := db.evidence + [EvidenceRow(c, |db.sessions|, TimeInAction)])
  {
    assert Covers(0, cfg.localDate(c.now))(db.assignments[0]);
  }

  lemma OneDayIsOpen(cfg: Config, es: seq<Event>, db: Db)
    requires cfg.localDate(0) == 0 && es == TwoOpenDays() && db == Run(cfg, es[..2])
    ensures db.assignments == [Site()] && db.sessions == [OpenAt(0, 0)] && db.corrections == []
    ensures db.evidence == [Evidence(0, 0, TimeInAction, 1, 0, Verified, 1, 2)]
  {
    RunSnoc(cfg, es, 0);
    RunSnoc(cfg, es, 1);
    var db1 := Run(cfg, es[..1]);
    assert db1 == EMPTY.(assignments := [Site()]);
    FirstOpens(cfg, db1, es[1].capture);
  }

  lemma TwoDaysAreOpen(cfg: Config, db: Db)
    requires cfg.localDate(0) == 0 && cfg.localDate(NANOS_PER_MINUTE) == 1 && db == Run(cfg, TwoOpenDays())
    ensures Prepared(db) && Inv(db)
  {
    var es := TwoOpenDays();
    RunKeeps(cfg, es);
    assert es[..3] == es;
    RunSnoc(cfg, es, 2);
    var db2 := Run(cfg, es[..2]);
    OneDayIsOpen(cfg, es, db2);
    assert !OnDay(0, 1)(db2.sessions[0]) && !WithAction(0, 2)(db2.evidence[0]);
    FirstOpens(cfg, db2, es[2].capture);
  }

  lemma NothingYet(db: Db)
    requires db.sessions == [OpenAt(0, 0), OpenAt(1, NANOS_PER_MINUTE)]
    ensures Minutes(db, 0, 0) == 0
  {
    assert db.sessions[..1] == [OpenAt(0, 0)] && db.sessions[..1][..0] == [];
    assert Sum(db.sessions[..1], ByTrainee(0, 0)) == 0;
  }

  lemma DayFits(db: Db, c: Capture, i: Id)
    requires i < 2 && c.trainee == 0 && c.clientAction > 2 && c.location == Verified
    requires db.assignments == [Site()] && db.sessions == [OpenAt(0, 0), OpenAt(1, NANOS_PER_MINUTE)]
    requires db.evidence == [Evidence(0, 0, TimeInAction, 1, 0, Verified, 1, 2), Evidence(1, 0, TimeInAction, 2, NANOS_PER_MINUTE, Verified, 3, 4)]
    ensures Fits(db, c, i, 61 * NANOS_PER_MINUTE) && Credit(db, i, 61 * NANOS_PER_MINUTE) == if i == 0 then 61 else 60
  {
    forall k | 0 <= k < 2 ensures !WithAction(0, c.clientAction)(db.evidence[k]) {}
  }

  /** The two days timed out at once: 121 minutes of 100, and nobody is told. */
  lemma MilestoneCanBeMissed(cfg: Config, objects: set<Key>)
    requires cfg.localDate(0) == 0 && cfg.localDate(NANOS_PER_MINUTE) == 1
    ensures exists acts :: Misses(cfg, ExecuteNoted(cfg, Run(cfg, TwoOpenDays()), objects, [], acts), 0, 0)
  {
    var db := Run(cfg, TwoOpenDays());
    TwoDaysAreOpen(cfg, db);
    NothingYet(db);
    var c, d := Capture(0, 3, Verified, false, 0, 0, 0), Capture(0, 4, Verified, false, 0, 0, 0);
    DayFits(db, c, 0);
    DayFits(db, d, 1);
    TwoTimeOutsMiss(cfg, db, objects, [], c, 0, d, 1, 61 * NANOS_PER_MINUTE);
  }

  lemma CorrectionIsFiled(cfg: Config, reason: string, db: Db, filed: Db)
    requires TrimSpace(reason) != "" && Prepared(db) && filed == ApplyRequest(db, MissedFirstTimeOut(reason)).0
    ensures filed == db.(corrections := [Correction(0, 0, MissedTimeOut, None, Some(61 * NANOS_PER_MINUTE), Pending)])
    ensures Approvable(filed, 0) && OwnChange(filed, DecidePoint(filed, 0, 2)) == 61
  {
  }

  /** The second day timed out while the correction that closes the first is approved. */
  lemma ApprovalCanMissToo(cfg: Config, objects: set<Key>, reason: string)
    requires cfg.localDate(0) == 0 && cfg.localDate(NANOS_PER_MINUTE) == 1 && TrimSpace(reason) != ""
    ensures var db := Run(cfg, TwoOpenDays() + [Request(MissedFirstTimeOut(reason))]);
      exists acts :: Misses(cfg, ExecuteNoted(cfg, db, objects, [], acts), 0, 0)
  {
    var db := Run(cfg, TwoOpenDays() + [Request(MissedFirstTimeOut(reason))]);
    CorrectionIsPending(cfg, reason, db);
    PendingDayMisses(cfg, db, objects);
  }

  lemma CorrectionIsPending(cfg: Config, reason: string, db: Db)
    requires cfg.localDate(0) == 0 && cfg.localDate(NANOS_PER_MINUTE) == 1 && TrimSpace(reason) != ""
    requires db == Run(cfg, TwoOpenDays() + [Request(MissedFirstTimeOut(reason))])
    ensures exists before :: Prepared(before) && db == before.(corrections := [Correction(0, 0, MissedTimeOut, None, Some(61 * NANOS_PER_MINUTE), Pending)])
    ensures Inv(db) && Approvable(db, 0) && OwnChange(db, DecidePoint(db, 0, 2)) == 61
  {
    var es := TwoOpenDays() + [Request(MissedFirstTimeOut(reason))];
    assert es[..|es| - 1] == TwoOpenDays();
    var before := Run(cfg, TwoOpenDays());
    TwoDaysAreOpen(cfg, before);
    CorrectionIsFiled(cfg, reason, before, db);
    RunKeeps(cfg, es);
  }

  lemma PendingDayMisses(cfg: Config, db: Db, objects: set<Key>)
    requires Inv(db) && Approvable(db, 0) && OwnChange(db, DecidePoint(db, 0, 2)) == 61
    requires exists before :: Prepared(before) && db == before.(corrections := [Correction(0, 0, MissedTimeOut, None, Some(61 * NANOS_PER_MINUTE), Pending)])
    ensures exists acts :: Misses(cfg, ExecuteNoted(cfg, db, objects, [], acts), 0, 0)
  {
    var c := Capture(0, 3, Verified, false, 0, 0, 0);
    NothingYet(db);
    DayFits(db, c, 1);
    TimeOutAndApprovalMiss(cfg, db, objects, [], c, 1, 0, 61 * NANOS_PER_MINUTE);
  }
}
