/** What one step of an interleaving can change, and what no further steps undo. */
module Steps {
  import opened Common
  import opened Schema
  import opened Ledger
  import opened LedgerInvariants
  import opened LedgerHistory
  import opened Concurrent
  import opened Serialization

  /** The step moves request n. */
  predicate Moves(l: Label, n: nat) { l.Move? && l.index == n }

  /** Only request n may have moved, and at most one entry was logged. */
  ghost predicate Local(w: World, v: World, n: nat) {
    && |v.procs| == |w.procs| && (forall m :: 0 <= m < |w.procs| && m != n ==> v.procs[m] == w.procs[m])
    && v.asked == w.asked
    && Logs(w, v)
  }

  /** Nothing committed, or one request did. */
  ghost predicate Logs(w: World, v: World) {
    if v.log == w.log then v.db == w.db else exists x :: v.log == w.log + [x]
  }

  lemma MoveInIsLocal(cfg: Config, w: World, n: nat, ch: Choice)
    requires n < |w.procs|
    ensures Local(w, MoveIn(cfg, w, n, ch), n)
  {
  }

  lemma MoveOutIsLocal(cfg: Config, w: World, n: nat, ch: Choice)
    requires n < |w.procs|
    ensures Local(w, MoveOut(cfg, w, n, ch), n)
  {
  }

  lemma MoveCaptureIsLocal(cfg: Config, w: World, n: nat, ch: Choice)
    requires n < |w.procs|
    ensures Local(w, MoveCapture(cfg, w, n, ch), n)
  {
  }

  lemma MoveCorrectionIsLocal(w: World, n: nat, ch: Choice)
    requires n < |w.procs|
    ensures Local(w, MoveCorrection(w, n, ch), n)
  {
  }

  lemma StepIsLocal(cfg: Config, w: World, l: Label)
    ensures var v := StepWorld(cfg, w, l);
      && |w.procs| <= |v.procs|
      && (forall m :: 0 <= m < |w.procs| && !Moves(l, m) ==> v.procs[m] == w.procs[m])
      && w.asked <= v.asked
      && Logs(w, v)
  {
    if l.Move? && l.index < |w.procs| {
      MoveInIsLocal(cfg, w, l.index, l.choice);
      MoveOutIsLocal(cfg, w, l.index, l.choice);
      MoveCaptureIsLocal(cfg, w, l.index, l.choice);
      MoveCorrectionIsLocal(w, l.index, l.choice);
    }
  }

  /** The tables only ever move by a committed request. */
  lemma StepGrowsTables(cfg: Config, db: Db, w: World, l: Label)
    requires WorldInv(cfg, db, w)
    ensures WorldInv(cfg, db, StepWorld(cfg, w, l)) && Grows(w.db, StepWorld(cfg, w, l).db)
  {
    var v := StepWorld(cfg, w, l);
    StepKeepsWorld(cfg, db, w, l);
    StepIsLocal(cfg, w, l);
    if v.log == w.log {
      GrowsReflexive(w.db);
    } else {
      var x :| v.log == w.log + [x];
      assert v.log[..|v.log| - 1] == w.log;
      StepGrows(cfg, w.db, x.event);
    }
  }

  lemma GrowsReflexive(db: Db)
    ensures Grows(db, db)
  {
  }

  // ---- facts that stay true ----

  /** The session an action id was recorded for never changes. */
  lemma ReplayStays(a: Db, b: Db, t: Id, x: Id)
    requires Grows(a, b)
    ensures FindReplay(a, t, x).Some? ==> FindReplay(b, t, x) == FindReplay(a, t, x)
    ensures forall i :: FindReplay(a, t, x).Some? ==> ReplaysTimeOut(b, t, x, i) == ReplaysTimeOut(a, t, x, i)
  {
    var k := Find(a.evidence, WithAction(t, x));
    if k.Some? {
      FirstStays(a.evidence, b.evidence, WithAction(t, x));
    }
  }

  /** A step seen from request n and one action id. */
  lemma StepSeen(cfg: Config, db: Db, w: World, l: Label, n: nat, t: Id, x: Id)
    requires WorldInv(cfg, db, w) && n < |w.procs|
    ensures var v := StepWorld(cfg, w, l);
      && n < |v.procs| && (!Moves(l, n) ==> v.procs[n] == w.procs[n])
      && (FindReplay(w.db, t, x).Some? ==>
            FindReplay(v.db, t, x) == FindReplay(w.db, t, x) && forall i :: ReplaysTimeOut(v.db, t, x, i) == ReplaysTimeOut(w.db, t, x, i))
  {
    StepIsLocal(cfg, w, l);
    StepGrowsTables(cfg, db, w, l);
    ReplayStays(w.db, StepWorld(cfg, w, l).db, t, x);
  }

  lemma FirstStays<T>(s: seq<T>, r: seq<T>, p: T -> bool)
    requires s <= r && Find(s, p).Some?
    ensures Find(r, p) == Find(s, p)
  {
    var k := Find(s, p).value;
    assert p(r[k]) && forall m :: 0 <= m < k ==> r[m] == s[m];
  }

  lemma DayStaysTaken(a: Db, b: Db, t: Id, day: Date)
    requires Grows(a, b) && Find(a.sessions, OnDay(t, day)).Some?
    ensures Find(b.sessions, OnDay(t, day)).Some?
  {
    var k := Find(a.sessions, OnDay(t, day)).value;
    assert OnDay(t, day)(b.sessions[k]);
  }

  /** A session timed out under an action id belongs to its trainee and is not open. */
  lemma ReplayedIsClosed(db: Db, t: Id, x: Id, i: Id)
    requires Inv(db) && ReplaysTimeOut(db, t, x, i)
    ensures Owned(db, t, i) && db.sessions[i].status != Open && FindReplay(db, t, x) == Some(i)
  {
    var k := Find(db.evidence, WithAction(t, x)).value;
    assert EvidenceOf(i, TimeOutAction)(db.evidence[k]);
    CountNone(db.evidence, EvidenceOf(i, TimeOutAction));
    assert SessionOk(db, i);
  }

  // ---- what a step may touch ----

  lemma FrameReflexive(db: Db, i: Option<Id>, k: Option<Id>)
    ensures Frame(db, db, i, k)
  {
  }

  /** The row locks request n holds. */
  function SessionLock(w: World, l: Label): Option<Id> {
    if l.Move? && l.index < |w.procs| then SessionHeld(w.procs[l.index]) else None
  }

  function CorrectionLock(w: World, l: Label): Option<Id> {
    if l.Move? && l.index < |w.procs| then CorrectionHeld(w.procs[l.index]) else None
  }

  /** A step changes no session or correction row but those its request has locked. */
  lemma StepFrames(cfg: Config, db: Db, w: World, l: Label)
    requires WorldInv(cfg, db, w)
    ensures Frame(w.db, StepWorld(cfg, w, l).db, SessionLock(w, l), CorrectionLock(w, l))
  {
    var v := StepWorld(cfg, w, l);
    FrameReflexive(w.db, SessionLock(w, l), CorrectionLock(w, l));
    match l
    case Arrive(_) =>
    case Direct(e) => if IsJournalEvent(e) { JournalFrame(cfg, w.db, e); }
    case Move(n, ch) =>
      if n < |w.procs| && v.log != w.log {
        assert ProcOk(cfg, w.db, w.procs[n]);
        MoveFrames(cfg, w, n, ch);
      } else {
        StepIsLocal(cfg, w, l);
      }
  }

  lemma MoveFrames(cfg: Config, w: World, n: nat, ch: Choice)
    requires n < |w.procs| && ProcOk(cfg, w.db, w.procs[n]) && StepWorld(cfg, w, Move(n, ch)).log != w.log
    ensures Frame(w.db, StepWorld(cfg, w, Move(n, ch)).db, SessionHeld(w.procs[n]), CorrectionHeld(w.procs[n]))
  {
    match w.procs[n]
    case OutLocked(c, i, rule, curIn, curFlags) => TimeOutFrame(cfg, w.db, c, i, curIn, curFlags, rule);
    case Ready(c, job) => if job.JobIn? { InsertTimeInIsAtomic(cfg, w.db, c, job.assignment); }
    case DecideHeld(k, _) => RejectIsAtomic(cfg, w.db, k, ch.now);
    case DecideBoth(k, i, curIn, curOut) => ApproveIsAtomic(cfg, w.db, k, i, curIn, curOut, ch.now);
    case RequestReady(p) => InsertRequestIsAtomic(cfg, w.db, p);
    case _ =>
  }
}
