/** Any interleaving of the step-by-step requests leaves the tables that running
    the successful ones alone, one at a time in commit order, would leave. */
module Serialization {
  import opened Common
  import opened Hours
  import opened Schema
  import opened Ledger
  import opened LedgerInvariants
  import opened Concurrent

  function ByProc(n: nat): Entry -> bool { (x: Entry) => x.proc == Some(n) }

  function Replay(cfg: Config, db: Db, log: seq<Entry>): Db {
    if log == [] then db else Apply(cfg, Replay(cfg, db, log[..|log| - 1]), log[|log| - 1].event).0
  }

  // ---- What a request may rely on between its steps ----

  predicate Owned(db: Db, trainee: Id, i: Id) { i < |db.sessions| && db.sessions[i].trainee == trainee }

  predicate JobOk(cfg: Config, db: Db, c: Capture, job: Job) {
    && !MissingReason(c)
    && match job
       case JobIn(a) => ActiveSite(db, c.trainee, cfg.localDate(c.now)) == Some(a)
       case JobOut(i, rule) => Owned(db, c.trainee, i) && rule == RuleOf(db, i)
  }

  predicate PendingOn(db: Db, k: Id) {
    k < |db.corrections| && db.corrections[k].status == Pending && db.corrections[k].attendance < |db.sessions|
  }

  /** A request's saved reads, at each of its program points, still describe the
      tables wherever its later steps need them to. */
  predicate ProcOk(cfg: Config, db: Db, p: Proc) {
    match p
    case InSited(c, a) => ActiveSite(db, c.trainee, cfg.localDate(c.now)) == Some(a)
    case OutRead(c, i, _) => Owned(db, c.trainee, i)
    case OutFresh(c, i) => Owned(db, c.trainee, i)
    case PutOriginal(c, job) => JobOk(cfg, db, c, job)
    case PutWatermarked(c, job) => JobOk(cfg, db, c, job)
    case Ready(c, job) => JobOk(cfg, db, c, job)
    case OutLocked(c, i, rule, curIn, curFlags) =>
      && JobOk(cfg, db, c, JobOut(i, rule))
      && db.sessions[i].status == Open && db.sessions[i].effectiveIn == curIn && db.sessions[i].flags == curFlags
    case DecideHeld(k, verdict) => PendingOn(db, k) && verdict != UnknownVerdict
    case DecideBoth(k, i, curIn, curOut) =>
      && PendingOn(db, k) && db.corrections[k].attendance == i
      && db.sessions[i].effectiveIn == curIn && db.sessions[i].effectiveOut == curOut
    case RequestRead(p) => Owned(db, p.trainee, p.session)
    case RequestReady(p) => Owned(db, p.trainee, p.session) && ValidateProposal(p).None?
    case _ => true
  }

  predicate SameAsk(b: Capture, c: Capture) {
    c.trainee == b.trainee && c.clientAction == b.clientAction && c.location == b.location && c.hasReason == b.hasReason
  }

  /** p is a later point of the request that arrived as b. */
  predicate Continues(b: Proc, p: Proc) {
    match p
    case InBegin(c) => b == p
    case OutBegin(_, _) => b == p
    case DecideBegin(_, _) => b == p
    case RequestBegin(_) => b == p
    case InSited(c, _) => b.InBegin? && SameAsk(b.c, c)
    case OutRead(c, i, _) => b.OutBegin? && SameAsk(b.c, c) && b.session == i
    case OutFresh(c, i) => b.OutBegin? && SameAsk(b.c, c) && b.session == i
    case PutOriginal(c, job) => FromJob(b, c, job)
    case PutWatermarked(c, job) => FromJob(b, c, job)
    case Ready(c, job) => FromJob(b, c, job)
    case OutLocked(c, i, _, _, _) => b.OutBegin? && SameAsk(b.c, c) && b.session == i
    case DecideHeld(k, verdict) => b == DecideBegin(k, verdict)
    case DecideBoth(k, _, _, _) => b == DecideBegin(k, Approve)
    case RequestRead(p) => b.RequestBegin? && p == b.p.(seenIn := p.seenIn)
    case RequestReady(p) => b.RequestBegin? && p == b.p.(seenIn := p.seenIn, now := p.now)
    case _ => true
  }

  predicate FromJob(b: Proc, c: Capture, job: Job) {
    match job
    case JobIn(_) => b.InBegin? && SameAsk(b.c, c)
    case JobOut(i, _) => b.OutBegin? && SameAsk(b.c, c) && b.session == i
  }

  /** The logged event is the arrived request, with the timestamp and object keys it
      generated on the way (and, for a correction, the time-in it saw). */
  predicate Serves(b: Proc, e: Event) {
    match e
    case TimeIn(c) => b.InBegin? && SameAsk(b.c, c)
    case TimeOut(c, i) => b.OutBegin? && SameAsk(b.c, c) && b.session == i
    case Decide(k, verdict, _) => b == DecideBegin(k, verdict)
    case Request(p) => b.RequestBegin? && p == b.p.(seenIn := p.seenIn, now := p.now)
    case _ => false
  }

  // ---- The invariant ----

  /** No two requests hold the same row lock. */
  ghost predicate Exclusive(procs: seq<Proc>) {
    forall m, n :: 0 <= m < |procs| && 0 <= n < |procs| && m != n ==>
      && (SessionHeld(procs[m]).Some? ==> SessionHeld(procs[m]) != SessionHeld(procs[n]))
      && (CorrectionHeld(procs[m]).Some? ==> CorrectionHeld(procs[m]) != CorrectionHeld(procs[n]))
  }

  predicate Succeeded(p: Proc) { p.Finished? && Committed(p.outcome) }

  /** The log holds one entry per successful request, none for any other, and each
      entry is that request with that outcome. */
  ghost predicate LogOk(cfg: Config, db: Db, w: World) {
    && (forall n :: 0 <= n < |w.procs| ==> Count(w.log, ByProc(n)) == (if Succeeded(w.procs[n]) then 1 else 0))
    && (forall m :: 0 <= m < |w.log| ==> EntryOk(cfg, db, w, m))
  }

  ghost predicate EntryOk(cfg: Config, db: Db, w: World, m: nat)
    requires m < |w.log|
  {
    var o := Apply(cfg, Replay(cfg, db, w.log[..m]), w.log[m].event).1;
    && Committed(o)
    && (w.log[m].proc.Some? ==>
          var n := w.log[m].proc.value;
          n < |w.procs| && n < |w.asked| && w.procs[n] == Finished(o) && Serves(w.asked[n], w.log[m].event))
    && (w.log[m].proc.None? ==> IsJournalEvent(w.log[m].event))
  }

  ghost predicate WorldInv(cfg: Config, db: Db, w: World) {
    && Inv(w.db)
    && w.db == Replay(cfg, db, w.log)
    && |w.asked| == |w.procs|
    && (forall n :: 0 <= n < |w.procs| ==> ProcOk(cfg, w.db, w.procs[n]) && Continues(w.asked[n], w.procs[n]))
    && Exclusive(w.procs)
    && LogOk(cfg, db, w)
  }

  // ---- Moving one request without touching the tables ----

  predicate MayHold(w: World, n: nat, p: Proc)
    requires n < |w.procs|
  {
    && (SessionHeld(p).Some? ==> SessionHeld(p) == SessionHeld(w.procs[n]) || Find(w.procs, HoldsSession(SessionHeld(p).value)).None?)
    && (CorrectionHeld(p).Some? ==> CorrectionHeld(p) == CorrectionHeld(w.procs[n]) || Find(w.procs, HoldsCorrection(CorrectionHeld(p).value)).None?)
  }

  lemma ExclusiveAfter(w: World, n: nat, p: Proc)
    requires n < |w.procs| && Exclusive(w.procs) && MayHold(w, n, p)
    ensures Exclusive(w.procs[n := p])
  {
    forall m | 0 <= m < |w.procs| && m != n
      ensures SessionHeld(p).Some? ==> SessionHeld(p) != SessionHeld(w.procs[m])
      ensures CorrectionHeld(p).Some? ==> CorrectionHeld(p) != CorrectionHeld(w.procs[m])
    {
      if SessionHeld(p).Some? && SessionHeld(p) != SessionHeld(w.procs[n]) {
        assert !HoldsSession(SessionHeld(p).value)(w.procs[m]);
      }
      if CorrectionHeld(p).Some? && CorrectionHeld(p) != CorrectionHeld(w.procs[n]) {
        assert !HoldsCorrection(CorrectionHeld(p).value)(w.procs[m]);
      }
    }
  }

  /** A request at its program point: its saved reads hold and it is the one that arrived. */
  predicate AtPoint(cfg: Config, w: World, n: nat) {
    && n < |w.procs| == |w.asked|
    && ProcOk(cfg, w.db, w.procs[n]) && Continues(w.asked[n], w.procs[n])
  }

  /** v is w with request n moved on, the tables and the log as they were. */
  predicate Quiet(cfg: Config, w: World, n: nat, v: World)
    requires n < |w.procs| == |w.asked|
  {
    && n < |v.procs|
    && v.db == w.db && v.log == w.log && v.asked == w.asked && v.procs == w.procs[n := v.procs[n]]
    && !Succeeded(v.procs[n]) && ProcOk(cfg, w.db, v.procs[n]) && Continues(w.asked[n], v.procs[n])
    && MayHold(w, n, v.procs[n])
  }

  lemma QuietKeeps(cfg: Config, db: Db, w: World, n: nat, v: World)
    requires WorldInv(cfg, db, w) && n < |w.procs| && !Succeeded(w.procs[n]) && Quiet(cfg, w, n, v)
    ensures WorldInv(cfg, db, v)
  {
    ExclusiveAfter(w, n, v.procs[n]);
    QuietLog(cfg, db, w, n, v);
  }

  lemma QuietLog(cfg: Config, db: Db, w: World, n: nat, v: World)
    requires LogOk(cfg, db, w) && |w.asked| == |w.procs| && n < |w.procs|
    requires v.log == w.log && v.asked == w.asked && n < |v.procs| && v.procs == w.procs[n := v.procs[n]]
    requires !Succeeded(w.procs[n]) && !Succeeded(v.procs[n])
    ensures LogOk(cfg, db, v)
  {
    forall m | 0 <= m < |v.log| ensures EntryOk(cfg, db, v, m) {
      assert EntryOk(cfg, db, w, m);
    }
  }

  // ---- Commits ----

  /** The tables changed only in the session row and correction row whose locks the
      committing request held, and by appending. */
  ghost predicate Frame(a: Db, b: Db, i: Option<Id>, k: Option<Id>) {
    && b.assignments == a.assignments
    && |a.sessions| <= |b.sessions|
    && (forall m :: 0 <= m < |a.sessions| ==>
          && b.sessions[m].trainee == a.sessions[m].trainee && b.sessions[m].assignment == a.sessions[m].assignment
          && (i != Some(m) ==> b.sessions[m] == a.sessions[m]))
    && |a.corrections| <= |b.corrections|
    && (forall m :: 0 <= m < |a.corrections| ==>
          && b.corrections[m].attendance == a.corrections[m].attendance
          && (k != Some(m) ==> b.corrections[m] == a.corrections[m]))
  }

  lemma FrameKeepsProc(cfg: Config, a: Db, b: Db, i: Option<Id>, k: Option<Id>, p: Proc)
    requires Frame(a, b, i, k) && ProcOk(cfg, a, p)
    requires SessionHeld(p).Some? ==> SessionHeld(p) != i
    requires CorrectionHeld(p).Some? ==> CorrectionHeld(p) != k
    ensures ProcOk(cfg, b, p)
  {
  }

  /** v is w with request n finished by committing an event the atomic transition
      accepts on these tables, with the outcome it gives there. */
  ghost predicate Commits(cfg: Config, w: World, n: nat, v: World)
    requires n < |w.procs| == |w.asked|
  {
    && |v.log| == |w.log| + 1
    && var e := v.log[|w.log|].event;
       var (after, o) := Apply(cfg, w.db, e);
       && Committed(o) && Serves(w.asked[n], e)
       && Frame(w.db, after, SessionHeld(w.procs[n]), CorrectionHeld(w.procs[n]))
       && v == Commit(w, n, after, e, o)
  }

  lemma CommitKeeps(cfg: Config, db: Db, w: World, n: nat, v: World)
    requires WorldInv(cfg, db, w) && n < |w.procs| && !Succeeded(w.procs[n]) && Commits(cfg, w, n, v)
    ensures WorldInv(cfg, db, v)
  {
    var e := v.log[|w.log|].event;
    var (after, o) := Apply(cfg, w.db, e);
    CommitTables(cfg, db, w.db, w.log, Entry(Some(n), e));
    CommitProcs(cfg, w, n, after, e, o);
    CommitLog(cfg, db, w, n, after, e, o);
  }

  lemma CommitTables(cfg: Config, db: Db, now: Db, log: seq<Entry>, entry: Entry)
    requires Inv(now) && now == Replay(cfg, db, log)
    ensures var after := Apply(cfg, now, entry.event).0; Inv(after) && after == Replay(cfg, db, log + [entry])
  {
    StepKeeps(cfg, now, entry.event);
    assert (log + [entry])[..|log|] == log;
  }

  lemma CommitProcs(cfg: Config, w: World, n: nat, after: Db, e: Event, o: Outcome)
    requires n < |w.procs| && |w.asked| == |w.procs| && Exclusive(w.procs)
    requires forall m :: 0 <= m < |w.procs| ==> ProcOk(cfg, w.db, w.procs[m]) && Continues(w.asked[m], w.procs[m])
    requires Frame(w.db, after, SessionHeld(w.procs[n]), CorrectionHeld(w.procs[n]))
    ensures var v := Commit(w, n, after, e, o);
      && Exclusive(v.procs)
      && (forall m :: 0 <= m < |v.procs| ==> ProcOk(cfg, v.db, v.procs[m]) && Continues(v.asked[m], v.procs[m]))
  {
    var v := Commit(w, n, after, e, o);
    ExclusiveAfter(w, n, Finished(o));
    forall m | 0 <= m < |v.procs| ensures ProcOk(cfg, v.db, v.procs[m]) && Continues(v.asked[m], v.procs[m]) {
      if m != n { FrameKeepsProc(cfg, w.db, after, SessionHeld(w.procs[n]), CorrectionHeld(w.procs[n]), w.procs[m]); }
    }
  }

  lemma CommitLog(cfg: Config, db: Db, w: World, n: nat, after: Db, e: Event, o: Outcome)
    requires LogOk(cfg, db, w) && w.db == Replay(cfg, db, w.log) && |w.asked| == |w.procs|
    requires n < |w.procs| && !Succeeded(w.procs[n])
    requires Apply(cfg, w.db, e) == (after, o) && Committed(o) && Serves(w.asked[n], e)
    ensures LogOk(cfg, db, Commit(w, n, after, e, o))
  {
    var v := Commit(w, n, after, e, o);
    forall m | 0 <= m < |v.procs| ensures Count(v.log, ByProc(m)) == (if Succeeded(v.procs[m]) then 1 else 0) {
      CountAppend(w.log, Entry(Some(n), e), ByProc(m));
    }
    CountNone(w.log, ByProc(n));
    forall m | 0 <= m < |v.log| ensures EntryOk(cfg, db, v, m) {
      if m < |w.log| {
        assert EntryOk(cfg, db, w, m) && v.log[..m] == w.log[..m] && v.log[m] == w.log[m];
        assert !ByProc(n)(w.log[m]);
      } else {
        assert v.log[..m] == w.log;
      }
    }
  }

  ghost predicate QuietOrCommits(cfg: Config, w: World, n: nat, v: World)
    requires n < |w.procs| == |w.asked|
  {
    Quiet(cfg, w, n, v) || Commits(cfg, w, n, v)
  }

  lemma CommitIs(cfg: Config, w: World, n: nat, after: Db, e: Event, o: Outcome)
    requires n < |w.procs| == |w.asked| && Apply(cfg, w.db, e) == (after, o) && Committed(o) && Serves(w.asked[n], e)
    requires Frame(w.db, after, SessionHeld(w.procs[n]), CorrectionHeld(w.procs[n]))
    ensures Commits(cfg, w, n, Commit(w, n, after, e, o))
  {
  }

  // ---- Each request's own steps ----

  lemma MoveInQuiet(cfg: Config, w: World, n: nat, ch: Choice)
    requires AtPoint(cfg, w, n) && (w.procs[n].InBegin? || w.procs[n].InSited?)
    ensures Quiet(cfg, w, n, MoveIn(cfg, w, n, ch))
  {
  }

  lemma MoveOutQuiet(cfg: Config, w: World, n: nat, ch: Choice)
    requires AtPoint(cfg, w, n) && (w.procs[n].OutBegin? || w.procs[n].OutRead? || w.procs[n].OutFresh?)
    ensures Quiet(cfg, w, n, MoveOut(cfg, w, n, ch))
  {
  }

  lemma TimeOutFrame(cfg: Config, db: Db, c: Capture, i: Id, curIn: Time, curFlags: seq<Flag>, rule: BreakRule)
    requires i < |db.sessions|
    ensures Frame(db, InsertTimeOut(cfg, db, c, i, curIn, curFlags, rule).0, Some(i), None)
  {
  }

  /** The locked transaction of Time Out is the atomic Time Out: its re-read agrees
      with the table, its action id is new, and its stale reads do not matter. */
  lemma LockedTimeOutIsAtomic(cfg: Config, db: Db, c: Capture, i: Id, rule: BreakRule, curIn: Time, curFlags: seq<Flag>)
    requires ProcOk(cfg, db, OutLocked(c, i, rule, curIn, curFlags))
    requires InsertTimeOut(cfg, db, c, i, curIn, curFlags, rule).1.Created?
    ensures Apply(cfg, db, TimeOut(c, i)) == InsertTimeOut(cfg, db, c, i, curIn, curFlags, rule)
  {
  }

  lemma OutLockedMoves(cfg: Config, w: World, n: nat, ch: Choice)
    requires AtPoint(cfg, w, n) && w.procs[n].OutLocked?
    ensures QuietOrCommits(cfg, w, n, MoveOut(cfg, w, n, ch))
  {
    var OutLocked(c, i, rule, curIn, curFlags) := w.procs[n];
    var (after, o) := InsertTimeOut(cfg, w.db, c, i, curIn, curFlags, rule);
    if ch.ok && o.Created? {
      LockedTimeOutIsAtomic(cfg, w.db, c, i, rule, curIn, curFlags);
      TimeOutFrame(cfg, w.db, c, i, curIn, curFlags, rule);
      CommitIs(cfg, w, n, after, TimeOut(c, i), o);
    }
  }

  lemma InsertTimeInIsAtomic(cfg: Config, db: Db, c: Capture, a: Id)
    requires JobOk(cfg, db, c, JobIn(a))
    requires InsertTimeIn(db, c, a, cfg.localDate(c.now)).1.Created?
    ensures Apply(cfg, db, TimeIn(c)) == InsertTimeIn(db, c, a, cfg.localDate(c.now))
    ensures Frame(db, InsertTimeIn(db, c, a, cfg.localDate(c.now)).0, None, None)
  {
  }

  lemma PutQuiet(cfg: Config, w: World, n: nat, ch: Choice)
    requires AtPoint(cfg, w, n) && (w.procs[n].PutOriginal? || w.procs[n].PutWatermarked?)
    ensures Quiet(cfg, w, n, MoveCapture(cfg, w, n, ch))
  {
  }

  lemma UndoOnlyMoves(cfg: Config, w: World, n: nat, ch: Choice)
    requires n < |w.procs| && w.procs[n].Undo?
    ensures var v := MoveCapture(cfg, w, n, ch);
            && v.db == w.db && v.log == w.log && v.asked == w.asked && |v.procs| == |w.procs|
            && v.procs == w.procs[n := v.procs[n]]
            && (v.procs[n].Undo? || (v.procs[n].Finished? && !Committed(v.procs[n].outcome)))
  {
  }

  lemma ReadyInMoves(cfg: Config, w: World, n: nat, ch: Choice)
    requires AtPoint(cfg, w, n) && w.procs[n].Ready? && w.procs[n].job.JobIn?
    ensures QuietOrCommits(cfg, w, n, MoveCapture(cfg, w, n, ch))
  {
    var Ready(c, JobIn(a)) := w.procs[n];
    var (after, o) := InsertTimeIn(w.db, c, a, cfg.localDate(c.now));
    if ch.ok && o.Created? {
      InsertTimeInIsAtomic(cfg, w.db, c, a);
      CommitIs(cfg, w, n, after, TimeIn(c), o);
    }
  }

  lemma ReadyOutQuiet(cfg: Config, w: World, n: nat, ch: Choice)
    requires AtPoint(cfg, w, n) && w.procs[n].Ready? && w.procs[n].job.JobOut?
    ensures Quiet(cfg, w, n, MoveCapture(cfg, w, n, ch))
  {
  }

  lemma ApproveIsAtomic(cfg: Config, db: Db, k: Id, i: Id, curIn: Time, curOut: Option<Time>, now: Time)
    requires ProcOk(cfg, db, DecideBoth(k, i, curIn, curOut))
    ensures Apply(cfg, db, Decide(k, Approve, now)) == ApproveWith(db, k, curIn, curOut, RuleOf(db, i), now)
    ensures Frame(db, ApproveWith(db, k, curIn, curOut, RuleOf(db, i), now).0, Some(i), Some(k))
  {
  }

  lemma DecideBeginQuiet(cfg: Config, w: World, n: nat, ch: Choice)
    requires AtPoint(cfg, w, n) && w.procs[n].DecideBegin? && Links(w.db)
    ensures Quiet(cfg, w, n, MoveCorrection(w, n, ch))
  {
  }

  lemma RejectIsAtomic(cfg: Config, db: Db, k: Id, now: Time)
    requires PendingOn(db, k)
    ensures Apply(cfg, db, Decide(k, Reject, now)) == (RejectRow(db, k), Done)
    ensures Frame(db, RejectRow(db, k), None, Some(k))
  {
  }

  lemma DecideHeldMoves(cfg: Config, w: World, n: nat, ch: Choice)
    requires AtPoint(cfg, w, n) && w.procs[n].DecideHeld?
    ensures QuietOrCommits(cfg, w, n, MoveCorrection(w, n, ch))
  {
    var DecideHeld(k, verdict) := w.procs[n];
    if ch.ok && verdict != Approve {
      RejectIsAtomic(cfg, w.db, k, ch.now);
      CommitIs(cfg, w, n, RejectRow(w.db, k), Decide(k, Reject, ch.now), Done);
    }
  }

  lemma DecideBothMoves(cfg: Config, w: World, n: nat, ch: Choice)
    requires AtPoint(cfg, w, n) && w.procs[n].DecideBoth?
    ensures QuietOrCommits(cfg, w, n, MoveCorrection(w, n, ch))
  {
    var DecideBoth(k, i, curIn, curOut) := w.procs[n];
    var (after, o) := ApproveWith(w.db, k, curIn, curOut, RuleOf(w.db, i), ch.now);
    if ch.ok && o.Done? {
      ApproveIsAtomic(cfg, w.db, k, i, curIn, curOut, ch.now);
      CommitIs(cfg, w, n, after, Decide(k, Approve, ch.now), o);
    }
  }

  lemma RequestQuiet(cfg: Config, w: World, n: nat, ch: Choice)
    requires AtPoint(cfg, w, n) && (w.procs[n].RequestBegin? || w.procs[n].RequestRead?)
    ensures Quiet(cfg, w, n, MoveCorrection(w, n, ch))
  {
  }

  lemma InsertRequestIsAtomic(cfg: Config, db: Db, p: Proposal)
    requires ProcOk(cfg, db, RequestReady(p))
    ensures Apply(cfg, db, Request(p)) == InsertRequest(db, p)
    ensures Frame(db, InsertRequest(db, p).0, None, None)
  {
  }

  lemma RequestReadyMoves(cfg: Config, w: World, n: nat, ch: Choice)
    requires AtPoint(cfg, w, n) && w.procs[n].RequestReady?
    ensures QuietOrCommits(cfg, w, n, MoveCorrection(w, n, ch))
  {
    var p := w.procs[n].p;
    var (after, o) := InsertRequest(w.db, p);
    if ch.ok && o.Created? {
      InsertRequestIsAtomic(cfg, w.db, p);
      CommitIs(cfg, w, n, after, Request(p), o);
    }
  }

  predicate IsCaptureProc(p: Proc) {
    p.InBegin? || p.InSited? || p.OutBegin? || p.OutRead? || p.OutFresh? || p.OutLocked?
    || p.PutOriginal? || p.PutWatermarked? || p.Ready? || p.Undo?
  }

  lemma CaptureMoves(cfg: Config, w: World, n: nat, ch: Choice)
    requires AtPoint(cfg, w, n) && IsCaptureProc(w.procs[n])
    ensures QuietOrCommits(cfg, w, n, StepWorld(cfg, w, Move(n, ch)))
  {
    if w.procs[n].InBegin? || w.procs[n].InSited? {
      MoveInQuiet(cfg, w, n, ch);
    } else if w.procs[n].OutBegin? || w.procs[n].OutRead? || w.procs[n].OutFresh? {
      MoveOutQuiet(cfg, w, n, ch);
    } else if w.procs[n].OutLocked? {
      OutLockedMoves(cfg, w, n, ch);
    } else {
      StoringMoves(cfg, w, n, ch);
    }
  }

  lemma StoringMoves(cfg: Config, w: World, n: nat, ch: Choice)
    requires AtPoint(cfg, w, n)
    requires w.procs[n].PutOriginal? || w.procs[n].PutWatermarked? || w.procs[n].Ready? || w.procs[n].Undo?
    ensures QuietOrCommits(cfg, w, n, MoveCapture(cfg, w, n, ch))
  {
    match w.procs[n]
    case Ready(_, job) => if job.JobIn? { ReadyInMoves(cfg, w, n, ch); } else { ReadyOutQuiet(cfg, w, n, ch); }
    case Undo(_, _, _) => UndoOnlyMoves(cfg, w, n, ch);
    case _ => PutQuiet(cfg, w, n, ch);
  }

  lemma CorrectionMoves(cfg: Config, w: World, n: nat, ch: Choice)
    requires AtPoint(cfg, w, n) && !IsCaptureProc(w.procs[n]) && !w.procs[n].Finished? && Links(w.db)
    ensures QuietOrCommits(cfg, w, n, StepWorld(cfg, w, Move(n, ch)))
  {
    match w.procs[n]
    case RequestBegin(_) => RequestQuiet(cfg, w, n, ch);
    case RequestRead(_) => RequestQuiet(cfg, w, n, ch);
    case RequestReady(_) => RequestReadyMoves(cfg, w, n, ch);
    case DecideBegin(_, _) => DecideBeginQuiet(cfg, w, n, ch);
    case DecideHeld(_, _) => DecideHeldMoves(cfg, w, n, ch);
    case DecideBoth(_, _, _, _) => DecideBothMoves(cfg, w, n, ch);
  }

  lemma ArriveKeeps(cfg: Config, db: Db, w: World, p: Proc)
    requires WorldInv(cfg, db, w) && IsBegin(p)
    ensures WorldInv(cfg, db, w.(procs := w.procs + [p], asked := w.asked + [p]))
  {
    var v := w.(procs := w.procs + [p], asked := w.asked + [p]);
    ArriveProcs(cfg, w, p, v);
    ArriveLog(cfg, db, w, p, v);
  }

  lemma ArriveProcs(cfg: Config, w: World, p: Proc, v: World)
    requires Exclusive(w.procs) && |w.asked| == |w.procs| && IsBegin(p)
    requires forall n :: 0 <= n < |w.procs| ==> ProcOk(cfg, w.db, w.procs[n]) && Continues(w.asked[n], w.procs[n])
    requires v == w.(procs := w.procs + [p], asked := w.asked + [p])
    ensures Exclusive(v.procs)
    ensures forall n :: 0 <= n < |v.procs| ==> ProcOk(cfg, v.db, v.procs[n]) && Continues(v.asked[n], v.procs[n])
  {
  }

  lemma ArriveLog(cfg: Config, db: Db, w: World, p: Proc, v: World)
    requires LogOk(cfg, db, w) && |w.asked| == |w.procs| && IsBegin(p)
    requires v == w.(procs := w.procs + [p], asked := w.asked + [p])
    ensures LogOk(cfg, db, v)
  {
    var n := |w.procs|;
    forall m | 0 <= m < |w.log| ensures EntryOk(cfg, db, v, m) && !ByProc(n)(w.log[m]) {
      assert EntryOk(cfg, db, w, m);
    }
    CountNone(w.log, ByProc(n));
    forall m | 0 <= m < |v.procs| ensures Count(v.log, ByProc(m)) == (if Succeeded(v.procs[m]) then 1 else 0) {
      assert m == n || v.procs[m] == w.procs[m];
    }
  }

  lemma JournalFrame(cfg: Config, db: Db, e: Event)
    requires IsJournalEvent(e)
    ensures Frame(db, Apply(cfg, db, e).0, None, None)
  {
    var after := Apply(cfg, db, e).0;
    match e
    case SaveDraft(k, text) => assert after == db.(journals := after.journals);
    case Submit(k, text) => assert after == db.(journals := after.journals);
    case ReviewJournal(k, reviewer, decision, comment) =>
      assert after == db.(journals := after.journals, reviews := after.reviews);
  }

  lemma DirectLog(cfg: Config, db: Db, w: World, after: Db, e: Event)
    requires LogOk(cfg, db, w) && w.db == Replay(cfg, db, w.log)
    requires IsJournalEvent(e) && after == Apply(cfg, w.db, e).0 && Committed(Apply(cfg, w.db, e).1)
    ensures LogOk(cfg, db, w.(db := after, log := w.log + [Entry(None, e)]))
  {
    var v := w.(db := after, log := w.log + [Entry(None, e)]);
    forall m | 0 <= m < |v.procs| ensures Count(v.log, ByProc(m)) == Count(w.log, ByProc(m)) {
      CountAppend(w.log, Entry(None, e), ByProc(m));
    }
    forall m | 0 <= m < |v.log| ensures EntryOk(cfg, db, v, m) {
      if m < |w.log| {
        assert EntryOk(cfg, db, w, m) && v.log[..m] == w.log[..m] && v.log[m] == w.log[m];
      } else {
        assert v.log[..m] == w.log;
      }
    }
  }

  lemma DirectKeeps(cfg: Config, db: Db, w: World, after: Db, e: Event)
    requires WorldInv(cfg, db, w) && IsJournalEvent(e)
    requires after == Apply(cfg, w.db, e).0 && Committed(Apply(cfg, w.db, e).1)
    ensures WorldInv(cfg, db, w.(db := after, log := w.log + [Entry(None, e)]))
  {
    var v := w.(db := after, log := w.log + [Entry(None, e)]);
    StepKeeps(cfg, w.db, e);
    assert v.log[..|w.log|] == w.log;
    JournalFrame(cfg, w.db, e);
    forall m | 0 <= m < |v.procs| ensures ProcOk(cfg, v.db, v.procs[m]) {
      FrameKeepsProc(cfg, w.db, v.db, None, None, w.procs[m]);
    }
    DirectLog(cfg, db, w, after, e);
  }

  lemma StepKeepsWorld(cfg: Config, db: Db, w: World, l: Label)
    requires WorldInv(cfg, db, w)
    ensures WorldInv(cfg, db, StepWorld(cfg, w, l))
  {
    match l
    case Arrive(p) => if IsBegin(p) { ArriveKeeps(cfg, db, w, p); }
    case Direct(e) => if IsJournalEvent(e) && Committed(Apply(cfg, w.db, e).1) { DirectKeeps(cfg, db, w, Apply(cfg, w.db, e).0, e); }
    case Move(n, ch) => if n < |w.procs| && !w.procs[n].Finished? { MoveKeeps(cfg, db, w, n, ch, StepWorld(cfg, w, l)); }
  }

  lemma MoveKeeps(cfg: Config, db: Db, w: World, n: nat, ch: Choice, v: World)
    requires WorldInv(cfg, db, w) && n < |w.procs| && !w.procs[n].Finished? && v == StepWorld(cfg, w, Move(n, ch))
    ensures WorldInv(cfg, db, v)
  {
    if IsCaptureProc(w.procs[n]) { CaptureMoves(cfg, w, n, ch); } else { CorrectionMoves(cfg, w, n, ch); }
    if Quiet(cfg, w, n, v) { QuietKeeps(cfg, db, w, n, v); } else { CommitKeeps(cfg, db, w, n, v); }
  }

  lemma {:induction false} ExecutionKeepsWorld(cfg: Config, db: Db, objects: set<Key>, ls: seq<Label>)
    requires Inv(db)
    ensures WorldInv(cfg, db, Execute(cfg, db, objects, ls))
  {
    if ls != [] {
      ExecutionKeepsWorld(cfg, db, objects, ls[..|ls| - 1]);
      StepKeepsWorld(cfg, db, Execute(cfg, db, objects, ls[..|ls| - 1]), ls[|ls| - 1]);
    }
  }

  /** What "serial" means for a world reached from db: the tables are those of the
      logged requests run alone in commit order; every logged request succeeds in
      that serial run with the outcome its caller got; a request that succeeded is
      logged exactly once, and one that was refused, replayed or is still in flight
      is not logged, so it changed no table. */
  ghost predicate Serial(cfg: Config, db: Db, w: World) {
    && w.db == Replay(cfg, db, w.log)
    && |w.asked| == |w.procs|
    && LogOk(cfg, db, w)
  }

  /** Serialization, for any interleaving of any number of requests. */
  lemma InterleavingIsSerial(cfg: Config, db: Db, objects: set<Key>, ls: seq<Label>)
    requires Inv(db)
    ensures Serial(cfg, db, Execute(cfg, db, objects, ls))
  {
    ExecutionKeepsWorld(cfg, db, objects, ls);
  }

  /** Hence everything proved of serial runs holds at every intermediate step. */
  lemma InterleavingKeepsLedger(cfg: Config, db: Db, objects: set<Key>, ls: seq<Label>)
    requires Inv(db)
    ensures Inv(Execute(cfg, db, objects, ls).db)
  {
    ExecutionKeepsWorld(cfg, db, objects, ls);
  }

  function Events(log: seq<Entry>): seq<Event> {
    if log == [] then [] else Events(log[..|log| - 1]) + [log[|log| - 1].event]
  }

  lemma {:induction false} ReplayIsRun(cfg: Config, es: seq<Event>, log: seq<Entry>)
    ensures Replay(cfg, Run(cfg, es), log) == Run(cfg, es + Events(log))
  {
    if log == [] {
      assert es + Events(log) == es;
    } else {
      var n := |log| - 1;
      ReplayIsRun(cfg, es, log[..n]);
      assert (es + Events(log))[..|es + Events(log)| - 1] == es + Events(log[..n]);
    }
  }

  /** Interleaved after a serial run, the requests leave the tables of one longer serial
      run, so every statement about reachable states holds between their steps. */
  lemma InterleavingContinuesRun(cfg: Config, es: seq<Event>, objects: set<Key>, ls: seq<Label>)
    ensures var w := Execute(cfg, Run(cfg, es), objects, ls); w.db == Run(cfg, es + Events(w.log))
  {
    RunKeeps(cfg, es);
    ExecutionKeepsWorld(cfg, Run(cfg, es), objects, ls);
    ReplayIsRun(cfg, es, Execute(cfg, Run(cfg, es), objects, ls).log);
  }
}
