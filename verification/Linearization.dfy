/** Answers that commit nothing. A request reads without locks, so its refusal may be
    decided by tables that have changed meanwhile; it is nevertheless what the atomic
    request, with the clock reading and the time-in it really took, would have answered
    at some moment between its arrival and its reply. */
module Linearization {
  import opened Common
  import opened Schema
  import opened Ledger
  import opened LedgerInvariants
  import opened LedgerHistory
  import opened Concurrent
  import opened Serialization
  import opened Steps

  // ---- what a request reads ----

  /** The clock reading a request took, the effective time-in a Request saw, and the error
      of the storage call or transaction that failed it, if one did. */
  datatype Own = Own(clock: Option<Time>, seenIn: Option<Time>, failed: Option<Error>)

  /** The statement that reads the clock: the first of Time In, the one after the lookup
      of Time Out, the validation of Request. A decision's refusals need no clock. */
  predicate TakesClock(p: Proc) { p.InBegin? || p.OutFresh? || p.RequestRead? }

  /** The error of the call that request n makes next, when it fails: a put, or the
      transaction. */
  function FailureOf(w: World, n: nat, ch: Choice): Option<Error>
    requires n < |w.procs|
  {
    if ch.ok then None
    else
      match w.procs[n]
      case PutOriginal(_, _) => Some(StorageUnavailable)
      case PutWatermarked(_, _) => Some(StorageUnavailable)
      case Ready(_, JobIn(_)) => Some(Internal)
      case Ready(_, JobOut(i, _)) => if Find(w.procs, HoldsSession(i)).Some? then None else Some(Internal)
      case OutLocked(_, _, _, _, _) => Some(Internal)
      case DecideHeld(_, _) => Some(Internal)
      case DecideBoth(_, _, _, _) => Some(Internal)
      case RequestReady(_) => Some(Internal)
      case _ => None
  }

  /** What n has read after its own move. */
  function OwnAfter(w: World, n: nat, ch: Choice, own: Own): Own
    requires n < |w.procs|
  {
    if TakesClock(w.procs[n]) then own.(clock := Some(ch.now))
    else if w.procs[n].RequestBegin? && Owned(w.db, w.procs[n].p.trainee, w.procs[n].p.session) then
      own.(seenIn := Some(w.db.sessions[w.procs[n].p.session].effectiveIn))
    else if FailureOf(w, n, ch).Some? then own.(failed := FailureOf(w, n, ch))
    else own
  }

  /** What the requests have read after one more step from w. */
  function ReadBy(w: World, l: Label, owns: seq<Own>): seq<Own> {
    match l
    case Arrive(p) => if IsBegin(p) then owns + [Own(None, None, None)] else owns
    case Direct(_) => owns
    case Move(n, ch) => if n >= |w.procs| || n >= |owns| then owns else owns[n := OwnAfter(w, n, ch, owns[n])]
  }

  /** What the requests have read in a run. */
  function Owns(cfg: Config, db: Db, objects: set<Key>, ls: seq<Label>): seq<Own> {
    if ls == [] then []
    else
      var k := |ls| - 1;
      ReadBy(Execute(cfg, db, objects, ls[..k]), ls[k], Owns(cfg, db, objects, ls[..k]))
  }

  /** The atomic request behind an arrival, at time t and having seen time-in s. */
  function Instance(asked: Proc, t: Time, s: Time): Event
    requires IsBegin(asked)
  {
    match asked
    case InBegin(c) => TimeIn(c.(now := t))
    case OutBegin(c, i) => TimeOut(c.(now := t), i)
    case DecideBegin(k, verdict) => Decide(k, verdict, t)
    case RequestBegin(p) => Request(p.(now := t, seenIn := s))
  }

  predicate Allows(own: Own, t: Time, s: Time) {
    (own.clock.Some? ==> t == own.clock.value) && (own.seenIn.Some? ==> s == own.seenIn.value)
  }

  /** In world u, the request that arrived as n would answer o, run alone with what it
      read; where it had read nothing, whatever it might have read. */
  ghost predicate AnsweredAt(cfg: Config, u: World, n: nat, own: Own, o: Outcome) {
    && n < |u.procs| && n < |u.asked| && IsBegin(u.asked[n])
    && forall t, s :: Allows(own, t, s) ==> Apply(cfg, u.db, Instance(u.asked[n], t, s)).1 == o
  }

  /** It would at some moment of the history. */
  ghost predicate Answered(cfg: Config, hist: seq<World>, n: nat, own: Own, o: Outcome) {
    exists k :: 0 <= k < |hist| && AnsweredAt(cfg, hist[k], n, own, o)
  }

  /** The answer is the error of the request's own call that failed. */
  predicate Environmental(own: Own, o: Outcome) { own.failed.Some? && o == Refused(own.failed.value) }

  /** A conflict with the same action, committed by another request: a session exists for
      the day of the Time In, or the Time Out is recorded for the session. */
  predicate LostToItself(cfg: Config, w: World, n: nat, own: Own, o: Outcome) {
    n < |w.asked| &&
    match w.asked[n]
    case InBegin(c) =>
      && o == Refused(AttendanceExistsToday) && FindReplay(w.db, c.trainee, c.clientAction).Some?
      && own.clock.Some? && Find(w.db.sessions, OnDay(c.trainee, cfg.localDate(own.clock.value))).Some?
    case OutBegin(c, i) => o == Refused(AttendanceNotOpen) && ReplaysTimeOut(w.db, c.trainee, c.clientAction, i)
    case _ => false
  }

  ghost predicate Explained(cfg: Config, hist: seq<World>, w: World, n: nat, own: Own, o: Outcome) {
    Committed(o) || Environmental(own, o) || Answered(cfg, hist, n, own, o) || LostToItself(cfg, w, n, own, o)
  }

  /** At moment k, after n arrived, session i was the trainee's and open. */
  ghost predicate OpenAt(hist: seq<World>, k: nat, w: World, n: nat, trainee: Id, i: Id) {
    && k < |hist| && n < |hist[k].procs| && n < |hist[k].asked| && n < |w.asked| && hist[k].asked[n] == w.asked[n]
    && Owned(hist[k].db, trainee, i) && hist[k].db.sessions[i].status == Open && Grows(hist[k].db, w.db)
  }

  /** What a request carries is what it read. */
  predicate Carries(p: Proc, own: Own) {
    match p
    case InBegin(_) => own.clock.None?
    case InSited(c, _) => own.clock == Some(c.now)
    case OutBegin(_, _) => own.clock.None?
    case OutRead(_, _, _) => own.clock.None?
    case OutFresh(_, _) => own.clock.None?
    case PutOriginal(c, _) => own.clock == Some(c.now)
    case PutWatermarked(c, _) => own.clock == Some(c.now)
    case Ready(c, _) => own.clock == Some(c.now)
    case OutLocked(c, _, _, _, _) => own.clock == Some(c.now)
    case Undo(c, _, _) => own.clock == Some(c.now)
    case RequestBegin(_) => own == Own(None, None, None)
    case RequestRead(p) => own == Own(None, Some(p.seenIn), None)
    case RequestReady(p) => own == Own(Some(p.now), Some(p.seenIn), None)
    case _ => true
  }

  /** What a request's program point says of its past. */
  ghost predicate Just(cfg: Config, hist: seq<World>, w: World, n: nat, own: Own)
    requires n < |w.procs|
  {
    && Carries(w.procs[n], own) && n < |w.asked| && IsBegin(w.asked[n])
    && match w.procs[n]
       case Finished(o) => Explained(cfg, hist, w, n, own, o)
       case Undo(c, _, next) =>
         && (next.Stop? ==> Explained(cfg, hist, w, n, own, Refused(next.error)))
         && (next.LookupIn? ==> FindReplay(w.db, c.trainee, c.clientAction).Some?
                                && ActiveSite(w.db, c.trainee, cfg.localDate(c.now)).Some? && SameAskIn(w, n, c))
         && (next.LookupOut? ==> SameAskOut(w, n, c, next.session) && Answered(cfg, hist, n, own, Refused(Internal)))
       case OutRead(c, i, status) =>
         if status == Open then exists k: nat :: OpenAt(hist, k, w, n, c.trainee, i)
         else i < |w.db.sessions| && w.db.sessions[i].status != Open
       case OutFresh(c, i) => MissingReason(c) ==> Answered(cfg, hist, n, own, Refused(LocationReasonRequired))
       case _ => true
  }

  predicate SameAskIn(w: World, n: nat, c: Capture) { n < |w.asked| && w.asked[n].InBegin? && SameAsk(w.asked[n].c, c) }

  predicate SameAskOut(w: World, n: nat, c: Capture, i: Id) {
    n < |w.asked| && w.asked[n].OutBegin? && SameAsk(w.asked[n].c, c) && w.asked[n].session == i
  }

  // ---- other requests' steps ----

  lemma AnsweredStays(cfg: Config, hist: seq<World>, v: World, n: nat, own: Own, o: Outcome)
    requires Answered(cfg, hist, n, own, o)
    ensures Answered(cfg, hist + [v], n, own, o)
  {
    var k :| 0 <= k < |hist| && AnsweredAt(cfg, hist[k], n, own, o);
    assert (hist + [v])[k] == hist[k];
  }

  /** An answer that did not depend on the clock is the answer for the clock read later. */
  lemma AnsweredOnceRead(cfg: Config, hist: seq<World>, n: nat, t: Time, own: Own, o: Outcome)
    requires own.clock.None? && Answered(cfg, hist, n, own, o)
    ensures Answered(cfg, hist, n, own.(clock := Some(t)), o)
  {
    var k :| 0 <= k < |hist| && AnsweredAt(cfg, hist[k], n, own, o);
    assert forall r, s :: Allows(own.(clock := Some(t)), r, s) ==> Allows(own, r, s);
    assert AnsweredAt(cfg, hist[k], n, own.(clock := Some(t)), o);
  }

  lemma LossStays(cfg: Config, w: World, v: World, n: nat, own: Own, o: Outcome)
    requires LostToItself(cfg, w, n, own, o) && Grows(w.db, v.db) && w.asked <= v.asked
    ensures LostToItself(cfg, v, n, own, o)
  {
    var c := w.asked[n].c;
    assert v.asked[n] == w.asked[n];
    ReplayStays(w.db, v.db, c.trainee, c.clientAction);
    if w.asked[n].InBegin? { DayStaysTaken(w.db, v.db, c.trainee, cfg.localDate(own.clock.value)); }
  }

  lemma ExplainedStays(cfg: Config, hist: seq<World>, w: World, v: World, n: nat, own: Own, o: Outcome)
    requires Explained(cfg, hist, w, n, own, o) && Grows(w.db, v.db) && w.asked <= v.asked
    ensures Explained(cfg, hist + [v], v, n, own, o)
  {
    if Answered(cfg, hist, n, own, o) {
      AnsweredStays(cfg, hist, v, n, own, o);
    } else if LostToItself(cfg, w, n, own, o) {
      LossStays(cfg, w, v, n, own, o);
    }
  }

  lemma OpenAtStays(hist: seq<World>, k: nat, w: World, v: World, n: nat, trainee: Id, i: Id)
    requires OpenAt(hist, k, w, n, trainee, i) && Grows(w.db, v.db) && w.asked <= v.asked
    ensures OpenAt(hist + [v], k, v, n, trainee, i)
  {
    GrowsTransitive(hist[k].db, w.db, v.db);
    assert (hist + [v])[k] == hist[k];
  }

  lemma JustStays(cfg: Config, hist: seq<World>, w: World, v: World, n: nat, own: Own)
    requires n < |w.procs| && n < |v.procs| && v.procs[n] == w.procs[n] && Just(cfg, hist, w, n, own)
    requires Grows(w.db, v.db) && w.asked <= v.asked && v.db.assignments == w.db.assignments
    ensures Just(cfg, hist + [v], v, n, own)
  {
    assert v.asked[n] == w.asked[n];
    match w.procs[n]
    case Finished(o) => ExplainedStays(cfg, hist, w, v, n, own, o);
    case Undo(c, _, next) =>
      if next.Stop? { ExplainedStays(cfg, hist, w, v, n, own, Refused(next.error)); }
      if next.LookupOut? { AnsweredStays(cfg, hist, v, n, own, Refused(Internal)); }
      ReplayStays(w.db, v.db, c.trainee, c.clientAction);
    case OutRead(c, i, status) =>
      if status == Open {
        var k: nat :| OpenAt(hist, k, w, n, c.trainee, i);
        OpenAtStays(hist, k, w, v, n, c.trainee, i);
      }
    case OutFresh(c, i) =>
      if MissingReason(c) { AnsweredStays(cfg, hist, v, n, own, Refused(LocationReasonRequired)); }
    case _ =>
  }

  // ---- the request's own steps ----

  /** A world of the run, its history, and the request about to move in it. */
  ghost predicate Moving(cfg: Config, hist: seq<World>, w: World, n: nat, own: Own) {
    && AtPoint(cfg, w, n) && Inv(w.db) && hist != [] && hist[|hist| - 1] == w && Just(cfg, hist, w, n, own)
  }

  /** v, reached by n's own move, is explained with what n has read by then. */
  ghost predicate MovedTo(cfg: Config, hist: seq<World>, w: World, n: nat, ch: Choice, own: Own, v: World)
    requires n < |w.procs|
  {
    n < |v.procs| && Just(cfg, hist + [v], v, n, OwnAfter(w, n, ch, own))
  }

  /** The atomic request answers o right now. */
  lemma AnsweredNow(cfg: Config, hist: seq<World>, w: World, v: World, n: nat, own: Own, o: Outcome)
    requires hist != [] && hist[|hist| - 1] == w && AnsweredAt(cfg, w, n, own, o)
    ensures Answered(cfg, hist + [v], n, own, o)
  {
    assert (hist + [v])[|hist| - 1] == w;
  }

  lemma InBeginIsJust(cfg: Config, hist: seq<World>, w: World, n: nat, ch: Choice, own: Own, v: World)
    requires Moving(cfg, hist, w, n, own) && v == MoveIn(cfg, w, n, ch) && w.procs[n].InBegin?
    ensures MovedTo(cfg, hist, w, n, ch, own, v)
  {
    assert Continues(w.asked[n], w.procs[n]);
    if v.procs[n].Finished? {
      assert AnsweredAt(cfg, w, n, OwnAfter(w, n, ch, own), Refused(NoActiveAssignment));
      AnsweredNow(cfg, hist, w, v, n, OwnAfter(w, n, ch, own), Refused(NoActiveAssignment));
    }
  }

  lemma InSitedIsJust(cfg: Config, hist: seq<World>, w: World, n: nat, ch: Choice, own: Own, v: World)
    requires Moving(cfg, hist, w, n, own) && v == MoveIn(cfg, w, n, ch) && w.procs[n].InSited?
    ensures MovedTo(cfg, hist, w, n, ch, own, v)
  {
    assert ProcOk(cfg, w.db, w.procs[n]) && Continues(w.asked[n], w.procs[n]);
    if v.procs[n].Finished? {
      assert AnsweredAt(cfg, w, n, own, v.procs[n].outcome);
      AnsweredNow(cfg, hist, w, v, n, own, v.procs[n].outcome);
    }
  }

  lemma OutBeginIsJust(cfg: Config, hist: seq<World>, w: World, n: nat, ch: Choice, own: Own, v: World)
    requires Moving(cfg, hist, w, n, own) && v == MoveOut(cfg, w, n, ch) && w.procs[n].OutBegin?
    ensures MovedTo(cfg, hist, w, n, ch, own, v)
  {
    var OutBegin(c, i) := w.procs[n];
    assert Continues(w.asked[n], w.procs[n]);
    if v.procs[n].Finished? {
      assert AnsweredAt(cfg, w, n, own, v.procs[n].outcome);
      AnsweredNow(cfg, hist, w, v, n, own, v.procs[n].outcome);
    } else {
      GrowsReflexive(w.db);
      assert (hist + [v])[|hist| - 1] == w;
      assert w.db.sessions[i].status == Open ==> OpenAt(hist + [v], |hist| - 1, v, n, c.trainee, i);
    }
  }

  lemma OutReadIsJust(cfg: Config, hist: seq<World>, w: World, n: nat, ch: Choice, own: Own, v: World)
    requires Moving(cfg, hist, w, n, own) && v == MoveOut(cfg, w, n, ch) && w.procs[n].OutRead?
    ensures MovedTo(cfg, hist, w, n, ch, own, v)
  {
    var OutRead(c, i, status) := w.procs[n];
    assert ProcOk(cfg, w.db, w.procs[n]) && Continues(w.asked[n], w.procs[n]);
    if v.procs[n].Finished? {
      assert AnsweredAt(cfg, w, n, own, v.procs[n].outcome);
      AnsweredNow(cfg, hist, w, v, n, own, v.procs[n].outcome);
    } else if MissingReason(c) {
      var k: nat :| OpenAt(hist, k, w, n, c.trainee, i);
      OpenMeantReason(cfg, hist, w, n, c, i, k, own);
      AnsweredStays(cfg, hist, v, n, own, Refused(LocationReasonRequired));
    }
  }

  /** When the session was read as open, the request without a reason would have been
      asked for one, at any time: its action was not recorded then if it is not now. */
  lemma OpenMeantReason(cfg: Config, hist: seq<World>, w: World, n: nat, c: Capture, i: Id, k: nat, own: Own)
    requires OpenAt(hist, k, w, n, c.trainee, i) && MissingReason(c) && !ReplaysTimeOut(w.db, c.trainee, c.clientAction, i)
    requires w.asked[n].OutBegin? && SameAsk(w.asked[n].c, c) && w.asked[n].session == i
    ensures Answered(cfg, hist, n, own, Refused(LocationReasonRequired))
  {
    var u := hist[k];
    ReplayStays(u.db, w.db, c.trainee, c.clientAction);
    assert AnsweredAt(cfg, u, n, own, Refused(LocationReasonRequired));
  }

  lemma OutFreshIsJust(cfg: Config, hist: seq<World>, w: World, n: nat, ch: Choice, own: Own, v: World)
    requires Moving(cfg, hist, w, n, own) && v == MoveOut(cfg, w, n, ch) && w.procs[n].OutFresh?
    ensures MovedTo(cfg, hist, w, n, ch, own, v)
  {
    if MissingReason(w.procs[n].c) {
      AnsweredOnceRead(cfg, hist, n, ch.now, own, Refused(LocationReasonRequired));
      AnsweredStays(cfg, hist, v, n, OwnAfter(w, n, ch, own), Refused(LocationReasonRequired));
    }
  }

  lemma OutLockedIsJust(cfg: Config, hist: seq<World>, w: World, n: nat, ch: Choice, own: Own, v: World)
    requires Moving(cfg, hist, w, n, own) && v == MoveOut(cfg, w, n, ch) && w.procs[n].OutLocked?
    ensures MovedTo(cfg, hist, w, n, ch, own, v)
  {
    var OutLocked(c, i, rule, curIn, curFlags) := w.procs[n];
    if ch.ok && InsertTimeOut(cfg, w.db, c, i, curIn, curFlags, rule).1.Refused? {
      LockedRefused(cfg, w, n, own);
      AnsweredNow(cfg, hist, w, v, n, own, Refused(Internal));
    }
  }

  /** A Time Out that its transaction refuses, under the lock, would be refused alone. */
  lemma LockedRefused(cfg: Config, w: World, n: nat, own: Own)
    requires AtPoint(cfg, w, n) && IsBegin(w.asked[n]) && w.procs[n].OutLocked? && own.clock == Some(w.procs[n].c.now)
    requires var OutLocked(c, i, rule, curIn, curFlags) := w.procs[n]; InsertTimeOut(cfg, w.db, c, i, curIn, curFlags, rule).1.Refused?
    requires Inv(w.db)
    ensures AnsweredAt(cfg, w, n, own, Refused(Internal))
  {
    var OutLocked(c, i, _, _, _) := w.procs[n];
    assert SessionOk(w.db, i);
    if ReplaysTimeOut(w.db, c.trainee, c.clientAction, i) { ReplayedIsClosed(w.db, c.trainee, c.clientAction, i); }
  }

  lemma ReadyInIsJust(cfg: Config, hist: seq<World>, w: World, n: nat, ch: Choice, own: Own, v: World)
    requires Moving(cfg, hist, w, n, own) && v == MoveCapture(cfg, w, n, ch) && w.procs[n].Ready? && w.procs[n].job.JobIn?
    ensures MovedTo(cfg, hist, w, n, ch, own, v)
  {
    var c := w.procs[n].c;
    assert ProcOk(cfg, w.db, w.procs[n]) && Continues(w.asked[n], w.procs[n]);
    if ch.ok && Find(w.db.sessions, OnDay(c.trainee, cfg.localDate(c.now))).Some? {
      if FindReplay(w.db, c.trainee, c.clientAction).None? {
        assert AnsweredAt(cfg, w, n, own, Refused(AttendanceExistsToday));
        AnsweredNow(cfg, hist, w, v, n, own, Refused(AttendanceExistsToday));
      } else {
        assert LostToItself(cfg, v, n, own, Refused(AttendanceExistsToday));
      }
    }
  }

  lemma ReadyOutIsJust(cfg: Config, hist: seq<World>, w: World, n: nat, ch: Choice, own: Own, v: World)
    requires Moving(cfg, hist, w, n, own) && v == MoveCapture(cfg, w, n, ch) && w.procs[n].Ready? && w.procs[n].job.JobOut?
    ensures MovedTo(cfg, hist, w, n, ch, own, v)
  {
    var c, i := w.procs[n].c, w.procs[n].job.session;
    if w.db.sessions[i].status != Open {
      NotOpenIsExplained(cfg, hist, w, n, c, i, own, v);
    }
  }

  lemma NotOpenIsExplained(cfg: Config, hist: seq<World>, w: World, n: nat, c: Capture, i: Id, own: Own, v: World)
    requires hist != [] && hist[|hist| - 1] == w && n < |w.procs| == |w.asked|
    requires v.db == w.db && v.asked == w.asked
    requires w.asked[n].OutBegin? && SameAsk(w.asked[n].c, c) && w.asked[n].session == i
    requires Owned(w.db, c.trainee, i) && w.db.sessions[i].status != Open
    ensures Explained(cfg, hist + [v], v, n, own, Refused(AttendanceNotOpen))
  {
    if !ReplaysTimeOut(w.db, c.trainee, c.clientAction, i) {
      assert AnsweredAt(cfg, w, n, own, Refused(AttendanceNotOpen));
      AnsweredNow(cfg, hist, w, v, n, own, Refused(AttendanceNotOpen));
    }
  }

  lemma PutIsJust(cfg: Config, hist: seq<World>, w: World, n: nat, ch: Choice, own: Own, v: World)
    requires Moving(cfg, hist, w, n, own) && v == MoveCapture(cfg, w, n, ch) && (w.procs[n].PutOriginal? || w.procs[n].PutWatermarked?)
    ensures MovedTo(cfg, hist, w, n, ch, own, v)
  {
  }

  lemma UndoIsJust(cfg: Config, hist: seq<World>, w: World, n: nat, ch: Choice, own: Own, v: World)
    requires Moving(cfg, hist, w, n, own) && v == MoveCapture(cfg, w, n, ch) && w.procs[n].Undo?
    ensures MovedTo(cfg, hist, w, n, ch, own, v)
  {
    var Undo(c, keys, next) := w.procs[n];
    UndoOnlyMoves(cfg, w, n, ch);
    GrowsReflexive(w.db);
    if next.Stop? {
      ExplainedStays(cfg, hist, w, v, n, own, Refused(next.error));
    } else {
      if next.LookupOut? { AnsweredStays(cfg, hist, v, n, own, Refused(Internal)); }
      if keys == [] { LookupIsJust(cfg, hist, w, n, ch, own, v); }
    }
  }

  lemma LookupIsJust(cfg: Config, hist: seq<World>, w: World, n: nat, ch: Choice, own: Own, v: World)
    requires Moving(cfg, hist, w, n, own) && v == MoveCapture(cfg, w, n, ch) && w.procs[n].Undo? && w.procs[n].keys == [] && !w.procs[n].next.Stop?
    ensures MovedTo(cfg, hist, w, n, ch, own, v)
  {
    var Undo(c, _, next) := w.procs[n];
    if next.LookupIn? {
      LookedUpIn(cfg, hist, w, n, c, own, v);
    } else {
      LookedUpOut(cfg, hist, w, n, c, next.session, own, v);
    }
  }

  lemma LookedUpIn(cfg: Config, hist: seq<World>, w: World, n: nat, c: Capture, own: Own, v: World)
    requires n < |w.procs| == |w.asked| && IsBegin(w.asked[n]) && hist != [] && hist[|hist| - 1] == w && own.clock == Some(c.now)
    requires SameAskIn(w, n, c) && ActiveSite(w.db, c.trainee, cfg.localDate(c.now)).Some? && FindReplay(w.db, c.trainee, c.clientAction).Some?
    ensures Answered(cfg, hist + [v], n, own, Replayed(FindReplay(w.db, c.trainee, c.clientAction).value))
  {
    var o := Replayed(FindReplay(w.db, c.trainee, c.clientAction).value);
    assert AnsweredAt(cfg, w, n, own, o);
    AnsweredNow(cfg, hist, w, v, n, own, o);
  }

  lemma LookedUpOut(cfg: Config, hist: seq<World>, w: World, n: nat, c: Capture, i: Id, own: Own, v: World)
    requires n < |w.procs| == |w.asked| && Inv(w.db) && IsBegin(w.asked[n]) && hist != [] && hist[|hist| - 1] == w && own.clock == Some(c.now)
    requires SameAskOut(w, n, c, i) && Answered(cfg, hist, n, own, Refused(Internal))
    ensures ReplaysTimeOut(w.db, c.trainee, c.clientAction, i) ==> Answered(cfg, hist + [v], n, own, Replayed(i))
    ensures Answered(cfg, hist + [v], n, own, Refused(Internal))
  {
    AnsweredStays(cfg, hist, v, n, own, Refused(Internal));
    if ReplaysTimeOut(w.db, c.trainee, c.clientAction, i) {
      ReplayedIsClosed(w.db, c.trainee, c.clientAction, i);
      assert AnsweredAt(cfg, w, n, own, Replayed(i));
      AnsweredNow(cfg, hist, w, v, n, own, Replayed(i));
    }
  }

  lemma DecideBeginIsJust(cfg: Config, hist: seq<World>, w: World, n: nat, ch: Choice, own: Own, v: World)
    requires Moving(cfg, hist, w, n, own) && v == MoveCorrection(w, n, ch) && w.procs[n].DecideBegin?
    ensures MovedTo(cfg, hist, w, n, ch, own, v)
  {
    if v.procs[n].Finished? {
      DecideRefused(cfg, w, n, ch, own);
      AnsweredNow(cfg, hist, w, v, n, own, v.procs[n].outcome);
    }
  }

  lemma DecideRefused(cfg: Config, w: World, n: nat, ch: Choice, own: Own)
    requires AtPoint(cfg, w, n) && w.procs[n].DecideBegin? && IsBegin(w.asked[n])
    requires MoveCorrection(w, n, ch).procs[n].Finished?
    ensures AnsweredAt(cfg, w, n, own, MoveCorrection(w, n, ch).procs[n].outcome)
  {
    assert Continues(w.asked[n], w.procs[n]);
  }

  lemma DecideHeldIsJust(cfg: Config, hist: seq<World>, w: World, n: nat, ch: Choice, own: Own, v: World)
    requires Moving(cfg, hist, w, n, own) && v == MoveCorrection(w, n, ch) && w.procs[n].DecideHeld?
    ensures MovedTo(cfg, hist, w, n, ch, own, v)
  {
    assert Continues(w.asked[n], w.procs[n]);
  }

  lemma ApprovalIsJust(cfg: Config, hist: seq<World>, w: World, n: nat, ch: Choice, own: Own, v: World)
    requires Moving(cfg, hist, w, n, own) && v == MoveCorrection(w, n, ch) && w.procs[n].DecideBoth?
    ensures MovedTo(cfg, hist, w, n, ch, own, v)
  {
    assert ProcOk(cfg, w.db, w.procs[n]) && Continues(w.asked[n], w.procs[n]);
    if ch.ok && v.procs[n].outcome.Refused? {
      ApprovalRefused(cfg, w, n, ch, own);
      AnsweredNow(cfg, hist, w, v, n, own, v.procs[n].outcome);
    }
  }

  /** Whether an approval is refused does not depend on the clock. */
  lemma ApprovalRefused(cfg: Config, w: World, n: nat, ch: Choice, own: Own)
    requires n < |w.procs| && n < |w.asked| && IsBegin(w.asked[n]) && w.procs[n].DecideBoth? && ch.ok
    requires ProcOk(cfg, w.db, w.procs[n]) && Continues(w.asked[n], w.procs[n])
    requires MoveCorrection(w, n, ch).procs[n].outcome.Refused?
    ensures AnsweredAt(cfg, w, n, own, MoveCorrection(w, n, ch).procs[n].outcome)
  {
    var DecideBoth(k, i, curIn, curOut) := w.procs[n];
    var o := ApproveWith(w.db, k, curIn, curOut, RuleOf(w.db, i), ch.now).1;
    forall t, s | Allows(own, t, s) ensures Apply(cfg, w.db, Instance(w.asked[n], t, s)).1 == o {
      ApproveIsAtomic(cfg, w.db, k, i, curIn, curOut, t);
    }
  }

  lemma RequestBeginIsJust(cfg: Config, hist: seq<World>, w: World, n: nat, ch: Choice, own: Own, v: World)
    requires Moving(cfg, hist, w, n, own) && v == MoveCorrection(w, n, ch) && w.procs[n].RequestBegin?
    ensures MovedTo(cfg, hist, w, n, ch, own, v)
  {
    assert Continues(w.asked[n], w.procs[n]);
    if v.procs[n].Finished? {
      assert AnsweredAt(cfg, w, n, own, Refused(NotFound));
      AnsweredNow(cfg, hist, w, v, n, own, Refused(NotFound));
    }
  }

  lemma RequestReadIsJust(cfg: Config, hist: seq<World>, w: World, n: nat, ch: Choice, own: Own, v: World)
    requires Moving(cfg, hist, w, n, own) && v == MoveCorrection(w, n, ch) && w.procs[n].RequestRead?
    ensures MovedTo(cfg, hist, w, n, ch, own, v)
  {
    assert ProcOk(cfg, w.db, w.procs[n]) && Continues(w.asked[n], w.procs[n]);
    if v.procs[n].Finished? {
      assert AnsweredAt(cfg, w, n, OwnAfter(w, n, ch, own), v.procs[n].outcome);
      AnsweredNow(cfg, hist, w, v, n, OwnAfter(w, n, ch, own), v.procs[n].outcome);
    }
  }

  lemma RequestReadyIsJust(cfg: Config, hist: seq<World>, w: World, n: nat, ch: Choice, own: Own, v: World)
    requires Moving(cfg, hist, w, n, own) && v == MoveCorrection(w, n, ch) && w.procs[n].RequestReady?
    ensures MovedTo(cfg, hist, w, n, ch, own, v)
  {
    assert ProcOk(cfg, w.db, w.procs[n]) && Continues(w.asked[n], w.procs[n]);
    if ch.ok && v.procs[n].outcome.Refused? {
      assert AnsweredAt(cfg, w, n, own, v.procs[n].outcome);
      AnsweredNow(cfg, hist, w, v, n, own, v.procs[n].outcome);
    }
  }

  lemma OwnMoveIsJust(cfg: Config, hist: seq<World>, w: World, n: nat, ch: Choice, own: Own, v: World)
    requires Moving(cfg, hist, w, n, own) && v == StepWorld(cfg, w, Move(n, ch))
    ensures MovedTo(cfg, hist, w, n, ch, own, v)
  {
    if IsCaptureProc(w.procs[n]) {
      CaptureMoveIsJust(cfg, hist, w, n, ch, own, v);
    } else if w.procs[n].Finished? {
      GrowsReflexive(w.db);
      JustStays(cfg, hist, w, w, n, own);
    } else {
      CorrectionMoveIsJust(cfg, hist, w, n, ch, own, v);
    }
  }

  lemma CaptureMoveIsJust(cfg: Config, hist: seq<World>, w: World, n: nat, ch: Choice, own: Own, v: World)
    requires Moving(cfg, hist, w, n, own) && v == StepWorld(cfg, w, Move(n, ch)) && IsCaptureProc(w.procs[n])
    ensures MovedTo(cfg, hist, w, n, ch, own, v)
  {
    if w.procs[n].InBegin? {
      InBeginIsJust(cfg, hist, w, n, ch, own, v);
    } else if w.procs[n].InSited? {
      InSitedIsJust(cfg, hist, w, n, ch, own, v);
    } else if w.procs[n].OutBegin? || w.procs[n].OutRead? || w.procs[n].OutFresh? || w.procs[n].OutLocked? {
      OutMoveIsJust(cfg, hist, w, n, ch, own, v);
    } else {
      StoringMoveIsJust(cfg, hist, w, n, ch, own, v);
    }
  }

  lemma StoringMoveIsJust(cfg: Config, hist: seq<World>, w: World, n: nat, ch: Choice, own: Own, v: World)
    requires Moving(cfg, hist, w, n, own) && v == MoveCapture(cfg, w, n, ch)
    requires w.procs[n].PutOriginal? || w.procs[n].PutWatermarked? || w.procs[n].Ready? || w.procs[n].Undo?
    ensures MovedTo(cfg, hist, w, n, ch, own, v)
  {
    if w.procs[n].Ready? {
      ReadyIsJust(cfg, hist, w, n, ch, own, v);
    } else if w.procs[n].Undo? {
      UndoIsJust(cfg, hist, w, n, ch, own, v);
    } else {
      PutIsJust(cfg, hist, w, n, ch, own, v);
    }
  }

  lemma OutMoveIsJust(cfg: Config, hist: seq<World>, w: World, n: nat, ch: Choice, own: Own, v: World)
    requires Moving(cfg, hist, w, n, own) && v == MoveOut(cfg, w, n, ch)
    requires w.procs[n].OutBegin? || w.procs[n].OutRead? || w.procs[n].OutFresh? || w.procs[n].OutLocked?
    ensures MovedTo(cfg, hist, w, n, ch, own, v)
  {
    match w.procs[n]
    case OutBegin(_, _) => OutBeginIsJust(cfg, hist, w, n, ch, own, v);
    case OutRead(_, _, _) => OutReadIsJust(cfg, hist, w, n, ch, own, v);
    case OutFresh(_, _) => OutFreshIsJust(cfg, hist, w, n, ch, own, v);
    case OutLocked(_, _, _, _, _) => OutLockedIsJust(cfg, hist, w, n, ch, own, v);
  }

  lemma ReadyIsJust(cfg: Config, hist: seq<World>, w: World, n: nat, ch: Choice, own: Own, v: World)
    requires Moving(cfg, hist, w, n, own) && v == MoveCapture(cfg, w, n, ch) && w.procs[n].Ready?
    ensures MovedTo(cfg, hist, w, n, ch, own, v)
  {
    if w.procs[n].job.JobIn? {
      ReadyInIsJust(cfg, hist, w, n, ch, own, v);
    } else {
      ReadyOutIsJust(cfg, hist, w, n, ch, own, v);
    }
  }

  lemma CorrectionMoveIsJust(cfg: Config, hist: seq<World>, w: World, n: nat, ch: Choice, own: Own, v: World)
    requires Moving(cfg, hist, w, n, own) && v == MoveCorrection(w, n, ch) && !IsCaptureProc(w.procs[n]) && !w.procs[n].Finished?
    ensures MovedTo(cfg, hist, w, n, ch, own, v)
  {
    match w.procs[n]
    case DecideBegin(_, _) => DecideBeginIsJust(cfg, hist, w, n, ch, own, v);
    case DecideHeld(_, _) => DecideHeldIsJust(cfg, hist, w, n, ch, own, v);
    case DecideBoth(_, _, _, _) => ApprovalIsJust(cfg, hist, w, n, ch, own, v);
    case RequestBegin(_) => RequestBeginIsJust(cfg, hist, w, n, ch, own, v);
    case RequestRead(_) => RequestReadIsJust(cfg, hist, w, n, ch, own, v);
    case RequestReady(_) => RequestReadyIsJust(cfg, hist, w, n, ch, own, v);
  }

  // ---- whole runs ----

  /** The worlds of a run, the initial one first. */
  function Worlds(cfg: Config, db: Db, objects: set<Key>, ls: seq<Label>): seq<World> {
    if ls == [] then [Execute(cfg, db, objects, [])]
    else Worlds(cfg, db, objects, ls[..|ls| - 1]) + [Execute(cfg, db, objects, ls)]
  }

  lemma {:induction false} WorldsAreExecutions(cfg: Config, db: Db, objects: set<Key>, ls: seq<Label>, k: nat)
    requires k <= |ls|
    ensures |Worlds(cfg, db, objects, ls)| == |ls| + 1 && Worlds(cfg, db, objects, ls)[k] == Execute(cfg, db, objects, ls[..k])
  {
    if ls == [] {
      assert ls[..k] == [];
    } else if k == |ls| {
      WorldsAreExecutions(cfg, db, objects, ls[..|ls| - 1], k - 1);
      assert ls[..k] == ls;
    } else {
      WorldsAreExecutions(cfg, db, objects, ls[..|ls| - 1], k);
      assert ls[..|ls| - 1][..k] == ls[..k];
    }
  }

  ghost predicate AllJust(cfg: Config, hist: seq<World>, w: World, owns: seq<Own>) {
    |owns| == |w.procs| && forall n :: 0 <= n < |w.procs| ==> Just(cfg, hist, w, n, owns[n])
  }

  lemma StepIsJust(cfg: Config, db: Db, hist: seq<World>, w: World, l: Label, v: World, owns: seq<Own>)
    requires WorldInv(cfg, db, w) && hist != [] && hist[|hist| - 1] == w && AllJust(cfg, hist, w, owns) && v == StepWorld(cfg, w, l)
    ensures AllJust(cfg, hist + [v], v, ReadBy(w, l, owns))
  {
    StepIsLocal(cfg, w, l);
    StepGrowsTables(cfg, db, w, l);
    StepFrames(cfg, db, w, l);
    ReadsOwnOnly(cfg, w, l, owns);
    forall n | 0 <= n < |v.procs| ensures Just(cfg, hist + [v], v, n, ReadBy(w, l, owns)[n]) {
      if n < |w.procs| {
        if Moves(l, n) {
          OwnMoveIsJust(cfg, hist, w, n, l.choice, owns[n], v);
        } else {
          JustStays(cfg, hist, w, v, n, owns[n]);
        }
      } else {
        NewcomerIsJust(cfg, db, hist + [v], w, l, n, ReadBy(w, l, owns)[n]);
      }
    }
  }

  lemma ReadsOwnOnly(cfg: Config, w: World, l: Label, owns: seq<Own>)
    requires |owns| == |w.procs|
    ensures |ReadBy(w, l, owns)| == |StepWorld(cfg, w, l).procs|
    ensures forall n :: 0 <= n < |owns| ==>
      ReadBy(w, l, owns)[n] == if Moves(l, n) then OwnAfter(w, n, l.choice, owns[n]) else owns[n]
    ensures forall n :: |owns| <= n < |ReadBy(w, l, owns)| ==> ReadBy(w, l, owns)[n] == Own(None, None, None)
  {
    StepIsLocal(cfg, w, l);
    if l.Move? && l.index < |w.procs| { MovesAddNobody(cfg, w, l); }
  }

  lemma MovesAddNobody(cfg: Config, w: World, l: Label)
    requires l.Move? && l.index < |w.procs|
    ensures |StepWorld(cfg, w, l).procs| == |w.procs|
  {
    MoveInIsLocal(cfg, w, l.index, l.choice);
    MoveOutIsLocal(cfg, w, l.index, l.choice);
    MoveCaptureIsLocal(cfg, w, l.index, l.choice);
    MoveCorrectionIsLocal(w, l.index, l.choice);
  }

  lemma NewcomerIsJust(cfg: Config, db: Db, hist: seq<World>, w: World, l: Label, n: nat, own: Own)
    requires WorldInv(cfg, db, w) && |w.procs| <= n < |StepWorld(cfg, w, l).procs| && own == Own(None, None, None)
    ensures Just(cfg, hist, StepWorld(cfg, w, l), n, own)
  {
    if l.Move? && l.index < |w.procs| { MovesAddNobody(cfg, w, l); }
  }

  lemma {:induction false} RunIsJust(cfg: Config, db: Db, objects: set<Key>, ls: seq<Label>)
    requires Inv(db)
    ensures AllJust(cfg, Worlds(cfg, db, objects, ls), Execute(cfg, db, objects, ls), Owns(cfg, db, objects, ls))
  {
    if ls != [] {
      var before := ls[..|ls| - 1];
      RunIsJust(cfg, db, objects, before);
      ExecutionKeepsWorld(cfg, db, objects, before);
      WorldsAreExecutions(cfg, db, objects, before, |before|);
      assert before[..|before|] == before;
      StepIsJust(cfg, db, Worlds(cfg, db, objects, before), Execute(cfg, db, objects, before), ls[|ls| - 1],
                 Execute(cfg, db, objects, ls), Owns(cfg, db, objects, before));
    }
  }

  /** The moment k of a run at which the atomic request would have given the answer. */
  ghost predicate AnsweredDuring(cfg: Config, db: Db, objects: set<Key>, ls: seq<Label>, n: nat, own: Own, o: Outcome, k: nat) {
    k <= |ls| && AnsweredAt(cfg, Execute(cfg, db, objects, ls[..k]), n, own, o)
  }

  ghost predicate AnsweredSometime(cfg: Config, db: Db, objects: set<Key>, ls: seq<Label>, n: nat, own: Own, o: Outcome) {
    exists k: nat :: AnsweredDuring(cfg, db, objects, ls, n, own, o, k)
  }

  /** Every refusal and every replay is the answer of the atomic request, with the clock
      reading and the time-in this request took, at some moment after its arrival (and,
      taking a run that ends with its reply, before that); but for the error of its own
      storage call or transaction when that failed, and for the conflict with the same
      action committed by another request. */
  lemma RefusalsAreAtomic(cfg: Config, db: Db, objects: set<Key>, ls: seq<Label>, n: nat)
    requires Inv(db)
    requires var w := Execute(cfg, db, objects, ls); n < |w.procs| && w.procs[n].Finished? && !Committed(w.procs[n].outcome)
    ensures var w := Execute(cfg, db, objects, ls);
            var owns := Owns(cfg, db, objects, ls);
            var o := w.procs[n].outcome;
      n < |owns| && (Environmental(owns[n], o) || LostToItself(cfg, w, n, owns[n], o)
                     || AnsweredSometime(cfg, db, objects, ls, n, owns[n], o))
  {
    var w := Execute(cfg, db, objects, ls);
    RunIsJust(cfg, db, objects, ls);
    FinishedIsExplained(cfg, Worlds(cfg, db, objects, ls), w, n, Owns(cfg, db, objects, ls));
    ExplainedDuring(cfg, db, objects, ls, w, n, Owns(cfg, db, objects, ls)[n], w.procs[n].outcome);
  }

  lemma FinishedIsExplained(cfg: Config, hist: seq<World>, w: World, n: nat, owns: seq<Own>)
    requires AllJust(cfg, hist, w, owns) && n < |w.procs| && w.procs[n].Finished?
    ensures Explained(cfg, hist, w, n, owns[n], w.procs[n].outcome)
  {
    assert Just(cfg, hist, w, n, owns[n]);
  }

  lemma ExplainedDuring(cfg: Config, db: Db, objects: set<Key>, ls: seq<Label>, w: World, n: nat, own: Own, o: Outcome)
    requires Explained(cfg, Worlds(cfg, db, objects, ls), w, n, own, o) && !Committed(o)
    ensures Environmental(own, o) || LostToItself(cfg, w, n, own, o)
            || AnsweredSometime(cfg, db, objects, ls, n, own, o)
  {
    if Answered(cfg, Worlds(cfg, db, objects, ls), n, own, o) { MomentOfRun(cfg, db, objects, ls, n, own, o); }
  }

  lemma MomentOfRun(cfg: Config, db: Db, objects: set<Key>, ls: seq<Label>, n: nat, own: Own, o: Outcome)
    requires Answered(cfg, Worlds(cfg, db, objects, ls), n, own, o)
    ensures AnsweredSometime(cfg, db, objects, ls, n, own, o)
  {
    var hist := Worlds(cfg, db, objects, ls);
    var k :| 0 <= k < |hist| && AnsweredAt(cfg, hist[k], n, own, o);
    WorldsAreExecutions(cfg, db, objects, ls, |ls|);
    WorldsAreExecutions(cfg, db, objects, ls, k);
    assert AnsweredDuring(cfg, db, objects, ls, n, own, o, k);
  }
}
