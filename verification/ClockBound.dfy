/** Stored times stay behind the clock under every interleaving, although a Request is
    validated against a time-in, and a Time In or Time Out stamped with a clock reading,
    taken well before its transaction. */
module ClockBound {
  import opened Schema
  import opened LedgerInvariants
  import opened LedgerHistory
  import opened Concurrent
  import opened Serialization
  import opened Steps

  /** The clock reading a request still carries towards its transaction. */
  predicate HeldBefore(p: Proc, clock: Time) {
    match p
    case InSited(c, _) => c.now <= clock
    case PutOriginal(c, _) => c.now <= clock
    case PutWatermarked(c, _) => c.now <= clock
    case Ready(c, _) => c.now <= clock
    case OutLocked(c, _, _, _, _) => c.now <= clock
    case RequestReady(p) => p.now <= clock
    case _ => true
  }

  /** Every reading carried or committed so far. */
  ghost predicate TimesOk(w: World, clock: Time) {
    && (forall n :: 0 <= n < |w.procs| ==> HeldBefore(w.procs[n], clock))
    && (forall m :: 0 <= m < |w.log| ==> TimeOf(w.log[m].event, clock) <= clock)
  }

  /** A move replaced one program point and perhaps logged one event. */
  lemma OneMoved(w: World, v: World, n: nat, clock: Time)
    requires TimesOk(w, clock) && Local(w, v, n) && n < |w.procs| && HeldBefore(v.procs[n], clock)
    requires v.log != w.log ==> TimeOf(v.log[|v.log| - 1].event, clock) <= clock
    ensures TimesOk(v, clock)
  {
    if v.log != w.log {
      var x :| v.log == w.log + [x];
    }
  }

  lemma MoveInTimes(cfg: Config, w: World, n: nat, ch: Choice, clock: Time)
    requires n < |w.procs| && HeldBefore(w.procs[n], clock) && ch.now <= clock
    ensures var v := MoveIn(cfg, w, n, ch); n < |v.procs| && v.log == w.log && HeldBefore(v.procs[n], clock)
  {
  }

  lemma MoveOutTimes(cfg: Config, w: World, n: nat, ch: Choice, clock: Time)
    requires n < |w.procs| && HeldBefore(w.procs[n], clock) && ch.now <= clock
    ensures var v := MoveOut(cfg, w, n, ch);
      && n < |v.procs| && HeldBefore(v.procs[n], clock)
      && (v.log != w.log ==> |v.log| > 0 && TimeOf(v.log[|v.log| - 1].event, clock) <= clock)
  {
  }

  lemma MoveCaptureTimes(cfg: Config, w: World, n: nat, ch: Choice, clock: Time)
    requires n < |w.procs| && HeldBefore(w.procs[n], clock)
    ensures var v := MoveCapture(cfg, w, n, ch);
      && n < |v.procs| && HeldBefore(v.procs[n], clock)
      && (v.log != w.log ==> |v.log| > 0 && TimeOf(v.log[|v.log| - 1].event, clock) <= clock)
  {
  }

  lemma MoveCorrectionTimes(w: World, n: nat, ch: Choice, clock: Time)
    requires n < |w.procs| && HeldBefore(w.procs[n], clock) && ch.now <= clock
    ensures var v := MoveCorrection(w, n, ch);
      && n < |v.procs| && HeldBefore(v.procs[n], clock)
      && (v.log != w.log ==> |v.log| > 0 && TimeOf(v.log[|v.log| - 1].event, clock) <= clock)
  {
  }

  predicate ReadsBefore(l: Label, clock: Time) { l.Move? ==> l.choice.now <= clock }

  lemma StepTimes(cfg: Config, w: World, l: Label, clock: Time)
    requires TimesOk(w, clock) && ReadsBefore(l, clock)
    ensures TimesOk(StepWorld(cfg, w, l), clock)
  {
    if l.Move? && l.index < |w.procs| {
      var n, ch := l.index, l.choice;
      MoveInTimes(cfg, w, n, ch, clock);
      MoveOutTimes(cfg, w, n, ch, clock);
      MoveCaptureTimes(cfg, w, n, ch, clock);
      MoveCorrectionTimes(w, n, ch, clock);
      MoveIsLocal(cfg, w, n, ch);
      OneMoved(w, StepWorld(cfg, w, l), n, clock);
    }
  }

  lemma MoveIsLocal(cfg: Config, w: World, n: nat, ch: Choice)
    requires n < |w.procs|
    ensures Local(w, StepWorld(cfg, w, Move(n, ch)), n)
  {
    MoveInIsLocal(cfg, w, n, ch);
    MoveOutIsLocal(cfg, w, n, ch);
    MoveCaptureIsLocal(cfg, w, n, ch);
    MoveCorrectionIsLocal(w, n, ch);
  }

  lemma {:induction false} ExecutionTimes(cfg: Config, db: Db, objects: set<Key>, ls: seq<Label>, clock: Time)
    requires forall k :: 0 <= k < |ls| ==> ReadsBefore(ls[k], clock)
    ensures TimesOk(Execute(cfg, db, objects, ls), clock)
  {
    if ls != [] {
      var n := |ls| - 1;
      assert forall k :: 0 <= k < n ==> ls[..n][k] == ls[k];
      ExecutionTimes(cfg, db, objects, ls[..n], clock);
      StepTimes(cfg, Execute(cfg, db, objects, ls[..n]), ls[n], clock);
    }
  }

  lemma {:induction false} ReplayBehindClock(cfg: Config, db: Db, log: seq<Entry>, clock: Time)
    requires BehindClock(db, clock) && forall m :: 0 <= m < |log| ==> TimeOf(log[m].event, clock) <= clock
    ensures BehindClock(Replay(cfg, db, log), clock)
  {
    if log != [] {
      var n := |log| - 1;
      assert forall m :: 0 <= m < n ==> log[..n][m] == log[m];
      ReplayBehindClock(cfg, db, log[..n], clock);
      StepBehindClock(cfg, Replay(cfg, db, log[..n]), log[n].event, clock);
    }
  }

  /** If no clock reading of the run is later than `clock`, no stored time is. */
  lemma InterleavingBehindClock(cfg: Config, db: Db, objects: set<Key>, ls: seq<Label>, clock: Time)
    requires Inv(db) && BehindClock(db, clock) && forall k :: 0 <= k < |ls| ==> ReadsBefore(ls[k], clock)
    ensures BehindClock(Execute(cfg, db, objects, ls).db, clock)
  {
    ExecutionTimes(cfg, db, objects, ls, clock);
    ExecutionKeepsWorld(cfg, db, objects, ls);
    ReplayBehindClock(cfg, db, Execute(cfg, db, objects, ls).log, clock);
  }
}
