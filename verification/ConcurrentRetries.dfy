/** A retry of a Time In or Time Out, sent before or after the first request commits,
    with any other requests moving in between. A request looks its action id up once
    before it does any work; what it can still answer afterwards is decided inside
    its transaction. */
module ConcurrentRetries {
  import opened Common
  import opened Schema
  import opened Ledger
  import opened LedgerInvariants
  import opened LedgerHistory
  import opened Concurrent
  import opened Serialization
  import opened Steps

  predicate Same(c: Capture, t: Id, x: Id) { c.trainee == t && c.clientAction == x }

  /** Request n is never turned down by the object store or a failing transaction. */
  predicate Obliging(ls: seq<Label>, n: nat) {
    forall k :: 0 <= k < |ls| && Moves(ls[k], n) ==> ls[k].choice.ok
  }

  // ---- before the lookup ----

  /** A Time In of this action that has not looked it up yet, or its answer. */
  predicate WillReplayIn(p: Proc, t: Id, x: Id, id: Id) {
    match p
    case InBegin(c) => Same(c, t, x)
    case InSited(c, _) => Same(c, t, x)
    case Finished(o) => o == Replayed(id) || o == Refused(NoActiveAssignment)
    case _ => false
  }

  predicate WillReplayOut(p: Proc, t: Id, x: Id, i: Id) {
    match p
    case OutBegin(c, j) => Same(c, t, x) && j == i
    case OutRead(c, j, _) => Same(c, t, x) && j == i
    case Finished(o) => o == Replayed(i)
    case _ => false
  }

  lemma OwnReplaysIn(cfg: Config, w: World, n: nat, ch: Choice, t: Id, x: Id, id: Id)
    requires n < |w.procs| && FindReplay(w.db, t, x) == Some(id) && WillReplayIn(w.procs[n], t, x, id)
    ensures var v := StepWorld(cfg, w, Move(n, ch)); n < |v.procs| && WillReplayIn(v.procs[n], t, x, id)
  {
  }

  lemma OwnReplaysOut(cfg: Config, w: World, n: nat, ch: Choice, t: Id, x: Id, i: Id)
    requires n < |w.procs| && ReplaysTimeOut(w.db, t, x, i) && Owned(w.db, t, i) && WillReplayOut(w.procs[n], t, x, i)
    ensures var v := StepWorld(cfg, w, Move(n, ch)); n < |v.procs| && WillReplayOut(v.procs[n], t, x, i)
  {
  }

  lemma StepReplaysIn(cfg: Config, db: Db, w: World, l: Label, n: nat, t: Id, x: Id, id: Id)
    requires WorldInv(cfg, db, w) && n < |w.procs|
    requires FindReplay(w.db, t, x) == Some(id) && WillReplayIn(w.procs[n], t, x, id)
    ensures var v := StepWorld(cfg, w, l);
      n < |v.procs| && FindReplay(v.db, t, x) == Some(id) && WillReplayIn(v.procs[n], t, x, id)
  {
    StepSeen(cfg, db, w, l, n, t, x);
    if Moves(l, n) { OwnReplaysIn(cfg, w, n, l.choice, t, x, id); }
  }

  lemma StepReplaysOut(cfg: Config, db: Db, w: World, l: Label, n: nat, t: Id, x: Id, i: Id)
    requires WorldInv(cfg, db, w) && n < |w.procs|
    requires ReplaysTimeOut(w.db, t, x, i) && WillReplayOut(w.procs[n], t, x, i)
    ensures var v := StepWorld(cfg, w, l);
      n < |v.procs| && ReplaysTimeOut(v.db, t, x, i) && WillReplayOut(v.procs[n], t, x, i)
  {
    StepSeen(cfg, db, w, l, n, t, x);
    ReplayedIsClosed(w.db, t, x, i);
    if Moves(l, n) { OwnReplaysOut(cfg, w, n, l.choice, t, x, i); }
  }

  /** A Time In that has not looked its action up when the action's evidence is
      committed, in particular one that arrives later, is answered with that session,
      or refused if no assignment covers the day; it does nothing else. */
  lemma {:induction false} TimeInRetryAfterCommit(cfg: Config, db: Db, objects: set<Key>, ls: seq<Label>, more: seq<Label>,
                                                  n: nat, t: Id, x: Id, id: Id)
    requires Inv(db)
    requires var w := Execute(cfg, db, objects, ls);
      n < |w.procs| && FindReplay(w.db, t, x) == Some(id) && WillReplayIn(w.procs[n], t, x, id)
    ensures var v := Execute(cfg, db, objects, ls + more);
      n < |v.procs| && FindReplay(v.db, t, x) == Some(id) && WillReplayIn(v.procs[n], t, x, id)
  {
    if more == [] {
      assert ls + more == ls;
    } else {
      var k := |more| - 1;
      TimeInRetryAfterCommit(cfg, db, objects, ls, more[..k], n, t, x, id);
      ExecuteNext(cfg, db, objects, ls, more);
      StepReplaysIn(cfg, db, Execute(cfg, db, objects, ls + more[..k]), more[k], n, t, x, id);
    }
  }

  /** Likewise a Time Out: the only answer left to it is the committed result. */
  lemma {:induction false} TimeOutRetryAfterCommit(cfg: Config, db: Db, objects: set<Key>, ls: seq<Label>, more: seq<Label>,
                                                   n: nat, t: Id, x: Id, i: Id)
    requires Inv(db)
    requires var w := Execute(cfg, db, objects, ls);
      n < |w.procs| && ReplaysTimeOut(w.db, t, x, i) && WillReplayOut(w.procs[n], t, x, i)
    ensures var v := Execute(cfg, db, objects, ls + more);
      n < |v.procs| && ReplaysTimeOut(v.db, t, x, i) && WillReplayOut(v.procs[n], t, x, i)
  {
    if more == [] {
      assert ls + more == ls;
    } else {
      var k := |more| - 1;
      TimeOutRetryAfterCommit(cfg, db, objects, ls, more[..k], n, t, x, i);
      ExecuteNext(cfg, db, objects, ls, more);
      StepReplaysOut(cfg, db, Execute(cfg, db, objects, ls + more[..k]), more[k], n, t, x, i);
    }
  }

  /** The last step of a longer run, and the invariant before it. */
  lemma ExecuteNext(cfg: Config, db: Db, objects: set<Key>, ls: seq<Label>, more: seq<Label>)
    requires Inv(db) && more != []
    ensures var k := |more| - 1;
      && WorldInv(cfg, db, Execute(cfg, db, objects, ls + more[..k]))
      && Execute(cfg, db, objects, ls + more) == StepWorld(cfg, Execute(cfg, db, objects, ls + more[..k]), more[k])
  {
    ExecutionKeepsWorld(cfg, db, objects, ls + more[..|more| - 1]);
    ExecuteOneMore(cfg, db, objects, ls, more);
  }

  lemma ExecuteOneMore(cfg: Config, db: Db, objects: set<Key>, ls: seq<Label>, more: seq<Label>)
    requires more != []
    ensures var k := |more| - 1;
      Execute(cfg, db, objects, ls + more) == StepWorld(cfg, Execute(cfg, db, objects, ls + more[..k]), more[k])
  {
    assert (ls + more)[..|ls + more| - 1] == ls + more[..|more| - 1];
  }

  // ---- a Time Out past its lookup ----

  /** The request looked its action up in vain; none of its later answers is a replay. */
  predicate PastOut(db: Db, p: Proc) {
    match p
    case OutFresh(_, _) => true
    case PutOriginal(_, job) => job.JobOut?
    case PutWatermarked(_, job) => job.JobOut?
    case Ready(_, job) => job.JobOut?
    case OutLocked(_, _, _, _, _) => true
    case Undo(c, _, next) =>
      next.Stop? || (next.LookupOut? && FindReplay(db, c.trainee, c.clientAction).Some?
                     && !ReplaysTimeOut(db, c.trainee, c.clientAction, next.session))
    case Finished(o) => !o.Replayed?
    case _ => false
  }

  lemma TablesKeepPastOut(a: Db, b: Db, p: Proc)
    requires Grows(a, b) && PastOut(a, p)
    ensures PastOut(b, p)
  {
    if p.Undo? { ReplayStays(a, b, p.c.trainee, p.c.clientAction); }
  }

  lemma StepKeepsPastOut(cfg: Config, db: Db, w: World, l: Label, n: nat)
    requires WorldInv(cfg, db, w) && n < |w.procs| && PastOut(w.db, w.procs[n])
    ensures var v := StepWorld(cfg, w, l); n < |v.procs| && PastOut(v.db, v.procs[n])
  {
    StepIsLocal(cfg, w, l);
    StepGrowsTables(cfg, db, w, l);
    TablesKeepPastOut(w.db, StepWorld(cfg, w, l).db, w.procs[n]);
    if Moves(l, n) {
      if w.procs[n].OutLocked? {
        LockedKeepsPastOut(cfg, db, w, n, l.choice);
      } else if w.procs[n].OutFresh? {
        assert StepWorld(cfg, w, l) == MoveOut(cfg, w, n, l.choice);
      } else {
        CaptureKeepsPastOut(cfg, w, n, l.choice);
      }
    }
  }

  lemma LockedKeepsPastOut(cfg: Config, db: Db, w: World, n: nat, ch: Choice)
    requires WorldInv(cfg, db, w) && n < |w.procs| && w.procs[n].OutLocked?
    ensures var v := MoveOut(cfg, w, n, ch); n < |v.procs| && PastOut(v.db, v.procs[n])
  {
    var OutLocked(c, i, rule, curIn, curFlags) := w.procs[n];
    assert ProcOk(cfg, w.db, w.procs[n]);
    if ReplaysTimeOut(w.db, c.trainee, c.clientAction, i) {
      ReplayedIsClosed(w.db, c.trainee, c.clientAction, i);
    }
  }

  lemma CaptureKeepsPastOut(cfg: Config, w: World, n: nat, ch: Choice)
    requires n < |w.procs| && PastOut(w.db, w.procs[n]) && !w.procs[n].OutLocked? && !w.procs[n].OutFresh?
    ensures var v := StepWorld(cfg, w, Move(n, ch)); n < |v.procs| && PastOut(v.db, v.procs[n])
  {
  }

  lemma {:induction false} RunKeepsPastOut(cfg: Config, db: Db, objects: set<Key>, ls: seq<Label>, more: seq<Label>, n: nat)
    requires Inv(db)
    requires var w := Execute(cfg, db, objects, ls); n < |w.procs| && PastOut(w.db, w.procs[n])
    ensures var v := Execute(cfg, db, objects, ls + more); n < |v.procs| && PastOut(v.db, v.procs[n])
  {
    if more == [] {
      assert ls + more == ls;
    } else {
      var k := |more| - 1;
      RunKeepsPastOut(cfg, db, objects, ls, more[..k], n);
      ExecuteNext(cfg, db, objects, ls, more);
      StepKeepsPastOut(cfg, db, Execute(cfg, db, objects, ls + more[..k]), more[k], n);
    }
  }

  /** A Time Out is answered with an earlier result exactly when, at its lookup, the
      action's evidence for that session is committed; whatever commits later, its
      answer is then another. */
  lemma TimeOutReplayedExactly(cfg: Config, db: Db, objects: set<Key>, ls: seq<Label>, n: nat, ch: Choice, more: seq<Label>)
    requires Inv(db)
    requires var w := Execute(cfg, db, objects, ls); n < |w.procs| && w.procs[n].OutRead?
    ensures var w := Execute(cfg, db, objects, ls);
            var OutRead(c, i, _) := w.procs[n];
            var v := Execute(cfg, db, objects, ls + [Move(n, ch)] + more);
      && n < |v.procs|
      && (ReplaysTimeOut(w.db, c.trainee, c.clientAction, i) ==> v.procs[n] == Finished(Replayed(i)))
      && (!ReplaysTimeOut(w.db, c.trainee, c.clientAction, i) ==> !(v.procs[n].Finished? && v.procs[n].outcome.Replayed?))
  {
    var w := Execute(cfg, db, objects, ls);
    var OutRead(c, i, _) := w.procs[n];
    var looked := StepWorld(cfg, w, Move(n, ch));
    ExecuteNext(cfg, db, objects, ls, [Move(n, ch)]);
    assert ls + [] == ls && [Move(n, ch)][..0] == [];
    if ReplaysTimeOut(w.db, c.trainee, c.clientAction, i) {
      assert looked.procs[n] == Finished(Replayed(i));
      TimeOutRetryAfterCommit(cfg, db, objects, ls + [Move(n, ch)], more, n, c.trainee, c.clientAction, i);
      RunKeepsFinished(cfg, db, objects, ls + [Move(n, ch)], more, n);
    } else {
      assert PastOut(looked.db, looked.procs[n]);
      RunKeepsPastOut(cfg, db, objects, ls + [Move(n, ch)], more, n);
    }
  }

  lemma {:induction false} RunKeepsFinished(cfg: Config, db: Db, objects: set<Key>, ls: seq<Label>, more: seq<Label>, n: nat)
    requires Inv(db)
    requires var w := Execute(cfg, db, objects, ls); n < |w.procs| && w.procs[n].Finished?
    ensures var w, v := Execute(cfg, db, objects, ls), Execute(cfg, db, objects, ls + more);
      n < |v.procs| && v.procs[n] == w.procs[n]
  {
    if more == [] {
      assert ls + more == ls;
    } else {
      var k := |more| - 1;
      RunKeepsFinished(cfg, db, objects, ls, more[..k], n);
      ExecuteNext(cfg, db, objects, ls, more);
      FinishedStays(cfg, Execute(cfg, db, objects, ls + more[..k]), more[k], n);
    }
  }

  lemma FinishedStays(cfg: Config, w: World, l: Label, n: nat)
    requires n < |w.procs| && w.procs[n].Finished?
    ensures var v := StepWorld(cfg, w, l); n < |v.procs| && v.procs[n] == w.procs[n]
  {
    StepIsLocal(cfg, w, l);
  }

  // ---- the conflict of a losing Time Out ----

  /** Undoing towards an error, or answered with it. */
  predicate Settling(p: Proc, e: Error) { (p.Undo? && p.next == Stop(e)) || p == Finished(Refused(e)) }

  /** A Time Out of this action past its lookup that has not reached its transaction,
      or one turned away there. */
  predicate LosingOut(p: Proc, t: Id, x: Id, i: Id) {
    match p
    case OutFresh(c, j) => Same(c, t, x) && j == i && !MissingReason(c)
    case PutOriginal(c, job) => Same(c, t, x) && job.JobOut? && job.session == i
    case PutWatermarked(c, job) => Same(c, t, x) && job.JobOut? && job.session == i
    case Ready(c, job) => Same(c, t, x) && job.JobOut? && job.session == i
    case _ => Settling(p, AttendanceNotOpen)
  }

  lemma OwnKeepsLosingOut(cfg: Config, w: World, n: nat, ch: Choice, t: Id, x: Id, i: Id)
    requires n < |w.procs| && ch.ok && Owned(w.db, t, i) && w.db.sessions[i].status != Open && LosingOut(w.procs[n], t, x, i)
    ensures var v := StepWorld(cfg, w, Move(n, ch)); n < |v.procs| && LosingOut(v.procs[n], t, x, i)
  {
  }

  lemma StepKeepsLosingOut(cfg: Config, db: Db, w: World, l: Label, n: nat, t: Id, x: Id, i: Id)
    requires WorldInv(cfg, db, w) && n < |w.procs| && (Moves(l, n) ==> l.choice.ok)
    requires ReplaysTimeOut(w.db, t, x, i) && LosingOut(w.procs[n], t, x, i)
    ensures var v := StepWorld(cfg, w, l); n < |v.procs| && ReplaysTimeOut(v.db, t, x, i) && LosingOut(v.procs[n], t, x, i)
  {
    StepSeen(cfg, db, w, l, n, t, x);
    ReplayedIsClosed(w.db, t, x, i);
    if Moves(l, n) { OwnKeepsLosingOut(cfg, w, n, l.choice, t, x, i); }
  }

  lemma {:induction false} RunKeepsLosingOut(cfg: Config, db: Db, objects: set<Key>, ls: seq<Label>, more: seq<Label>,
                                             n: nat, t: Id, x: Id, i: Id)
    requires Inv(db) && Obliging(more, n)
    requires var w := Execute(cfg, db, objects, ls);
      n < |w.procs| && ReplaysTimeOut(w.db, t, x, i) && LosingOut(w.procs[n], t, x, i)
    ensures var v := Execute(cfg, db, objects, ls + more);
      n < |v.procs| && ReplaysTimeOut(v.db, t, x, i) && LosingOut(v.procs[n], t, x, i)
  {
    if more == [] {
      assert ls + more == ls;
    } else {
      var k := |more| - 1;
      ObligingBefore(more, n);
      RunKeepsLosingOut(cfg, db, objects, ls, more[..k], n, t, x, i);
      ExecuteNext(cfg, db, objects, ls, more);
      StepKeepsLosingOut(cfg, db, Execute(cfg, db, objects, ls + more[..k]), more[k], n, t, x, i);
    }
  }

  lemma ObligingBefore(ls: seq<Label>, n: nat)
    requires Obliging(ls, n) && ls != []
    ensures Obliging(ls[..|ls| - 1], n) && (Moves(ls[|ls| - 1], n) ==> ls[|ls| - 1].choice.ok)
  {
  }

  /** Once the action is committed for the session, a Time Out of it past its lookup is
      told the session is not open, and nothing else, provided its storage calls and
      its transaction go through. */
  lemma LosingTimeOut(cfg: Config, db: Db, objects: set<Key>, ls: seq<Label>, more: seq<Label>, n: nat, t: Id, x: Id, i: Id)
    requires Inv(db) && Obliging(more, n)
    requires var w := Execute(cfg, db, objects, ls);
      n < |w.procs| && ReplaysTimeOut(w.db, t, x, i) && LosingOut(w.procs[n], t, x, i)
    ensures var v := Execute(cfg, db, objects, ls + more);
      n < |v.procs| && (v.procs[n].Finished? ==> v.procs[n] == Finished(Refused(AttendanceNotOpen)))
  {
    RunKeepsLosingOut(cfg, db, objects, ls, more, n, t, x, i);
  }

  // ---- the transaction of a Time In ----

  predicate DayTaken(cfg: Config, db: Db, c: Capture) { Find(db.sessions, OnDay(c.trainee, cfg.localDate(c.now))).Some? }

  /** What a Time In answers, decided by the tables its transaction runs on. */
  function Verdict(cfg: Config, db: Db, c: Capture): Outcome {
    if DayTaken(cfg, db, c) then Refused(AttendanceExistsToday)
    else if FindReplay(db, c.trainee, c.clientAction).Some? then Replayed(FindReplay(db, c.trainee, c.clientAction).value)
    else Created(|db.sessions|)
  }

  /** On its way to that answer, or there. */
  predicate Answering(db: Db, p: Proc, o: Outcome) {
    match p
    case Undo(c, _, next) =>
      || (o.Refused? && next == Stop(o.error))
      || (o.Replayed? && next == LookupIn && FindReplay(db, c.trainee, c.clientAction) == Some(o.id))
    case Finished(r) => r == o
    case _ => false
  }

  lemma OwnKeepsAnswering(cfg: Config, w: World, n: nat, ch: Choice, o: Outcome)
    requires n < |w.procs| && Answering(w.db, w.procs[n], o)
    ensures var v := StepWorld(cfg, w, Move(n, ch)); n < |v.procs| && v.db == w.db && Answering(v.db, v.procs[n], o)
  {
  }

  lemma StepKeepsAnswering(cfg: Config, db: Db, w: World, l: Label, n: nat, o: Outcome)
    requires WorldInv(cfg, db, w) && n < |w.procs| && Answering(w.db, w.procs[n], o)
    ensures var v := StepWorld(cfg, w, l); n < |v.procs| && Answering(v.db, v.procs[n], o)
  {
    if w.procs[n].Undo? {
      StepSeen(cfg, db, w, l, n, w.procs[n].c.trainee, w.procs[n].c.clientAction);
    } else {
      StepIsLocal(cfg, w, l);
    }
    if Moves(l, n) { OwnKeepsAnswering(cfg, w, n, l.choice, o); }
  }

  lemma {:induction false} RunKeepsAnswering(cfg: Config, db: Db, objects: set<Key>, ls: seq<Label>, more: seq<Label>, n: nat, o: Outcome)
    requires Inv(db)
    requires var w := Execute(cfg, db, objects, ls); n < |w.procs| && Answering(w.db, w.procs[n], o)
    ensures var v := Execute(cfg, db, objects, ls + more); n < |v.procs| && Answering(v.db, v.procs[n], o)
  {
    if more == [] {
      assert ls + more == ls;
    } else {
      var k := |more| - 1;
      RunKeepsAnswering(cfg, db, objects, ls, more[..k], n, o);
      ExecuteNext(cfg, db, objects, ls, more);
      StepKeepsAnswering(cfg, db, Execute(cfg, db, objects, ls + more[..k]), more[k], n, o);
    }
  }

  /** Past its lookup, a Time In whose transaction goes through answers the conflict if
      a session exists for its day at that moment; else the session its action is
      recorded for, if any; else the one it creates. Whatever commits while it cleans
      up does not change the answer. */
  lemma TimeInAnswersExactly(cfg: Config, db: Db, objects: set<Key>, ls: seq<Label>, n: nat, ch: Choice, more: seq<Label>)
    requires Inv(db) && ch.ok
    requires var w := Execute(cfg, db, objects, ls); n < |w.procs| && w.procs[n].Ready? && w.procs[n].job.JobIn?
    ensures var w := Execute(cfg, db, objects, ls);
            var v := Execute(cfg, db, objects, ls + [Move(n, ch)] + more);
      && n < |v.procs| && Answering(v.db, v.procs[n], Verdict(cfg, w.db, w.procs[n].c))
      && (v.procs[n].Finished? ==> v.procs[n] == Finished(Verdict(cfg, w.db, w.procs[n].c)))
  {
    var w := Execute(cfg, db, objects, ls);
    ExecuteNext(cfg, db, objects, ls, [Move(n, ch)]);
    assert ls + [] == ls && [Move(n, ch)][..0] == [];
    var o := Verdict(cfg, w.db, w.procs[n].c);
    TransactionAnswers(cfg, w, n, ch);
    RunKeepsAnswering(cfg, db, objects, ls + [Move(n, ch)], more, n, o);
  }

  lemma TransactionAnswers(cfg: Config, w: World, n: nat, ch: Choice)
    requires n < |w.procs| && w.procs[n].Ready? && w.procs[n].job.JobIn? && ch.ok
    ensures var v := StepWorld(cfg, w, Move(n, ch));
      n < |v.procs| && Answering(v.db, v.procs[n], Verdict(cfg, w.db, w.procs[n].c))
  {
  }

  // ---- a Time In from its lookup on ----

  /** At step k the transaction of request n ran, found its action recorded for session
      id, and no session on its day. */
  predicate TransactionReplays(cfg: Config, db: Db, objects: set<Key>, ls: seq<Label>, n: nat, id: Id, k: nat) {
    && k < |ls| && Moves(ls[k], n) && ls[k].choice.ok
    && var u := Execute(cfg, db, objects, ls[..k]);
       && n < |u.procs| && u.procs[n].Ready? && u.procs[n].job.JobIn?
       && Verdict(cfg, u.db, u.procs[n].c) == Replayed(id)
  }

  ghost predicate SomeTransactionReplays(cfg: Config, db: Db, objects: set<Key>, ls: seq<Label>, n: nat, id: Id) {
    exists k: nat :: TransactionReplays(cfg, db, objects, ls, n, id, k)
  }

  /** The request looked its action up in vain; a replay can only come from its own
      transaction. */
  ghost predicate PastIn(cfg: Config, db: Db, objects: set<Key>, ls: seq<Label>, w: World, n: nat) {
    && n < |w.procs|
    && match w.procs[n]
       case PutOriginal(_, job) => job.JobIn?
       case PutWatermarked(_, job) => job.JobIn?
       case Ready(_, job) => job.JobIn?
       case Undo(c, _, next) =>
         || next.Stop?
         || (next.LookupIn? && FindReplay(w.db, c.trainee, c.clientAction).Some?
             && SomeTransactionReplays(cfg, db, objects, ls, n, FindReplay(w.db, c.trainee, c.clientAction).value))
       case Finished(o) => o.Replayed? ==> SomeTransactionReplays(cfg, db, objects, ls, n, o.id)
       case _ => false
  }

  lemma TransactionStays(cfg: Config, db: Db, objects: set<Key>, ls: seq<Label>, l: Label, n: nat, id: Id)
    requires SomeTransactionReplays(cfg, db, objects, ls, n, id)
    ensures SomeTransactionReplays(cfg, db, objects, ls + [l], n, id)
  {
    var k: nat :| TransactionReplays(cfg, db, objects, ls, n, id, k);
    assert (ls + [l])[..k] == ls[..k];
    assert TransactionReplays(cfg, db, objects, ls + [l], n, id, k);
  }

  /** The transaction that has just run. */
  lemma TransactionJustRan(cfg: Config, db: Db, objects: set<Key>, ls: seq<Label>, l: Label, w: World, n: nat, id: Id)
    requires w == Execute(cfg, db, objects, ls) && Moves(l, n) && l.choice.ok
    requires n < |w.procs| && w.procs[n].Ready? && w.procs[n].job.JobIn? && Verdict(cfg, w.db, w.procs[n].c) == Replayed(id)
    ensures SomeTransactionReplays(cfg, db, objects, ls + [l], n, id)
  {
    assert (ls + [l])[..|ls|] == ls;
    assert TransactionReplays(cfg, db, objects, ls + [l], n, id, |ls|);
  }

  lemma OthersKeepPastIn(cfg: Config, db: Db, objects: set<Key>, ls: seq<Label>, l: Label, w: World, v: World, n: nat)
    requires WorldInv(cfg, db, w) && PastIn(cfg, db, objects, ls, w, n) && v == StepWorld(cfg, w, l) && !Moves(l, n)
    ensures PastIn(cfg, db, objects, ls + [l], v, n)
  {
    StepIsLocal(cfg, w, l);
    match w.procs[n]
    case Undo(c, _, next) =>
      if next.LookupIn? {
        StepSeen(cfg, db, w, l, n, c.trainee, c.clientAction);
        TransactionStays(cfg, db, objects, ls, l, n, FindReplay(w.db, c.trainee, c.clientAction).value);
      }
    case Finished(o) => if o.Replayed? { TransactionStays(cfg, db, objects, ls, l, n, o.id); }
    case _ =>
  }

  lemma OwnKeepsPastIn(cfg: Config, db: Db, objects: set<Key>, ls: seq<Label>, l: Label, w: World, v: World, n: nat)
    requires w == Execute(cfg, db, objects, ls) && PastIn(cfg, db, objects, ls, w, n) && Moves(l, n)
    requires v == MoveCapture(cfg, w, n, l.choice) && !w.procs[n].Finished?
    ensures PastIn(cfg, db, objects, ls + [l], v, n)
  {
    var c := w.procs[n].c;
    if w.procs[n].Undo? {
      if w.procs[n].next.LookupIn? {
        TransactionStays(cfg, db, objects, ls, l, n, FindReplay(w.db, c.trainee, c.clientAction).value);
      }
    } else if w.procs[n].Ready? && l.choice.ok && Verdict(cfg, w.db, c).Replayed? {
      TransactionJustRan(cfg, db, objects, ls, l, w, n, Verdict(cfg, w.db, c).id);
    }
  }

  lemma {:induction false} RunKeepsPastIn(cfg: Config, db: Db, objects: set<Key>, ls: seq<Label>, more: seq<Label>, n: nat)
    requires Inv(db) && PastIn(cfg, db, objects, ls, Execute(cfg, db, objects, ls), n)
    ensures PastIn(cfg, db, objects, ls + more, Execute(cfg, db, objects, ls + more), n)
  {
    if more == [] {
      assert ls + more == ls;
    } else {
      var k := |more| - 1;
      RunKeepsPastIn(cfg, db, objects, ls, more[..k], n);
      assert ls + more == (ls + more[..k]) + [more[k]];
      LabelKeepsPastIn(cfg, db, objects, ls + more[..k], more[k], ls + more, n);
    }
  }

  lemma LabelKeepsPastIn(cfg: Config, db: Db, objects: set<Key>, ls: seq<Label>, l: Label, all: seq<Label>, n: nat)
    requires Inv(db) && all == ls + [l] && PastIn(cfg, db, objects, ls, Execute(cfg, db, objects, ls), n)
    ensures PastIn(cfg, db, objects, all, Execute(cfg, db, objects, all), n)
  {
    ExecutionKeepsWorld(cfg, db, objects, ls);
    assert all[..|ls|] == ls;
    StepKeepsPastIn(cfg, db, objects, ls, l, Execute(cfg, db, objects, ls), n);
  }

  lemma StepKeepsPastIn(cfg: Config, db: Db, objects: set<Key>, ls: seq<Label>, l: Label, w: World, n: nat)
    requires w == Execute(cfg, db, objects, ls) && WorldInv(cfg, db, w) && PastIn(cfg, db, objects, ls, w, n)
    ensures PastIn(cfg, db, objects, ls + [l], StepWorld(cfg, w, l), n)
  {
    if !Moves(l, n) {
      OthersKeepPastIn(cfg, db, objects, ls, l, w, StepWorld(cfg, w, l), n);
    } else if w.procs[n].Finished? {
      FinishedStays(cfg, w, l, n);
      if w.procs[n].outcome.Replayed? { TransactionStays(cfg, db, objects, ls, l, n, w.procs[n].outcome.id); }
    } else {
      OwnKeepsPastIn(cfg, db, objects, ls, l, w, StepWorld(cfg, w, l), n);
    }
  }

  /** A transaction of the run that replays decides the answer. */
  lemma ReplayingTransactionDecides(cfg: Config, db: Db, objects: set<Key>, all: seq<Label>, n: nat, id: Id, k: nat)
    requires Inv(db) && TransactionReplays(cfg, db, objects, all, n, id, k)
    ensures var v := Execute(cfg, db, objects, all);
      n < |v.procs| && (v.procs[n].Finished? ==> v.procs[n] == Finished(Replayed(id)))
  {
    assert all == all[..k] + [all[k]] + all[k + 1..];
    assert all[k] == Move(n, all[k].choice);
    TimeInAnswersExactly(cfg, db, objects, all[..k], n, all[k].choice, all[k + 1..]);
  }

  lemma PastInAnswersExactly(cfg: Config, db: Db, objects: set<Key>, all: seq<Label>, n: nat, id: Id)
    requires Inv(db) && PastIn(cfg, db, objects, all, Execute(cfg, db, objects, all), n)
    ensures var v := Execute(cfg, db, objects, all);
      v.procs[n] == Finished(Replayed(id)) <==> v.procs[n].Finished? && SomeTransactionReplays(cfg, db, objects, all, n, id)
  {
    if SomeTransactionReplays(cfg, db, objects, all, n, id) {
      var k: nat :| TransactionReplays(cfg, db, objects, all, n, id, k);
      ReplayingTransactionDecides(cfg, db, objects, all, n, id, k);
    }
  }

  /** From its lookup on: if the action is recorded then, a Time In is answered with its
      session, for good. If not, a finished request was answered with session id exactly
      when its own transaction ran at a moment the action was recorded for id and no
      session existed on its day. */
  lemma TimeInReplayedExactly(cfg: Config, db: Db, objects: set<Key>, ls: seq<Label>, n: nat, ch: Choice, more: seq<Label>, id: Id)
    requires Inv(db)
    requires var w := Execute(cfg, db, objects, ls); n < |w.procs| && w.procs[n].InSited?
    ensures var w := Execute(cfg, db, objects, ls);
            var InSited(c, _) := w.procs[n];
            var all := ls + [Move(n, ch)] + more;
            var v := Execute(cfg, db, objects, all);
      && n < |v.procs|
      && (FindReplay(w.db, c.trainee, c.clientAction) == Some(id) ==> v.procs[n] == Finished(Replayed(id)))
      && (FindReplay(w.db, c.trainee, c.clientAction).None? ==>
            (v.procs[n] == Finished(Replayed(id)) <==>
               v.procs[n].Finished? && SomeTransactionReplays(cfg, db, objects, all, n, id)))
  {
    var w := Execute(cfg, db, objects, ls);
    var InSited(c, _) := w.procs[n];
    var looked := ls + [Move(n, ch)];
    assert looked[..|ls|] == ls;
    if FindReplay(w.db, c.trainee, c.clientAction).Some? {
      RunKeepsFinished(cfg, db, objects, looked, more, n);
    } else {
      VainLookup(cfg, db, objects, looked, w, n, ch);
      RunKeepsPastIn(cfg, db, objects, looked, more, n);
      PastInAnswersExactly(cfg, db, objects, looked + more, n, id);
    }
  }

  lemma VainLookup(cfg: Config, db: Db, objects: set<Key>, looked: seq<Label>, w: World, n: nat, ch: Choice)
    requires n < |w.procs| && w.procs[n].InSited?
    requires FindReplay(w.db, w.procs[n].c.trainee, w.procs[n].c.clientAction).None?
    ensures PastIn(cfg, db, objects, looked, StepWorld(cfg, w, Move(n, ch)), n)
  {
  }
}
