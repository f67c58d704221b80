/** Row locks are taken correction first, session second, so requests never wait for
    each other in a circle: some request can always move, and all can finish. */
module Liveness {
  import opened Common
  import opened Schema
  import opened Concurrent
  import opened Steps

  /** Steps a request has left at most. */
  function StepsLeft(p: Proc): nat {
    match p
    case OutBegin(_, _) => 11
    case OutRead(_, _, _) => 10
    case OutFresh(_, _) => 9
    case InBegin(_) => 10
    case InSited(_, _) => 9
    case PutOriginal(_, _) => 8
    case PutWatermarked(_, _) => 7
    case Ready(_, _) => 6
    case OutLocked(_, _, _, _, _) => 4
    case Undo(_, keys, _) => 1 + |keys|
    case DecideBegin(_, _) => 3
    case DecideHeld(_, _) => 2
    case DecideBoth(_, _, _, _) => 1
    case RequestBegin(_) => 3
    case RequestRead(_) => 2
    case RequestReady(_) => 1
    case Finished(_) => 0
  }

  /** The row lock the request's next statement needs is held by another request. */
  predicate Waits(w: World, n: nat)
    requires n < |w.procs|
  {
    match w.procs[n]
    case Ready(_, JobOut(i, _)) => Find(w.procs, HoldsSession(i)).Some?
    case DecideBegin(k, verdict) =>
      verdict != UnknownVerdict && k < |w.db.corrections| && Find(w.procs, HoldsCorrection(k)).Some?
    case DecideHeld(k, verdict) =>
      && verdict == Approve && k < |w.db.corrections| && w.db.corrections[k].attendance < |w.db.sessions|
      && Find(w.procs, HoldsSession(w.db.corrections[k].attendance)).Some?
    case _ => false
  }

  predicate Unfinished(w: World, n: nat) { n < |w.procs| && !w.procs[n].Finished? }

  /** An object key nobody has generated. */
  lemma {:induction false} FreshKey(used: set<Key>) returns (k: Key)
    ensures forall u :: u in used ==> u < k
  {
    k := 0;
    if used != {} {
      var x :| x in used;
      k := FreshKey(used - {x});
      if x >= k { k := x + 1; }
      forall u | u in used ensures u < k {
        if u != x { assert u in used - {x}; }
      }
    }
  }

  /** The request took a step towards its end and touched no other request. */
  ghost predicate Advances(w: World, v: World, n: nat) {
    && n < |w.procs| && |v.procs| == |w.procs| && StepsLeft(v.procs[n]) < StepsLeft(w.procs[n])
    && forall m :: 0 <= m < |w.procs| && m != n ==> v.procs[m] == w.procs[m]
  }

  lemma FreeRequestAdvances(cfg: Config, w: World, n: nat, key: Key)
    requires Unfinished(w, n) && !Waits(w, n) && key !in w.used
    ensures Advances(w, StepWorld(cfg, w, Move(n, Choice(0, key, true))), n)
  {
    match w.procs[n]
    case InBegin(_) =>
    case InSited(_, _) =>
    case OutBegin(_, _) => OutAdvances(cfg, w, n, key);
    case OutRead(_, _, _) => OutAdvances(cfg, w, n, key);
    case OutFresh(_, _) => OutAdvances(cfg, w, n, key);
    case OutLocked(_, _, _, _, _) => LockedAdvances(cfg, w, n, key);
    case PutOriginal(_, _) => CaptureAdvances(cfg, w, n, key);
    case PutWatermarked(_, _) => CaptureAdvances(cfg, w, n, key);
    case Ready(_, _) => CaptureAdvances(cfg, w, n, key);
    case Undo(_, _, _) => CaptureAdvances(cfg, w, n, key);
    case _ => CorrectionAdvances(w, n, key);
  }

  lemma OutAdvances(cfg: Config, w: World, n: nat, key: Key)
    requires n < |w.procs| && (w.procs[n].OutBegin? || w.procs[n].OutRead? || w.procs[n].OutFresh?)
    ensures Advances(w, MoveOut(cfg, w, n, Choice(0, key, true)), n)
  {
  }

  lemma LockedAdvances(cfg: Config, w: World, n: nat, key: Key)
    requires n < |w.procs| && w.procs[n].OutLocked?
    ensures Advances(w, MoveOut(cfg, w, n, Choice(0, key, true)), n)
  {
    var ch := Choice(0, key, true);
    MoveOutIsLocal(cfg, w, n, ch);
    LockedEnds(cfg, w, n, ch);
    Nearer(w, MoveOut(cfg, w, n, ch), n);
  }

  lemma LockedEnds(cfg: Config, w: World, n: nat, ch: Choice)
    requires n < |w.procs| && w.procs[n].OutLocked?
    ensures var v := MoveOut(cfg, w, n, ch); n < |v.procs| && StepsLeft(v.procs[n]) < StepsLeft(w.procs[n])
  {
  }

  lemma Nearer(w: World, v: World, n: nat)
    requires n < |w.procs| && Local(w, v, n) && StepsLeft(v.procs[n]) < StepsLeft(w.procs[n])
    ensures Advances(w, v, n)
  {
  }

  lemma CaptureAdvances(cfg: Config, w: World, n: nat, key: Key)
    requires n < |w.procs| && !Waits(w, n) && key !in w.used
    requires w.procs[n].PutOriginal? || w.procs[n].PutWatermarked? || w.procs[n].Ready? || w.procs[n].Undo?
    ensures Advances(w, MoveCapture(cfg, w, n, Choice(0, key, true)), n)
  {
  }

  lemma CorrectionAdvances(w: World, n: nat, key: Key)
    requires n < |w.procs| && !Waits(w, n)
    requires w.procs[n].DecideBegin? || w.procs[n].DecideHeld? || w.procs[n].DecideBoth?
          || w.procs[n].RequestBegin? || w.procs[n].RequestRead? || w.procs[n].RequestReady?
    ensures Advances(w, MoveCorrection(w, n, Choice(0, key, true)), n)
  {
  }

  /** Whoever waits, waits behind somebody who does not. */
  lemma SomebodyIsFree(w: World, n: nat)
    requires Unfinished(w, n)
    ensures exists m :: Unfinished(w, m) && !Waits(w, m)
  {
    if Waits(w, n) {
      match w.procs[n]
      case Ready(_, JobOut(i, _)) => SessionHolderIsFree(w, i);
      case DecideHeld(k, _) => SessionHolderIsFree(w, w.db.corrections[k].attendance);
      case DecideBegin(k, _) =>
        var m := Find(w.procs, HoldsCorrection(k)).value;
        assert HoldsCorrection(k)(w.procs[m]);
        if Waits(w, m) { SessionHolderIsFree(w, w.db.corrections[k].attendance); } else { assert Unfinished(w, m); }
    } else {
      assert Unfinished(w, n);
    }
  }

  lemma SessionHolderIsFree(w: World, i: Id)
    requires Find(w.procs, HoldsSession(i)).Some?
    ensures exists m :: Unfinished(w, m) && !Waits(w, m)
  {
    var m := Find(w.procs, HoldsSession(i)).value;
    assert HoldsSession(i)(w.procs[m]);
    assert Unfinished(w, m) && !Waits(w, m);
  }

  /** No deadlock: while a request is unfinished, some request has a move that takes it
      nearer its end, in every state whatsoever. */
  lemma NoDeadlock(cfg: Config, w: World, n: nat)
    requires Unfinished(w, n)
    ensures exists m, ch :: Advances(w, StepWorld(cfg, w, Move(m, ch)), m)
  {
    SomebodyIsFree(w, n);
    var m :| Unfinished(w, m) && !Waits(w, m);
    var key := FreshKey(w.used);
    FreeRequestAdvances(cfg, w, m, key);
  }

  // ---- everybody can finish ----

  function TotalLeft(procs: seq<Proc>): nat {
    if procs == [] then 0 else TotalLeft(procs[..|procs| - 1]) + StepsLeft(procs[|procs| - 1])
  }

  lemma {:induction false} TotalLeftUpdate(procs: seq<Proc>, n: nat, p: Proc)
    requires n < |procs|
    ensures TotalLeft(procs[n := p]) == TotalLeft(procs) - StepsLeft(procs[n]) + StepsLeft(p)
  {
    var k := |procs| - 1;
    if n == k {
      assert procs[n := p][..k] == procs[..k];
    } else {
      assert procs[n := p][..k] == procs[..k][n := p];
      TotalLeftUpdate(procs[..k], n, p);
    }
  }

  lemma {:induction false} NothingLeft(procs: seq<Proc>)
    requires TotalLeft(procs) == 0
    ensures forall n :: 0 <= n < |procs| ==> procs[n].Finished?
  {
    if procs != [] {
      NothingLeft(procs[..|procs| - 1]);
      assert forall n :: 0 <= n < |procs| - 1 ==> procs[..|procs| - 1][n] == procs[n];
    }
  }

  lemma {:induction false} SomethingLeft(procs: seq<Proc>)
    requires TotalLeft(procs) > 0
    ensures exists n :: 0 <= n < |procs| && !procs[n].Finished?
  {
    var k := |procs| - 1;
    if procs[k].Finished? {
      SomethingLeft(procs[..k]);
      var n :| 0 <= n < k && !procs[..k][n].Finished?;
      assert !procs[n].Finished?;
    }
  }

  /** Only requests already there move. */
  predicate OnlyMoves(ls: seq<Label>) { forall k :: 0 <= k < |ls| ==> ls[k].Move? }

  ghost predicate AllFinished(w: World) { forall n :: 0 <= n < |w.procs| ==> w.procs[n].Finished? }

  ghost predicate CanFinish(cfg: Config, db: Db, objects: set<Key>, ls: seq<Label>) {
    exists more :: OnlyMoves(more) && AllFinished(Execute(cfg, db, objects, ls + more))
  }

  lemma FinishedAlready(cfg: Config, db: Db, objects: set<Key>, ls: seq<Label>)
    requires TotalLeft(Execute(cfg, db, objects, ls).procs) == 0
    ensures CanFinish(cfg, db, objects, ls)
  {
    NothingLeft(Execute(cfg, db, objects, ls).procs);
    assert ls + [] == ls;
    assert OnlyMoves([]) && AllFinished(Execute(cfg, db, objects, ls + []));
  }

  lemma SameRun(ls: seq<Label>, l: Label, longer: seq<Label>, rest: seq<Label>)
    requires l.Move? && longer == ls + [l] && OnlyMoves(rest)
    ensures longer + rest == ls + ([l] + rest) && OnlyMoves([l] + rest)
  {
  }

  lemma FinishLater(cfg: Config, db: Db, objects: set<Key>, ls: seq<Label>, l: Label, longer: seq<Label>)
    requires l.Move? && longer == ls + [l] && CanFinish(cfg, db, objects, longer)
    ensures CanFinish(cfg, db, objects, ls)
  {
    var rest :| OnlyMoves(rest) && AllFinished(Execute(cfg, db, objects, longer + rest));
    SameRun(ls, l, longer, rest);
  }

  /** From any point of any interleaving, the requests in flight can all be driven to
      an answer without any new request arriving. */
  lemma {:induction false} AllCanFinish(cfg: Config, db: Db, objects: set<Key>, ls: seq<Label>)
    ensures CanFinish(cfg, db, objects, ls)
    decreases TotalLeft(Execute(cfg, db, objects, ls).procs)
  {
    if TotalLeft(Execute(cfg, db, objects, ls).procs) == 0 {
      FinishedAlready(cfg, db, objects, ls);
    } else {
      var l, longer := AdvanceFrom(cfg, db, objects, ls);
      AllCanFinish(cfg, db, objects, longer);
      FinishLater(cfg, db, objects, ls, l, longer);
    }
  }

  lemma AdvanceFrom(cfg: Config, db: Db, objects: set<Key>, ls: seq<Label>) returns (l: Label, longer: seq<Label>)
    requires TotalLeft(Execute(cfg, db, objects, ls).procs) > 0
    ensures l.Move? && longer == ls + [l]
    ensures TotalLeft(Execute(cfg, db, objects, longer).procs) < TotalLeft(Execute(cfg, db, objects, ls).procs)
  {
    l := Advance(cfg, Execute(cfg, db, objects, ls));
    longer := ls + [l];
    FinishFrom(cfg, db, objects, ls, l.index, l.choice);
  }

  lemma Advance(cfg: Config, w: World) returns (l: Label)
    requires TotalLeft(w.procs) > 0
    ensures l.Move? && Advances(w, StepWorld(cfg, w, l), l.index)
  {
    SomethingLeft(w.procs);
    var n :| 0 <= n < |w.procs| && !w.procs[n].Finished?;
    assert Unfinished(w, n);
    NoDeadlock(cfg, w, n);
    var m, ch :| Advances(w, StepWorld(cfg, w, Move(m, ch)), m);
    l := Move(m, ch);
  }

  lemma FinishFrom(cfg: Config, db: Db, objects: set<Key>, ls: seq<Label>, m: nat, ch: Choice)
    requires var w := Execute(cfg, db, objects, ls); Advances(w, StepWorld(cfg, w, Move(m, ch)), m)
    ensures TotalLeft(Execute(cfg, db, objects, ls + [Move(m, ch)]).procs) < TotalLeft(Execute(cfg, db, objects, ls).procs)
  {
    var w := Execute(cfg, db, objects, ls);
    var v := StepWorld(cfg, w, Move(m, ch));
    assert (ls + [Move(m, ch)])[..|ls|] == ls;
    TotalLeftUpdate(w.procs, m, v.procs[m]);
    assert v.procs == w.procs[m := v.procs[m]];
  }
}
