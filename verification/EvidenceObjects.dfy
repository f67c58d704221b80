/** Attendance photos: what the bucket holds at every step of every interleaving. */
module EvidenceObjects {
  import opened Schema
  import opened Ledger
  import opened Concurrent
  import opened ObjectStore

  /** Keys named by committed evidence rows: two per row. */
  function NamedKeys(rows: seq<Evidence>): set<Key> {
    if rows == [] then {}
    else NamedKeys(rows[..|rows| - 1]) + {rows[|rows| - 1].originalKey, rows[|rows| - 1].watermarkedKey}
  }

  function SetOf(keys: seq<Key>): set<Key> { set k | k in keys }

  /** Objects a request has stored and not yet committed or deleted. */
  function Owns(p: Proc): set<Key> {
    match p
    case PutWatermarked(c, _) => {c.originalKey}
    case Ready(c, _) => {c.originalKey, c.watermarkedKey}
    case OutLocked(c, _, _, _, _) => {c.originalKey, c.watermarkedKey}
    case Undo(_, keys, _) => SetOf(keys)
    case _ => {}
  }

  predicate KeysDistinct(p: Proc) {
    match p
    case Ready(c, _) => c.originalKey != c.watermarkedKey
    case OutLocked(c, _, _, _, _) => c.originalKey != c.watermarkedKey
    case Undo(_, keys, _) => forall i, j :: 0 <= i < j < |keys| ==> keys[i] != keys[j]
    case _ => true
  }

  function Bucket(w: World): Store {
    Store(NamedKeys(w.db.evidence), seq(|w.procs|, n requires 0 <= n < |w.procs| => Owns(w.procs[n])), w.leaked, w.objects, w.used)
  }

  ghost predicate ObjectsOk(w: World) {
    Sound(Bucket(w)) && forall n :: 0 <= n < |w.procs| ==> KeysDistinct(w.procs[n])
  }

  lemma NamedAppend(rows: seq<Evidence>, e: Evidence)
    ensures NamedKeys(rows + [e]) == NamedKeys(rows) + {e.originalKey, e.watermarkedKey}
  {
    assert (rows + [e])[..|rows|] == rows;
  }

  lemma BucketAfterMove(w: World, n: nat, p: Proc, v: World)
    requires n < |w.procs| && v.procs == w.procs[n := p]
    ensures Bucket(v).flights == Bucket(w).flights[n := Owns(p)]
  {
  }

  /** Steps that touch neither the bucket nor the evidence table. */
  lemma QuietMove(w: World, n: nat, p: Proc, v: World)
    requires ObjectsOk(w) && n < |w.procs| && v.procs == w.procs[n := p]
    requires v.db.evidence == w.db.evidence && v.objects == w.objects && v.used == w.used && v.leaked == w.leaked
    requires Owns(p) == Owns(w.procs[n]) && KeysDistinct(p)
    ensures ObjectsOk(v)
  {
    BucketAfterMove(w, n, p, v);
    assert Bucket(w).flights[n := Owns(p)] == Bucket(w).flights;
    assert Bucket(v) == Bucket(w);
  }

  lemma PutMove(w: World, n: nat, key: Key, p: Proc)
    requires ObjectsOk(w) && n < |w.procs| && key !in w.used
    requires Owns(p) == Owns(w.procs[n]) + {key} && KeysDistinct(p)
    ensures ObjectsOk(Put(w, n, key, p))
  {
    var v := Put(w, n, key, p);
    BucketAfterMove(w, n, p, v);
    assert Bucket(v) == PutObject(Bucket(w), n, key);
    PutKeepsSound(Bucket(w), n, key);
  }

  lemma UndoMove(w: World, n: nat, c: Capture, keys: seq<Key>, next: Then, ok: bool, v: World)
    requires ObjectsOk(w) && n < |w.procs| && w.procs[n] == Undo(c, keys, next) && keys != []
    requires v == if ok then With(w, n, Undo(c, keys[1..], next)).(objects := w.objects - {keys[0]})
                  else With(w, n, Undo(c, keys[1..], next)).(leaked := w.leaked + {keys[0]})
    ensures ObjectsOk(v)
  {
    var p := Undo(c, keys[1..], next);
    assert KeysDistinct(w.procs[n]);
    assert SetOf(keys[1..]) == SetOf(keys) - {keys[0]} by {
      forall k | k in SetOf(keys) && k != keys[0] ensures k in keys[1..] {
        var m :| 0 <= m < |keys| && keys[m] == k;
        assert keys[1..][m - 1] == k;
      }
    }
    BucketAfterMove(w, n, p, v);
    assert keys[0] in SetOf(keys);
    assert Bucket(v) == DeleteObject(Bucket(w), n, keys[0], ok);
    DeleteKeepsSound(Bucket(w), n, keys[0], ok);
  }

  lemma CaptureCommit(w: World, n: nat, row: Evidence, p: Proc, v: World)
    requires ObjectsOk(w) && n < |w.procs| && v.procs == w.procs[n := p]
    requires Owns(w.procs[n]) == {row.originalKey, row.watermarkedKey} && Owns(p) == {} && KeysDistinct(p)
    requires v.db.evidence == w.db.evidence + [row]
    requires v.objects == w.objects && v.used == w.used && v.leaked == w.leaked
    ensures ObjectsOk(v)
  {
    NamedAppend(w.db.evidence, row);
    BucketAfterMove(w, n, p, v);
    assert Bucket(v) == NameKeys(Bucket(w), n);
    NameKeepsSound(Bucket(w), n);
  }

  lemma ToUndo(w: World, n: nat, c: Capture, next: Then)
    requires ObjectsOk(w) && n < |w.procs|
    requires (w.procs[n].Ready? && w.procs[n].c == c) || (w.procs[n].OutLocked? && w.procs[n].c == c)
    ensures ObjectsOk(With(w, n, Undo(c, BothKeys(c), next)))
  {
    assert KeysDistinct(w.procs[n]);
    QuietMove(w, n, Undo(c, BothKeys(c), next), With(w, n, Undo(c, BothKeys(c), next)));
  }

  lemma CaptureStep(cfg: Config, w: World, n: nat, ch: Choice)
    requires ObjectsOk(w) && n < |w.procs| && (w.procs[n].PutOriginal? || w.procs[n].PutWatermarked?)
    ensures ObjectsOk(MoveCapture(cfg, w, n, ch))
  {
    var v := MoveCapture(cfg, w, n, ch);
    if v != w {
      var p := v.procs[n];
      if ch.ok {
        if w.procs[n].PutWatermarked? {
          assert w.procs[n].c.originalKey in Bucket(w).flights[n];
          OwnedIsStored(Bucket(w), n, w.procs[n].c.originalKey);
        }
        PutMove(w, n, ch.key, p);
      } else {
        QuietMove(w, n, p, v);
      }
    }
  }

  lemma UndoStep(cfg: Config, w: World, n: nat, ch: Choice)
    requires ObjectsOk(w) && n < |w.procs| && w.procs[n].Undo?
    ensures ObjectsOk(MoveCapture(cfg, w, n, ch))
  {
    var Undo(c, keys, next) := w.procs[n];
    var v := MoveCapture(cfg, w, n, ch);
    if keys != [] {
      UndoMove(w, n, c, keys, next, ch.ok, v);
    } else {
      QuietMove(w, n, v.procs[n], v);
    }
  }

  lemma ReadyInStep(cfg: Config, w: World, n: nat, ch: Choice)
    requires ObjectsOk(w) && n < |w.procs| && w.procs[n].Ready? && w.procs[n].job.JobIn?
    ensures ObjectsOk(MoveCapture(cfg, w, n, ch))
  {
    var v := MoveCapture(cfg, w, n, ch);
    var c := w.procs[n].c;
    if v.procs[n].Undo? {
      ToUndo(w, n, c, v.procs[n].next);
    } else {
      assert KeysDistinct(w.procs[n]);
      CaptureCommit(w, n, EvidenceRow(c, |w.db.sessions|, TimeInAction), v.procs[n], v);
    }
  }

  lemma ReadyOutStep(cfg: Config, w: World, n: nat, ch: Choice)
    requires ObjectsOk(w) && n < |w.procs| && w.procs[n].Ready? && w.procs[n].job.JobOut?
    ensures ObjectsOk(MoveCapture(cfg, w, n, ch))
  {
    var v := MoveCapture(cfg, w, n, ch);
    if v != w {
      if v.procs[n].Undo? {
        ToUndo(w, n, w.procs[n].c, v.procs[n].next);
      } else {
        assert KeysDistinct(w.procs[n]);
        QuietMove(w, n, v.procs[n], v);
      }
    }
  }

  lemma LockedStep(cfg: Config, w: World, n: nat, ch: Choice)
    requires ObjectsOk(w) && n < |w.procs| && w.procs[n].OutLocked?
    ensures ObjectsOk(MoveOut(cfg, w, n, ch))
  {
    var v := MoveOut(cfg, w, n, ch);
    var c := w.procs[n].c;
    if v.procs[n].Undo? {
      ToUndo(w, n, c, v.procs[n].next);
    } else {
      CaptureCommit(w, n, EvidenceRow(c, w.procs[n].session, TimeOutAction), v.procs[n], v);
    }
  }

  /** Another program point that owns nothing, on the same bucket and evidence. */
  predicate Quiet(w: World, v: World, n: nat) {
    && n < |w.procs| && |v.procs| == |w.procs| && v.procs == w.procs[n := v.procs[n]]
    && v.db.evidence == w.db.evidence && v.objects == w.objects && v.used == w.used && v.leaked == w.leaked
    && Owns(v.procs[n]) == {} && KeysDistinct(v.procs[n])
  }

  lemma StandingStillIsQuiet(w: World, n: nat)
    requires n < |w.procs| && Owns(w.procs[n]) == {} && KeysDistinct(w.procs[n])
    ensures Quiet(w, w, n)
  {
    assert w.procs == w.procs[n := w.procs[n]];
  }

  /** Every other move leaves the bucket and the evidence alone. */
  lemma QuietStep(cfg: Config, w: World, n: nat, ch: Choice)
    requires ObjectsOk(w) && n < |w.procs|
    requires !w.procs[n].PutOriginal? && !w.procs[n].PutWatermarked? && !w.procs[n].Ready? && !w.procs[n].Undo? && !w.procs[n].OutLocked?
    ensures ObjectsOk(StepWorld(cfg, w, Move(n, ch)))
  {
    var v := StepWorld(cfg, w, Move(n, ch));
    QuietStepFacts(cfg, w, n, ch);
    QuietMove(w, n, v.procs[n], v);
  }

  lemma QuietStepFacts(cfg: Config, w: World, n: nat, ch: Choice)
    requires n < |w.procs|
    requires !w.procs[n].PutOriginal? && !w.procs[n].PutWatermarked? && !w.procs[n].Ready? && !w.procs[n].Undo? && !w.procs[n].OutLocked?
    ensures Quiet(w, StepWorld(cfg, w, Move(n, ch)), n)
  {
    match w.procs[n]
    case InBegin(_) => EnteringFacts(cfg, w, n, ch);
    case InSited(_, _) => EnteringFacts(cfg, w, n, ch);
    case OutBegin(_, _) => EnteringFacts(cfg, w, n, ch);
    case OutRead(_, _, _) => EnteringFacts(cfg, w, n, ch);
    case OutFresh(_, _) => EnteringFacts(cfg, w, n, ch);
    case Finished(_) => StandingStillIsQuiet(w, n);
    case DecideBegin(_, _) => DecideStepFacts(w, n, ch);
    case DecideHeld(_, _) => DecideStepFacts(w, n, ch);
    case DecideBoth(_, _, _, _) => DecideStepFacts(w, n, ch);
    case _ => RequestStepFacts(w, n, ch);
  }

  lemma EnteringFacts(cfg: Config, w: World, n: nat, ch: Choice)
    requires n < |w.procs|
    ensures w.procs[n].InBegin? || w.procs[n].InSited? ==> Quiet(w, MoveIn(cfg, w, n, ch), n)
    ensures w.procs[n].OutBegin? || w.procs[n].OutRead? || w.procs[n].OutFresh? ==> Quiet(w, MoveOut(cfg, w, n, ch), n)
  {
  }

  lemma DecideStepFacts(w: World, n: nat, ch: Choice)
    requires n < |w.procs| && (w.procs[n].DecideBegin? || w.procs[n].DecideHeld? || w.procs[n].DecideBoth?)
    ensures Quiet(w, MoveCorrection(w, n, ch), n)
  {
    StandingStillIsQuiet(w, n);
  }

  lemma RequestStepFacts(w: World, n: nat, ch: Choice)
    requires n < |w.procs| && Owns(w.procs[n]) == {} && KeysDistinct(w.procs[n])
    requires !w.procs[n].DecideBegin? && !w.procs[n].DecideHeld? && !w.procs[n].DecideBoth?
    ensures Quiet(w, MoveCorrection(w, n, ch), n)
  {
    StandingStillIsQuiet(w, n);
  }

  lemma JournalsKeepEvidence(cfg: Config, db: Db, e: Event)
    requires IsJournalEvent(e)
    ensures Apply(cfg, db, e).0.evidence == db.evidence
  {
  }

  lemma StepKeepsObjects(cfg: Config, w: World, l: Label)
    requires ObjectsOk(w)
    ensures ObjectsOk(StepWorld(cfg, w, l))
  {
    var v := StepWorld(cfg, w, l);
    match l
    case Arrive(p) =>
      if IsBegin(p) {
        assert Bucket(v) == Join(Bucket(w));
        JoinKeepsSound(Bucket(w));
      }
    case Direct(e) =>
      if IsJournalEvent(e) { JournalsKeepEvidence(cfg, w.db, e); }
      assert Bucket(v) == Bucket(w);
    case Move(n, ch) =>
      if n < |w.procs| {
        match w.procs[n]
        case PutOriginal(_, _) => CaptureStep(cfg, w, n, ch);
        case PutWatermarked(_, _) => CaptureStep(cfg, w, n, ch);
        case Ready(_, job) => if job.JobIn? { ReadyInStep(cfg, w, n, ch); } else { ReadyOutStep(cfg, w, n, ch); }
        case Undo(_, _, _) => UndoStep(cfg, w, n, ch);
        case OutLocked(_, _, _, _, _) => LockedStep(cfg, w, n, ch);
        case _ => QuietStep(cfg, w, n, ch);
      }
  }

  lemma {:induction false} ExecutionKeepsObjects(cfg: Config, db: Db, objects: set<Key>, ls: seq<Label>)
    requires objects == NamedKeys(db.evidence)
    ensures ObjectsOk(Execute(cfg, db, objects, ls))
  {
    if ls != [] {
      ExecutionKeepsObjects(cfg, db, objects, ls[..|ls| - 1]);
      StepKeepsObjects(cfg, Execute(cfg, db, objects, ls[..|ls| - 1]), ls[|ls| - 1]);
    }
  }

  lemma {:induction false} RowKeysAreNamed(rows: seq<Evidence>, k: nat)
    requires k < |rows|
    ensures rows[k].originalKey in NamedKeys(rows) && rows[k].watermarkedKey in NamedKeys(rows)
  {
    if k < |rows| - 1 { RowKeysAreNamed(rows[..|rows| - 1], k); }
  }

  lemma NothingElseAtRest(w: World)
    requires ObjectsOk(w) && w.leaked == {} && forall n :: 0 <= n < |w.procs| ==> w.procs[n].Finished?
    ensures w.objects == NamedKeys(w.db.evidence)
  {
    SoundMeansNoMissingNoOrphan(Bucket(w));
  }

  /** At every intermediate step of every interleaving, every committed evidence row
      finds both its objects. When every request has finished and no compensating
      delete failed, nothing else is stored. */
  lemma NoMissingPhotos(cfg: Config, db: Db, objects: set<Key>, ls: seq<Label>)
    requires objects == NamedKeys(db.evidence)
    ensures var w := Execute(cfg, db, objects, ls);
            && (forall k :: 0 <= k < |w.db.evidence| ==>
                  w.db.evidence[k].originalKey in w.objects && w.db.evidence[k].watermarkedKey in w.objects)
            && ((forall n :: 0 <= n < |w.procs| ==> w.procs[n].Finished?) && w.leaked == {} ==> w.objects == NamedKeys(w.db.evidence))
  {
    var w := Execute(cfg, db, objects, ls);
    ExecutionKeepsObjects(cfg, db, objects, ls);
    if (forall n :: 0 <= n < |w.procs| ==> w.procs[n].Finished?) && w.leaked == {} { NothingElseAtRest(w); }
    SoundMeansNoMissingNoOrphan(Bucket(w));
    forall k | 0 <= k < |w.db.evidence|
      ensures w.db.evidence[k].originalKey in w.objects && w.db.evidence[k].watermarkedKey in w.objects
    {
      RowKeysAreNamed(w.db.evidence, k);
    }
  }
}
