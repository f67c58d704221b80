/** AddEvidence and DeleteEvidence as they run when nothing interrupts them, proved
    to take exactly the steps that JournalPhotos interleaves. */
module PhotoService {
  import opened Common
  import opened Schema
  import opened Ledger
  import opened JournalPhotos
  import opened Bucket

  /** Four moves of one AddEvidence in a row; an answered request stays put. */
  function AddAlone(g: Gallery, key: Key, puts: bool, commits: bool, deletes: bool): Gallery
    requires |g.procs| == 1
  {
    MoveAdd(MoveAdd(MoveAdd(MoveAdd(g, 0, key, true), 0, key, puts), 0, key, commits), 0, key, deletes)
  }

  function DeleteAlone(g: Gallery, commits: bool, deletes: bool): Gallery
    requires |g.procs| == 1
  {
    MoveDelete(MoveDelete(g, 0, commits), 0, deletes)
  }

  /** What the four moves come to. */
  lemma AddAloneDoes(g: Gallery, j: Id, key: Key, puts: bool, commits: bool, deletes: bool)
    requires g.procs == [AddBegin(j)] && g.used == g.objects && key !in g.objects
    ensures var h := AddAlone(g, key, puts, commits, deletes);
            var error := LockError(g.db, j);
      && |h.procs| == 1
      && (if Count(g.rows, OfJournal(j)) >= MAX_EVIDENCE_PER_JOURNAL then
            h.procs[0] == Answered(Limit) && h.rows == g.rows && h.nextId == g.nextId && h.objects == g.objects
          else if !puts then
            h.procs[0] == Answered(Failed(StorageUnavailable)) && h.rows == g.rows && h.nextId == g.nextId && h.objects == g.objects
          else if error.Some? || !commits then
            && h.procs[0] == Answered(Failed(error.GetOr(Internal))) && h.rows == g.rows && h.nextId == g.nextId
            && h.objects == (g.objects + {key}) - (if deletes then {key} else {})
          else
            && h.procs[0] == Answered(Added(g.nextId)) && h.rows == g.rows + [Photo(g.nextId, j, key)]
            && h.nextId == g.nextId + 1 && h.objects == g.objects + {key})
  {
    var g1 := MoveAdd(g, 0, key, true);
    var g2 := MoveAdd(g1, 0, key, puts);
    if Count(g.rows, OfJournal(j)) < MAX_EVIDENCE_PER_JOURNAL && puts { AddStoredDoes(g2, j, key, commits, deletes); }
  }

  lemma AddStoredDoes(g: Gallery, j: Id, key: Key, commits: bool, deletes: bool)
    requires g.procs == [AddStored(j, key)]
    ensures var h := MoveAdd(MoveAdd(g, 0, key, commits), 0, key, deletes);
            var error := LockError(g.db, j);
      && |h.procs| == 1
      && (if error.Some? || !commits then
            && h.procs[0] == Answered(Failed(error.GetOr(Internal))) && h.rows == g.rows && h.nextId == g.nextId
            && h.objects == g.objects - (if deletes then {key} else {})
          else
            && h.procs[0] == Answered(Added(g.nextId)) && h.rows == g.rows + [Photo(g.nextId, j, key)]
            && h.nextId == g.nextId + 1 && h.objects == g.objects)
  {
  }

  lemma DeleteAloneDoes(g: Gallery, j: Id, id: Id, commits: bool, deletes: bool)
    requires g.procs == [DeleteBegin(j, id)]
    ensures var h := DeleteAlone(g, commits, deletes);
            var failed := DeleteError(g.db, g.rows, j, id, commits);
      && h.nextId == g.nextId
      && (if failed.Some? then h.procs == [Answered(Failed(failed.value))] && h.rows == g.rows && h.objects == g.objects
          else
            var k := Find(g.rows, WithId(j, id)).value;
            && h.procs == [Answered(if deletes then Removed else Failed(Internal))] && h.rows == Without(g.rows, k)
            && h.objects == if deletes then g.objects - {g.rows[k].key} else g.objects)
  {
  }

  /** Why the transaction of DeleteEvidence leaves the rows alone. */
  function DeleteError(db: Db, rows: seq<Photo>, j: Id, id: Id, commits: bool): (r: Option<Error>)
    ensures r.None? ==> Find(rows, WithId(j, id)).Some?
  {
    if LockError(db, j).Some? then LockError(db, j)
    else if Find(rows, WithId(j, id)).None? then Some(NotFound)
    else if !commits then Some(Internal) else None
  }

  /** The row is image id of journal j. */
  predicate Shows(p: Photo, j: Id, id: Id) { p.id == id && p.journal == j }

  ghost predicate Shown(rows: seq<Photo>, j: Id, id: Id) { exists k :: 0 <= k < |rows| && Shows(rows[k], j, id) }

  /** One row that shows the image is gone, and its object if the delete went through. */
  ghost predicate Dropped(before: seq<Photo>, rows: seq<Photo>, objects: set<Key>, left: set<Key>, j: Id, id: Id, deletes: bool) {
    exists k ::
      && 0 <= k < |before| && Shows(before[k], j, id) && rows == before[..k] + before[k + 1..]
      && left == if deletes then objects - {before[k].key} else objects
  }

  lemma ShownIsFound(rows: seq<Photo>, j: Id, id: Id)
    ensures Shown(rows, j, id) <==> Find(rows, WithId(j, id)).Some?
  {
    var k := Find(rows, WithId(j, id));
    if k.Some? { assert WithId(j, id)(rows[k.value]) && Shows(rows[k.value], j, id); }
    if m :| 0 <= m < |rows| && Shows(rows[m], j, id) { assert WithId(j, id)(rows[m]); }
  }

  lemma DropsTheShown(rows: seq<Photo>, objects: set<Key>, j: Id, id: Id, deletes: bool)
    requires Find(rows, WithId(j, id)).Some?
    ensures var k := Find(rows, WithId(j, id)).value;
      && Dropped(rows, Without(rows, k), objects, if deletes then objects - {rows[k].key} else objects, j, id, deletes)
      && Count(Without(rows, k), OfJournal(j)) == Count(rows, OfJournal(j)) - 1
  {
    var k := Find(rows, WithId(j, id)).value;
    assert WithId(j, id)(rows[k]) && Shows(rows[k], j, id);
    CountWithout(rows, k, OfJournal(j));
  }

  class JournalImages {
    const bucket: PhotoBucket
    var rows: seq<Photo>
    var nextId: Id

    constructor (bucket: PhotoBucket)
      ensures this.bucket == bucket && rows == [] && nextId == 0
    {
      this.bucket, rows, nextId := bucket, [], 0;
    }

    /** The state as the step model sees it, with one request about to start. */
    function Starting(db: Db, p: PhotoProc): Gallery
      reads this, bucket
    {
      Gallery(db, rows, nextId, bucket.objects, bucket.objects, {}, [p])
    }

    /** lockEditable, inside a transaction. */
    method LockEditable(db: Db, j: Id) returns (error: Option<Error>)
      ensures error == LockError(db, j)
    {
      if j >= |db.journals| { return Some(NotFound); }
      if !Editable(db.journals[j].status) { return Some(JournalNotEditable); }
      return None;
    }

    method InsertImage(db: Db, j: Id, key: Key, commits: bool) returns (r: Answer)
      modifies this
      ensures LockError(db, j).Some? ==> r == Failed(LockError(db, j).value)
      ensures LockError(db, j).None? && !commits ==> r == Failed(Internal)
      ensures LockError(db, j).None? && commits ==>
        r == Added(old(nextId)) && rows == old(rows) + [Photo(old(nextId), j, key)] && nextId == old(nextId) + 1
      ensures r.Failed? ==> rows == old(rows) && nextId == old(nextId)
    {
      var error := LockEditable(db, j);
      if error.Some? { return Failed(error.value); }
      if !commits { return Failed(Internal); }
      r := Added(nextId);
      rows := rows + [Photo(nextId, j, key)];
      nextId := nextId + 1;
    }

    /** Count, put, insert under the lock, and take the object back if that failed. */
    method AddEvidence(db: Db, j: Id, key: Key, puts: bool, commits: bool, deletes: bool) returns (r: Answer)
      requires key !in bucket.objects
      modifies this, bucket
      ensures var g := AddAlone(old(Starting(db, AddBegin(j))), key, puts, commits, deletes);
        && rows == g.rows && nextId == g.nextId && bucket.objects == g.objects && g.procs == [Answered(r)]
      ensures var room := Count(old(rows), OfJournal(j)) < 5;
              var open := j < |db.journals| && (db.journals[j].status == Draft || db.journals[j].status == NeedsRevision);
        && (r == Limit <==> !room)
        && (r == Failed(StorageUnavailable) <==> room && !puts)
        && (r == Failed(NotFound) <==> room && puts && j >= |db.journals|)
        && (r == Failed(JournalNotEditable) <==> room && puts && j < |db.journals| && !open)
        && (r == Failed(Internal) <==> room && puts && open && !commits)
        && (r == Added(old(nextId)) <==> room && puts && open && commits)
      ensures r.Added? ==> rows == old(rows) + [Photo(old(nextId), j, key)] && Count(rows, OfJournal(j)) <= 5
                           && nextId == old(nextId) + 1 && bucket.objects == old(bucket.objects) + {key}
      ensures !r.Added? ==> rows == old(rows) && nextId == old(nextId) && (deletes ==> bucket.objects == old(bucket.objects))
    {
      AddAloneDoes(Starting(db, AddBegin(j)), j, key, puts, commits, deletes);
      var count := Count(rows, OfJournal(j));
      if count >= MAX_EVIDENCE_PER_JOURNAL { return Limit; }
      var stored := bucket.Put(key, puts);
      if !stored { return Failed(StorageUnavailable); }
      CountAppend(rows, Photo(nextId, j, key), OfJournal(j));
      r := InsertImage(db, j, key, commits);
      if r.Failed? { var _ := bucket.Delete(key, deletes); }
    }

    /** The transaction of DeleteEvidence: the row under the lock, and the key it named. */
    method DeleteRow(db: Db, j: Id, id: Id, commits: bool) returns (failed: Option<Error>, key: Key)
      modifies this`rows
      ensures failed == DeleteError(db, old(rows), j, id, commits)
      ensures failed.Some? ==> rows == old(rows)
      ensures failed.None? ==> var k := Find(old(rows), WithId(j, id)).value;
        key == old(rows)[k].key && rows == Without(old(rows), k)
    {
      key := 0;
      failed := LockEditable(db, j);
      if failed.Some? { return; }
      var k := Find(rows, WithId(j, id));
      if k.None? { return Some(NotFound), 0; }
      if !commits { return Some(Internal), 0; }
      key := rows[k.value].key;
      rows := rows[..k.value] + rows[k.value + 1..];
    }

    /** The row goes first, under the lock; the object afterwards. */
    method DeleteEvidence(db: Db, j: Id, id: Id, commits: bool, deletes: bool) returns (r: Answer)
      modifies this, bucket
      ensures var g := DeleteAlone(old(Starting(db, DeleteBegin(j, id))), commits, deletes);
        && rows == g.rows && nextId == g.nextId && bucket.objects == g.objects && g.procs == [Answered(r)]
      ensures var open := j < |db.journals| && (db.journals[j].status == Draft || db.journals[j].status == NeedsRevision);
              var there := Shown(old(rows), j, id);
        && (r == Failed(NotFound) <==> j >= |db.journals| || (open && !there))
        && (r == Failed(JournalNotEditable) <==> j < |db.journals| && !open)
        && (r == Removed <==> open && there && commits && deletes)
        && (r == Failed(Internal) <==> open && there && !(commits && deletes))
        && (open && there && commits ==> Dropped(old(rows), rows, old(bucket.objects), bucket.objects, j, id, deletes))
        && (!(open && there && commits) ==> rows == old(rows) && bucket.objects == old(bucket.objects))
      ensures r == Removed ==> Count(rows, OfJournal(j)) == Count(old(rows), OfJournal(j)) - 1
    {
      ghost var before, objects := rows, bucket.objects;
      DeleteAloneDoes(Starting(db, DeleteBegin(j, id)), j, id, commits, deletes);
      var failed, key := DeleteRow(db, j, id, commits);
      ShownIsFound(before, j, id);
      if failed.Some? { return Failed(failed.value); }
      var ok := bucket.Delete(key, deletes);
      DropsTheShown(before, objects, j, id, deletes);
      return if ok then Removed else Failed(Internal);
    }
  }
}
