/** Supporting images of a journal, step by step: AddEvidence counts outside any
    lock, puts the object, then locks the journal and inserts; DeleteEvidence
    removes the row under the lock and the object afterwards. Every other ledger
    request may commit between two steps. */
module JournalPhotos {
  import opened Common
  import opened Schema
  import opened Ledger
  import opened ReviewCycle
  import opened ObjectStore

  const MAX_EVIDENCE_PER_JOURNAL := 5

  datatype Photo = Photo(id: Id, journal: Id, key: Key)

  datatype Answer = Added(id: Id) | Removed | Limit | Failed(error: Error)

  datatype PhotoProc =
    | AddBegin(journal: Id)
    | AddCounted(journal: Id)
    | AddStored(journal: Id, key: Key)
    | AddUndo(journal: Id, key: Key, error: Error)
    | DeleteBegin(journal: Id, id: Id)
    | DeleteRemoved(key: Key)
    | Answered(answer: Answer)

  datatype Gallery = Gallery(
    db: Db, rows: seq<Photo>, nextId: Id,
    objects: set<Key>, used: set<Key>, leaked: set<Key>, procs: seq<PhotoProc>)

  datatype Label = Arrive(proc: PhotoProc) | Move(index: nat, key: Key, ok: bool) | Direct(event: Event)

  function OfJournal(j: Id): Photo -> bool { (p: Photo) => p.journal == j }

  function WithId(j: Id, id: Id): Photo -> bool { (p: Photo) => p.journal == j && p.id == id }

  function With(g: Gallery, n: nat, p: PhotoProc): Gallery
    requires n < |g.procs|
  {
    g.(procs := g.procs[n := p])
  }

  /** lockEditable */
  function LockError(db: Db, j: Id): Option<Error> {
    if j >= |db.journals| then Some(NotFound)
    else if !Editable(db.journals[j].status) then Some(JournalNotEditable)
    else None
  }

  function Without(rows: seq<Photo>, k: nat): seq<Photo>
    requires k < |rows|
  {
    rows[..k] + rows[k + 1..]
  }

  function MoveAdd(g: Gallery, n: nat, key: Key, ok: bool): Gallery
    requires n < |g.procs|
  {
    match g.procs[n]
    case AddBegin(j) =>
      if Count(g.rows, OfJournal(j)) >= MAX_EVIDENCE_PER_JOURNAL then With(g, n, Answered(Limit))
      else With(g, n, AddCounted(j))
    case AddCounted(j) =>
      if !ok then With(g, n, Answered(Failed(StorageUnavailable)))
      else if key in g.used then g
      else With(g, n, AddStored(j, key)).(objects := g.objects + {key}, used := g.used + {key})
    case AddStored(j, k) =>
      var error := LockError(g.db, j);
      if error.Some? then With(g, n, AddUndo(j, k, error.value))
      else if !ok then With(g, n, AddUndo(j, k, Internal))
      else With(g, n, Answered(Added(g.nextId))).(rows := g.rows + [Photo(g.nextId, j, k)], nextId := g.nextId + 1)
    case AddUndo(_, k, error) =>
      var v := With(g, n, Answered(Failed(error)));
      if ok then v.(objects := g.objects - {k}) else v.(leaked := g.leaked + {k})
    case _ => g
  }

  function MoveDelete(g: Gallery, n: nat, ok: bool): Gallery
    requires n < |g.procs|
  {
    match g.procs[n]
    case DeleteBegin(j, id) =>
      var error := LockError(g.db, j);
      var k := Find(g.rows, WithId(j, id));
      if error.Some? then With(g, n, Answered(Failed(error.value)))
      else if k.None? then With(g, n, Answered(Failed(NotFound)))
      else if !ok then With(g, n, Answered(Failed(Internal)))
      else With(g, n, DeleteRemoved(g.rows[k.value].key)).(rows := Without(g.rows, k.value))
    case DeleteRemoved(k) =>
      if ok then With(g, n, Answered(Removed)).(objects := g.objects - {k})
      else With(g, n, Answered(Failed(Internal))).(leaked := g.leaked + {k})
    case _ => g
  }

  function StepGallery(cfg: Config, g: Gallery, l: Label): Gallery {
    match l
    case Arrive(p) => if p.AddBegin? || p.DeleteBegin? then g.(procs := g.procs + [p]) else g
    case Direct(e) => g.(db := Apply(cfg, g.db, e).0)
    case Move(n, key, ok) =>
      if n >= |g.procs| then g
      else if g.procs[n].DeleteBegin? || g.procs[n].DeleteRemoved? then MoveDelete(g, n, ok)
      else MoveAdd(g, n, key, ok)
  }

  function Execute(cfg: Config, start: Gallery, ls: seq<Label>): Gallery {
    if ls == [] then start else StepGallery(cfg, Execute(cfg, start, ls[..|ls| - 1]), ls[|ls| - 1])
  }

  // ---- At most 4 + k images ----

  function Adding(j: Id): PhotoProc -> bool {
    (p: PhotoProc) => (p.AddBegin? || p.AddCounted? || p.AddStored? || p.AddUndo?) && p.journal == j
  }

  function PastCheck(j: Id): PhotoProc -> bool {
    (p: PhotoProc) => (p.AddCounted? || p.AddStored?) && p.journal == j
  }

  function Committing(g: Gallery, j: Id): nat { Count(g.rows, OfJournal(j)) + Count(g.procs, PastCheck(j)) }

  /** At no point of the run are more than k AddEvidence requests of j in flight. */
  predicate AtMostInFlight(cfg: Config, start: Gallery, ls: seq<Label>, j: Id, k: nat) {
    && Count(Execute(cfg, start, ls).procs, Adding(j)) <= k
    && (ls != [] ==> AtMostInFlight(cfg, start, ls[..|ls| - 1], j, k))
  }

  lemma {:induction false} CountImplies<T>(s: seq<T>, p: T -> bool, q: T -> bool)
    requires forall x :: p(x) ==> q(x)
    ensures Count(s, p) <= Count(s, q)
  {
    if s != [] { CountImplies(s[..|s| - 1], p, q); }
  }

  lemma {:induction false} CountWithout(rows: seq<Photo>, k: nat, p: Photo -> bool)
    requires k < |rows|
    ensures Count(Without(rows, k), p) + (if p(rows[k]) then 1 else 0) == Count(rows, p)
  {
    var n := |rows| - 1;
    if k == n {
      assert Without(rows, k) == rows[..n];
    } else {
      var w := Without(rows, k);
      assert w[..|w| - 1] == Without(rows[..n], k) && w[|w| - 1] == rows[n];
      CountWithout(rows[..n], k, p);
    }
  }

  lemma CommittingStep(cfg: Config, g: Gallery, l: Label, j: Id)
    ensures var h := StepGallery(cfg, g, l);
            Committing(h, j) <= Committing(g, j) || Committing(h, j) <= 4 + Count(h.procs, Adding(j))
  {
    match l
    case Arrive(p) => CountAppend(g.procs, p, PastCheck(j));
    case Direct(e) =>
    case Move(n, key, ok) =>
      if n < |g.procs| {
        if g.procs[n].DeleteBegin? || g.procs[n].DeleteRemoved? { CommittingDelete(g, n, ok, j); }
        else { CommittingAdd(g, n, key, ok, j); }
      }
  }

  lemma CommittingAdd(g: Gallery, n: nat, key: Key, ok: bool, j: Id)
    requires n < |g.procs| && !g.procs[n].DeleteBegin? && !g.procs[n].DeleteRemoved?
    ensures var h := MoveAdd(g, n, key, ok);
            Committing(h, j) <= Committing(g, j) || Committing(h, j) <= 4 + Count(h.procs, Adding(j))
  {
    var h := MoveAdd(g, n, key, ok);
    if h != g {
      var p := h.procs[n];
      assert h.procs == g.procs[n := p];
      CountUpdate(g.procs, n, p, PastCheck(j));
      CountImplies(h.procs, PastCheck(j), Adding(j));
      if g.procs[n].AddStored? { CountAppend(g.rows, Photo(g.nextId, g.procs[n].journal, g.procs[n].key), OfJournal(j)); }
    }
  }

  lemma CommittingDelete(g: Gallery, n: nat, ok: bool, j: Id)
    requires n < |g.procs| && (g.procs[n].DeleteBegin? || g.procs[n].DeleteRemoved?)
    ensures Committing(MoveDelete(g, n, ok), j) <= Committing(g, j)
  {
    var h := MoveDelete(g, n, ok);
    var p := h.procs[n];
    assert h.procs == g.procs[n := p];
    CountUpdate(g.procs, n, p, PastCheck(j));
    if g.procs[n].DeleteBegin? {
      var k := Find(g.rows, WithId(g.procs[n].journal, g.procs[n].id));
      if k.Some? { CountWithout(g.rows, k.value, OfJournal(j)); }
    }
  }

  /** Although the limit is checked outside the lock, rows plus requests past the
      check never exceed 4 + k when at most k requests are in flight; with one
      request at a time a journal holds at most five images. */
  lemma {:induction false} ImagesBounded(cfg: Config, start: Gallery, ls: seq<Label>, j: Id, k: nat)
    requires Committing(start, j) <= 4 + k
    requires AtMostInFlight(cfg, start, ls, j, k)
    ensures Committing(Execute(cfg, start, ls), j) <= 4 + k
    ensures Count(Execute(cfg, start, ls).rows, OfJournal(j)) <= 4 + k
  {
    if ls != [] {
      ImagesBounded(cfg, start, ls[..|ls| - 1], j, k);
      CommittingStep(cfg, Execute(cfg, start, ls[..|ls| - 1]), ls[|ls| - 1], j);
    }
  }

  // ---- The bound is attained ----

  /** k requests arrive and pass the check on a journal with four images ... */
  function Checks(j: Id, k: nat): seq<Label> {
    if k == 0 then [] else Checks(j, k - 1) + [Arrive(AddBegin(j)), Move(k - 1, 0, true)]
  }

  /** ... and only then put their objects and commit. */
  function Commits(base: Key, m: nat): seq<Label> {
    if m == 0 then [] else Commits(base, m - 1) + [Move(m - 1, base + m - 1, true), Move(m - 1, 0, true)]
  }

  lemma ExecuteTwo(cfg: Config, start: Gallery, ls: seq<Label>, a: Label, b: Label)
    ensures Execute(cfg, start, ls + [a, b]) == StepGallery(cfg, StepGallery(cfg, Execute(cfg, start, ls), a), b)
  {
    assert (ls + [a, b])[..|ls| + 1] == ls + [a] && (ls + [a])[..|ls|] == ls;
  }

  lemma ArriveAndCheck(cfg: Config, g: Gallery, j: Id)
    requires Count(g.rows, OfJournal(j)) < MAX_EVIDENCE_PER_JOURNAL
    ensures StepGallery(cfg, StepGallery(cfg, g, Arrive(AddBegin(j))), Move(|g.procs|, 0, true)) == g.(procs := g.procs + [AddCounted(j)])
  {
    var h := g.(procs := g.procs + [AddBegin(j)]);
    assert MoveAdd(h, |g.procs|, 0, true).procs == g.procs + [AddCounted(j)];
  }

  lemma PutAndCommit(cfg: Config, g: Gallery, n: nat, j: Id, key: Key)
    requires n < |g.procs| && g.procs[n] == AddCounted(j) && LockError(g.db, j).None? && key !in g.used
    ensures var h := StepGallery(cfg, StepGallery(cfg, g, Move(n, key, true)), Move(n, 0, true));
            && h.db == g.db && h.used == g.used + {key} && h.rows == g.rows + [Photo(g.nextId, j, key)]
            && h.procs == g.procs[n := Answered(Added(g.nextId))]
  {
    var h := MoveAdd(g, n, key, true);
    assert h.procs[n] == AddStored(j, key);
    assert MoveAdd(h, n, 0, true).procs == g.procs[n := Answered(Added(g.nextId))];
  }

  /** k requests of one journal past their check. */
  function PastCheckTimes(j: Id, k: nat): (r: seq<PhotoProc>)
    ensures |r| == k && forall n :: 0 <= n < k ==> r[n] == AddCounted(j)
  {
    if k == 0 then [] else PastCheckTimes(j, k - 1) + [AddCounted(j)]
  }

  lemma {:induction false} ChecksPass(cfg: Config, start: Gallery, j: Id, k: nat)
    requires start.procs == [] && Count(start.rows, OfJournal(j)) == 4
    ensures Execute(cfg, start, Checks(j, k)) == start.(procs := PastCheckTimes(j, k))
  {
    if k > 0 {
      ChecksPass(cfg, start, j, k - 1);
      ExecuteTwo(cfg, start, Checks(j, k - 1), Arrive(AddBegin(j)), Move(k - 1, 0, true));
      ArriveAndCheck(cfg, Execute(cfg, start, Checks(j, k - 1)), j);
    }
  }

  ghost predicate Landed(g: Gallery, h: Gallery, j: Id, base: Key, k: nat, m: nat) {
    && h.db == g.db && |h.procs| == k && (forall n :: m <= n < k ==> h.procs[n] == AddCounted(j))
    && (forall key :: key in h.used ==> key < base + m)
    && Count(h.rows, OfJournal(j)) == Count(g.rows, OfJournal(j)) + m
  }

  lemma OneMoreLands(cfg: Config, g: Gallery, ls: seq<Label>, all: seq<Label>, j: Id, base: Key, k: nat, m: nat)
    requires m < k && LockError(g.db, j).None? && Landed(g, Execute(cfg, g, ls), j, base, k, m)
    requires all == ls + [Move(m, base + m, true), Move(m, 0, true)]
    ensures Landed(g, Execute(cfg, g, all), j, base, k, m + 1)
  {
    var h := Execute(cfg, g, ls);
    ExecuteTwo(cfg, g, ls, Move(m, base + m, true), Move(m, 0, true));
    PutAndCommit(cfg, h, m, j, base + m);
    CountAppend(h.rows, Photo(h.nextId, j, base + m), OfJournal(j));
  }

  lemma {:induction false} CommitsLand(cfg: Config, g: Gallery, ls: seq<Label>, j: Id, base: Key, k: nat, m: nat)
    requires m <= k && g.procs == PastCheckTimes(j, k) && LockError(g.db, j).None? && ls == Commits(base, m)
    requires forall key :: key in g.used ==> key < base
    ensures Landed(g, Execute(cfg, g, ls), j, base, k, m)
    decreases m
  {
    if m == 0 {
      NothingLanded(cfg, g, j, base, k, m);
    } else {
      var before := Commits(base, m - 1);
      CommitsLand(cfg, g, before, j, base, k, m - 1);
      OneMoreLands(cfg, g, before, ls, j, base, k, m - 1);
    }
  }

  lemma NothingLanded(cfg: Config, g: Gallery, j: Id, base: Key, k: nat, m: nat)
    requires m == 0 && g.procs == PastCheckTimes(j, k) && LockError(g.db, j).None?
    requires forall key :: key in g.used ==> key < base
    ensures Landed(g, Execute(cfg, g, Commits(base, m)), j, base, k, m)
  {
  }

  lemma {:induction false} ExecuteAfter(cfg: Config, start: Gallery, a: seq<Label>, b: seq<Label>)
    ensures Execute(cfg, start, a + b) == Execute(cfg, Execute(cfg, start, a), b)
  {
    if b == [] {
      assert a + b == a;
    } else {
      assert (a + b)[..|a + b| - 1] == a + b[..|b| - 1];
      ExecuteAfter(cfg, start, a, b[..|b| - 1]);
    }
  }

  lemma {:induction false} FewRequestsInFlight(cfg: Config, start: Gallery, ls: seq<Label>, j: Id, k: nat)
    requires |Execute(cfg, start, ls).procs| <= k
    ensures AtMostInFlight(cfg, start, ls, j, k)
  {
    CountAtMostLength(Execute(cfg, start, ls).procs, Adding(j));
    if ls != [] { FewRequestsInFlight(cfg, start, ls[..|ls| - 1], j, k); }
  }

  lemma {:induction false} CountAtMostLength<T>(s: seq<T>, p: T -> bool)
    ensures Count(s, p) <= |s|
  {
    if s != [] { CountAtMostLength(s[..|s| - 1], p); }
  }

  /** The bound is exact: on any editable journal with four images, k requests racing
      past the unlocked check leave 4 + k. */
  lemma LimitIsAttained(cfg: Config, start: Gallery, j: Id, base: Key, k: nat)
    requires start.procs == [] && LockError(start.db, j).None? && Count(start.rows, OfJournal(j)) == 4
    requires forall key :: key in start.used ==> key < base
    ensures exists ls :: AtMostInFlight(cfg, start, ls, j, k) && Count(Execute(cfg, start, ls).rows, OfJournal(j)) == 4 + k
  {
    var ls := Checks(j, k) + Commits(base, k);
    ExecuteAfter(cfg, start, Checks(j, k), Commits(base, k));
    ChecksPass(cfg, start, j, k);
    CommitsLand(cfg, Execute(cfg, start, Checks(j, k)), Commits(base, k), j, base, k, k);
    FewRequestsInFlight(cfg, start, ls, j, k);
  }

  // ---- Frozen between submit and review, and after `reviewed` ----

  predicate Frozen(g: Gallery, j: Id) {
    j < |g.db.journals| && g.db.journals[j].status in {Submitted, Reviewed}
  }

  /** The images of a journal, in order. */
  function PhotosOf(rows: seq<Photo>, j: Id): seq<Photo> {
    if rows == [] then []
    else
      var n := |rows| - 1;
      PhotosOf(rows[..n], j) + if rows[n].journal == j then [rows[n]] else []
  }

  lemma {:induction false} PhotosWithout(rows: seq<Photo>, k: nat, j: Id)
    requires k < |rows| && rows[k].journal != j
    ensures PhotosOf(Without(rows, k), j) == PhotosOf(rows, j)
  {
    var n := |rows| - 1;
    if k == n {
      assert Without(rows, k) == rows[..n];
    } else {
      var w := Without(rows, k);
      assert w[..|w| - 1] == Without(rows[..n], k) && w[|w| - 1] == rows[n];
      PhotosWithout(rows[..n], k, j);
    }
  }

  predicate RequestsRevision(l: Label, j: Id) {
    l.Direct? && l.event.ReviewJournal? && l.event.journal == j && l.event.decision == NeedsRevision
  }

  lemma LedgerKeepsFrozen(cfg: Config, db: Db, e: Event, j: Id)
    requires j < |db.journals| && db.journals[j].status in {Submitted, Reviewed}
    ensures var after := Apply(cfg, db, e).0;
            && j < |after.journals| && after.journals[j].narrative == db.journals[j].narrative
            && (db.journals[j].status == Reviewed ==> after.journals[j].status == Reviewed)
            && (!(e.ReviewJournal? && e.journal == j && e.decision == NeedsRevision) ==> after.journals[j].status in {Submitted, Reviewed})
  {
    match e
    case SaveDraft(_, _) =>
    case Submit(_, _) =>
    case ReviewJournal(_, _, _, _) =>
    case _ => OthersAppendDrafts(cfg, db, e);
  }

  lemma StepKeepsFrozen(cfg: Config, g: Gallery, l: Label, j: Id)
    requires Frozen(g, j)
    ensures var h := StepGallery(cfg, g, l);
            && j < |h.db.journals| && h.db.journals[j].narrative == g.db.journals[j].narrative
            && PhotosOf(h.rows, j) == PhotosOf(g.rows, j)
            && (g.db.journals[j].status == Reviewed ==> h.db.journals[j].status == Reviewed)
            && (!RequestsRevision(l, j) ==> Frozen(h, j))
  {
    match l
    case Arrive(_) =>
    case Direct(e) => LedgerKeepsFrozen(cfg, g.db, e, j);
    case Move(n, key, ok) =>
      if n < |g.procs| {
        if g.procs[n].DeleteBegin? || g.procs[n].DeleteRemoved? { DeleteKeepsFrozen(g, n, ok, j); }
        else { AddKeepsFrozen(g, n, key, ok, j); }
      }
  }

  lemma AddKeepsFrozen(g: Gallery, n: nat, key: Key, ok: bool, j: Id)
    requires Frozen(g, j) && n < |g.procs|
    ensures var h := MoveAdd(g, n, key, ok); h.db == g.db && PhotosOf(h.rows, j) == PhotosOf(g.rows, j)
  {
    if g.procs[n].AddStored? {
      var row := Photo(g.nextId, g.procs[n].journal, g.procs[n].key);
      assert (g.rows + [row])[..|g.rows|] == g.rows;
    }
  }

  lemma DeleteKeepsFrozen(g: Gallery, n: nat, ok: bool, j: Id)
    requires Frozen(g, j) && n < |g.procs|
    ensures var h := MoveDelete(g, n, ok); h.db == g.db && PhotosOf(h.rows, j) == PhotosOf(g.rows, j)
  {
    if g.procs[n].DeleteBegin? {
      var k := Find(g.rows, WithId(g.procs[n].journal, g.procs[n].id));
      if k.Some? && LockError(g.db, g.procs[n].journal).None? { PhotosWithout(g.rows, k.value, j); }
    }
  }

  /** From a submit until a review asks for revision, and forever after `reviewed`,
      neither the narrative nor the images change, under any interleaving. */
  lemma {:induction false} FrozenStaysFrozen(cfg: Config, g: Gallery, ls: seq<Label>, j: Id)
    requires Frozen(g, j)
    requires g.db.journals[j].status == Reviewed || forall m :: 0 <= m < |ls| ==> !RequestsRevision(ls[m], j)
    ensures var h := Execute(cfg, g, ls);
            && Frozen(h, j)
            && (g.db.journals[j].status == Reviewed ==> h.db.journals[j].status == Reviewed)
            && h.db.journals[j].narrative == g.db.journals[j].narrative
            && PhotosOf(h.rows, j) == PhotosOf(g.rows, j)
  {
    if ls != [] {
      var n := |ls| - 1;
      assert forall m :: 0 <= m < n ==> ls[..n][m] == ls[m];
      FrozenStaysFrozen(cfg, g, ls[..n], j);
      StepKeepsFrozen(cfg, Execute(cfg, g, ls[..n]), ls[n], j);
    }
  }

  // ---- Objects ----

  function NamedKeys(rows: seq<Photo>): set<Key> {
    if rows == [] then {} else NamedKeys(rows[..|rows| - 1]) + {rows[|rows| - 1].key}
  }

  ghost predicate DistinctKeys(rows: seq<Photo>) {
    forall i, k :: 0 <= i < k < |rows| ==> rows[i].key != rows[k].key
  }

  function Owns(p: PhotoProc): set<Key> {
    match p
    case AddStored(_, k) => {k}
    case AddUndo(_, k, _) => {k}
    case DeleteRemoved(k) => {k}
    case _ => {}
  }

  function Bucket(g: Gallery): Store {
    Store(NamedKeys(g.rows), seq(|g.procs|, n requires 0 <= n < |g.procs| => Owns(g.procs[n])), g.leaked, g.objects, g.used)
  }

  ghost predicate GalleryOk(g: Gallery) { Sound(Bucket(g)) && DistinctKeys(g.rows) }

  lemma {:induction false} NamedIff(rows: seq<Photo>, key: Key)
    ensures key in NamedKeys(rows) <==> exists k :: 0 <= k < |rows| && rows[k].key == key
  {
    if rows != [] {
      var n := |rows| - 1;
      NamedIff(rows[..n], key);
      assert forall k :: 0 <= k < n ==> rows[..n][k] == rows[k];
    }
  }

  lemma NamedWithout(rows: seq<Photo>, k: nat)
    requires k < |rows| && DistinctKeys(rows)
    ensures NamedKeys(Without(rows, k)) == NamedKeys(rows) - {rows[k].key}
    ensures DistinctKeys(Without(rows, k)) && rows[k].key in NamedKeys(rows)
  {
    var w := Without(rows, k);
    NamedIff(rows, rows[k].key);
    forall key ensures key in NamedKeys(w) <==> key in NamedKeys(rows) && key != rows[k].key {
      RowLeft(rows, k, key);
      NamedIff(w, key);
      NamedIff(rows, key);
    }
    StillDistinct(rows, k);
  }

  lemma StillDistinct(rows: seq<Photo>, k: nat)
    requires k < |rows| && DistinctKeys(rows)
    ensures DistinctKeys(Without(rows, k))
  {
    var w := Without(rows, k);
    forall i, m | 0 <= i < m < |w| ensures w[i].key != w[m].key {
      assert w[i] == rows[if i < k then i else i + 1] && w[m] == rows[if m < k then m else m + 1];
    }
  }

  lemma RowLeft(rows: seq<Photo>, k: nat, key: Key)
    requires k < |rows| && DistinctKeys(rows)
    ensures var w := Without(rows, k);
            (exists m :: 0 <= m < |w| && w[m].key == key) <==> (exists m :: 0 <= m < |rows| && rows[m].key == key) && key != rows[k].key
  {
    var w := Without(rows, k);
    if m :| 0 <= m < |w| && w[m].key == key {
      assert rows[if m < k then m else m + 1] == w[m];
    }
    if m :| 0 <= m < |rows| && rows[m].key == key && m != k {
      assert w[if m < k then m else m - 1] == rows[m];
    }
  }

  lemma AddMoveKeeps(g: Gallery, n: nat, key: Key, ok: bool)
    requires GalleryOk(g) && n < |g.procs|
    ensures GalleryOk(MoveAdd(g, n, key, ok))
  {
    var h := MoveAdd(g, n, key, ok);
    var b := Bucket(g);
    assert Bucket(h).flights == b.flights[n := Owns(h.procs[n])];
    match g.procs[n]
    case AddCounted(j) =>
      if ok && key !in g.used {
        PutKeepsSound(b, n, key);
        assert b.flights[n] + {key} == {key};
        assert Bucket(h) == PutObject(b, n, key);
      } else {
        assert Bucket(h) == b;
      }
    case AddStored(j, k) =>
      if h.procs[n].Answered? {
        var row := Photo(g.nextId, j, k);
        assert (g.rows + [row])[..|g.rows|] == g.rows;
        assert k in b.flights[n];
        NamedIff(g.rows, k);
        NameKeepsSound(b, n);
        assert Bucket(h) == NameKeys(b, n);
      } else {
        assert Bucket(h) == b;
      }
    case AddUndo(_, k, _) =>
      DeleteKeepsSound(b, n, k, ok);
      assert b.flights[n] - {k} == {};
      assert Bucket(h) == DeleteObject(b, n, k, ok);
    case _ => assert Bucket(h) == b;
  }

  lemma DeleteMoveKeeps(g: Gallery, n: nat, ok: bool)
    requires GalleryOk(g) && n < |g.procs|
    ensures GalleryOk(MoveDelete(g, n, ok))
  {
    var h := MoveDelete(g, n, ok);
    var b := Bucket(g);
    assert Bucket(h).flights == b.flights[n := Owns(h.procs[n])];
    match g.procs[n]
    case DeleteBegin(j, id) =>
      if h.procs[n].DeleteRemoved? {
        var k := Find(g.rows, WithId(j, id)).value;
        NamedWithout(g.rows, k);
        UnnameKeepsSound(b, n, g.rows[k].key);
        assert b.flights[n] + {g.rows[k].key} == {g.rows[k].key};
        assert Bucket(h) == UnnameKey(b, n, g.rows[k].key);
      } else {
        assert Bucket(h) == b;
      }
    case DeleteRemoved(k) =>
      DeleteKeepsSound(b, n, k, ok);
      assert b.flights[n] - {k} == {};
      assert Bucket(h) == DeleteObject(b, n, k, ok);
    case _ => assert Bucket(h) == b;
  }

  lemma {:induction false} ExecutionKeepsGallery(cfg: Config, start: Gallery, ls: seq<Label>)
    requires GalleryOk(start)
    ensures GalleryOk(Execute(cfg, start, ls))
  {
    if ls != [] {
      ExecutionKeepsGallery(cfg, start, ls[..|ls| - 1]);
      var g := Execute(cfg, start, ls[..|ls| - 1]);
      match ls[|ls| - 1]
      case Arrive(p) =>
        if p.AddBegin? || p.DeleteBegin? {
          JoinKeepsSound(Bucket(g));
          assert Bucket(g.(procs := g.procs + [p])) == Join(Bucket(g));
        }
      case Direct(e) => assert Bucket(g.(db := Apply(cfg, g.db, e).0)) == Bucket(g);
      case Move(n, key, ok) =>
        if n < |g.procs| {
          if g.procs[n].DeleteBegin? || g.procs[n].DeleteRemoved? { DeleteMoveKeeps(g, n, ok); } else { AddMoveKeeps(g, n, key, ok); }
        }
    }
  }

  /** No image row ever names a missing object; with nothing in flight and no failed
      delete, the stored images are exactly those the rows name. */
  lemma NoMissingImages(cfg: Config, start: Gallery, ls: seq<Label>)
    requires start.procs == [] && start.leaked == {} && start.used == start.objects == NamedKeys(start.rows) && DistinctKeys(start.rows)
    ensures var g := Execute(cfg, start, ls);
            && (forall k :: 0 <= k < |g.rows| ==> g.rows[k].key in g.objects)
            && ((forall n :: 0 <= n < |g.procs| ==> g.procs[n].Answered?) && g.leaked == {} ==> g.objects == NamedKeys(g.rows))
  {
    ExecutionKeepsGallery(cfg, start, ls);
    var g := Execute(cfg, start, ls);
    SoundMeansNoMissingNoOrphan(Bucket(g));
    forall k | 0 <= k < |g.rows| ensures g.rows[k].key in g.objects {
      NamedIff(g.rows, g.rows[k].key);
    }
  }
}
