/** The same requests split into the steps the handlers really take: unlocked
    reads, two object-store puts, the row lock and re-read, commit or abort, and the
    compensating deletes. Any number of requests are in flight; a step label says
    which one moves and what the environment answered. */
module Concurrent {
  import opened Common
  import opened Hours
  import opened Schema
  import opened Ledger

  /** What a capture request writes once its photos are stored. The break rule of a
      Time Out was read together with its site, before the row lock. */
  datatype Job = JobIn(assignment: Id) | JobOut(session: Id, rule: BreakRule)

  /** What follows the compensating deletes. */
  datatype Then = Stop(error: Error) | LookupIn | LookupOut(session: Id)

  datatype Proc =
    | InBegin(c: Capture)
    | InSited(c: Capture, assignment: Id)
    | OutBegin(c: Capture, session: Id)
    | OutRead(c: Capture, session: Id, status: Status)
    | OutFresh(c: Capture, session: Id)
    | PutOriginal(c: Capture, job: Job)
    | PutWatermarked(c: Capture, job: Job)
    | Ready(c: Capture, job: Job)
    | OutLocked(c: Capture, session: Id, rule: BreakRule, curIn: Time, curFlags: seq<Flag>)
    | Undo(c: Capture, keys: seq<Key>, next: Then)
    | DecideBegin(correction: Id, verdict: Verdict)
    | DecideHeld(correction: Id, verdict: Verdict)
    | DecideBoth(correction: Id, session: Id, curIn: Time, curOut: Option<Time>)
    | RequestBegin(p: Proposal)
    | RequestRead(p: Proposal)
    | RequestReady(p: Proposal)
    | Finished(outcome: Outcome)

  /** A committed transaction: the request that ran it, if it was one of the
      step-by-step requests, and what it did. */
  datatype Entry = Entry(proc: Option<nat>, event: Event)

  /** leaked: keys whose compensating delete failed. used: every key ever generated.
      asked: what each request was when it arrived. */
  datatype World = World(
    db: Db, objects: set<Key>, used: set<Key>, leaked: set<Key>,
    procs: seq<Proc>, asked: seq<Proc>, log: seq<Entry>)

  /** The environment's part of a step: the clock, a generated object key, and
      whether the storage call or the transaction went through. */
  datatype Choice = Choice(now: Time, key: Key, ok: bool)

  datatype Label =
    | Arrive(proc: Proc)
    | Move(index: nat, choice: Choice)
    | Direct(event: Event)

  function SessionHeld(p: Proc): Option<Id> {
    match p
    case OutLocked(_, i, _, _, _) => Some(i)
    case DecideBoth(_, i, _, _) => Some(i)
    case _ => None
  }

  function CorrectionHeld(p: Proc): Option<Id> {
    match p
    case DecideHeld(k, _) => Some(k)
    case DecideBoth(k, _, _, _) => Some(k)
    case _ => None
  }

  function HoldsSession(i: Id): Proc -> bool { (p: Proc) => SessionHeld(p) == Some(i) }

  function HoldsCorrection(k: Id): Proc -> bool { (p: Proc) => CorrectionHeld(p) == Some(k) }

  function With(w: World, n: nat, p: Proc): World
    requires n < |w.procs|
  {
    w.(procs := w.procs[n := p])
  }

  function Refuse(w: World, n: nat, e: Error): World
    requires n < |w.procs|
  {
    With(w, n, Finished(Refused(e)))
  }

  function Commit(w: World, n: nat, db: Db, e: Event, o: Outcome): World
    requires n < |w.procs|
  {
    With(w, n, Finished(o)).(db := db, log := w.log + [Entry(Some(n), e)])
  }

  function BothKeys(c: Capture): seq<Key> { [c.originalKey, c.watermarkedKey] }

  function Put(w: World, n: nat, key: Key, p: Proc): World
    requires n < |w.procs|
  {
    With(w, n, p).(objects := w.objects + {key}, used := w.used + {key})
  }

  function MoveIn(cfg: Config, w: World, n: nat, ch: Choice): World
    requires n < |w.procs|
  {
    match w.procs[n]
    case InBegin(c) =>
      var site := ActiveSite(w.db, c.trainee, cfg.localDate(ch.now));
      if site.None? then Refuse(w, n, NoActiveAssignment)
      else With(w, n, InSited(c.(now := ch.now), site.value))
    case InSited(c, a) =>
      var replay := FindReplay(w.db, c.trainee, c.clientAction);
      if replay.Some? then With(w, n, Finished(Replayed(replay.value)))
      else if MissingReason(c) then Refuse(w, n, LocationReasonRequired)
      else With(w, n, PutOriginal(c, JobIn(a)))
    case _ => w
  }

  function MoveOut(cfg: Config, w: World, n: nat, ch: Choice): World
    requires n < |w.procs|
  {
    match w.procs[n]
    case OutBegin(c, i) =>
      if i >= |w.db.sessions| || w.db.sessions[i].trainee != c.trainee then Refuse(w, n, AttendanceNotFound)
      else With(w, n, OutRead(c, i, w.db.sessions[i].status))
    case OutRead(c, i, status) =>
      if ReplaysTimeOut(w.db, c.trainee, c.clientAction, i) then With(w, n, Finished(Replayed(i)))
      else if status != Open then Refuse(w, n, AttendanceNotOpen)
      else With(w, n, OutFresh(c, i))
    case OutFresh(c, i) =>
      if i >= |w.db.sessions| then Refuse(w, n, Internal)
      else if MissingReason(c) then Refuse(w, n, LocationReasonRequired)
      else With(w, n, PutOriginal(c.(now := ch.now), JobOut(i, RuleOf(w.db, i))))
    case OutLocked(c, i, rule, curIn, curFlags) =>
      if !ch.ok || i >= |w.db.sessions| then With(w, n, Undo(c, BothKeys(c), Stop(Internal)))
      else
        var (db, o) := InsertTimeOut(cfg, w.db, c, i, curIn, curFlags, rule);
        if o.Created? then Commit(w, n, db, TimeOut(c, i), o)
        else With(w, n, Undo(c, BothKeys(c),
          if Find(w.db.evidence, WithAction(c.trainee, c.clientAction)).Some? then LookupOut(i) else Stop(Internal)))
    case _ => w
  }

  /** The steps Time In and Time Out share: StoreEvidence, the insert or the row
      lock, and Cleanup. */
  function MoveCapture(cfg: Config, w: World, n: nat, ch: Choice): World
    requires n < |w.procs|
  {
    match w.procs[n]
    case PutOriginal(c, job) =>
      if !ch.ok then Refuse(w, n, StorageUnavailable)
      else if ch.key in w.used then w
      else Put(w, n, ch.key, PutWatermarked(c.(originalKey := ch.key), job))
    case PutWatermarked(c, job) =>
      if !ch.ok then With(w, n, Undo(c, [c.originalKey], Stop(StorageUnavailable)))
      else if ch.key in w.used then w
      else Put(w, n, ch.key, Ready(c.(watermarkedKey := ch.key), job))
    case Ready(c, JobIn(a)) =>
      if !ch.ok then With(w, n, Undo(c, BothKeys(c), Stop(Internal)))
      else
        var (db, o) := InsertTimeIn(w.db, c, a, cfg.localDate(c.now));
        if o.Created? then Commit(w, n, db, TimeIn(c), o)
        else With(w, n, Undo(c, BothKeys(c), if o == Refused(AttendanceExistsToday) then Stop(AttendanceExistsToday) else LookupIn))
    case Ready(c, JobOut(i, rule)) =>
      if Find(w.procs, HoldsSession(i)).Some? then w
      else if !ch.ok || i >= |w.db.sessions| then With(w, n, Undo(c, BothKeys(c), Stop(Internal)))
      else if w.db.sessions[i].status != Open then With(w, n, Undo(c, BothKeys(c), Stop(AttendanceNotOpen)))
      else With(w, n, OutLocked(c, i, rule, w.db.sessions[i].effectiveIn, w.db.sessions[i].flags))
    case Undo(c, keys, next) =>
      if keys != [] then
        var v := With(w, n, Undo(c, keys[1..], next));
        if ch.ok then v.(objects := w.objects - {keys[0]}) else v.(leaked := w.leaked + {keys[0]})
      else (
        match next
        case Stop(e) => Refuse(w, n, e)
        case LookupIn =>
          var replay := FindReplay(w.db, c.trainee, c.clientAction);
          if replay.Some? then With(w, n, Finished(Replayed(replay.value))) else Refuse(w, n, Internal)
        case LookupOut(i) =>
          if ReplaysTimeOut(w.db, c.trainee, c.clientAction, i) then With(w, n, Finished(Replayed(i)))
          else Refuse(w, n, Internal))
    case _ => w
  }

  function MoveCorrection(w: World, n: nat, ch: Choice): World
    requires n < |w.procs|
  {
    match w.procs[n]
    case DecideBegin(k, verdict) =>
      if verdict == UnknownVerdict then Refuse(w, n, Validation)
      else if k >= |w.db.corrections| then Refuse(w, n, NotFound)
      else if Find(w.procs, HoldsCorrection(k)).Some? then w
      else if w.db.corrections[k].status != Pending then Refuse(w, n, CorrectionNotPending)
      else With(w, n, DecideHeld(k, verdict))
    case DecideHeld(k, verdict) =>
      if !ch.ok || k >= |w.db.corrections| || w.db.corrections[k].attendance >= |w.db.sessions| then Refuse(w, n, Internal)
      else if verdict != Approve then Commit(w, n, RejectRow(w.db, k), Decide(k, Reject, ch.now), Done)
      else
        var i := w.db.corrections[k].attendance;
        if Find(w.procs, HoldsSession(i)).Some? then w
        else With(w, n, DecideBoth(k, i, w.db.sessions[i].effectiveIn, w.db.sessions[i].effectiveOut))
    case DecideBoth(k, i, curIn, curOut) =>
      if !ch.ok || k >= |w.db.corrections| || w.db.corrections[k].attendance >= |w.db.sessions| || i >= |w.db.sessions|
      then Refuse(w, n, Internal)
      else
        var (db, o) := ApproveWith(w.db, k, curIn, curOut, RuleOf(w.db, i), ch.now);
        if o.Done? then Commit(w, n, db, Decide(k, Approve, ch.now), o) else With(w, n, Finished(o))
    case RequestBegin(p) =>
      if p.session >= |w.db.sessions| || w.db.sessions[p.session].trainee != p.trainee then Refuse(w, n, NotFound)
      else With(w, n, RequestRead(p.(seenIn := w.db.sessions[p.session].effectiveIn)))
    case RequestRead(p) =>
      var error := ValidateProposal(p.(now := ch.now));
      if error.Some? then Refuse(w, n, error.value) else With(w, n, RequestReady(p.(now := ch.now)))
    case RequestReady(p) =>
      if !ch.ok then Refuse(w, n, Internal)
      else
        var (db, o) := InsertRequest(w.db, p);
        if o.Created? then Commit(w, n, db, Request(p), o) else With(w, n, Finished(o))
    case _ => w
  }

  predicate IsBegin(p: Proc) { p.InBegin? || p.OutBegin? || p.DecideBegin? || p.RequestBegin? }

  /** Journal requests are a single guarded statement or one locked transaction. */
  predicate IsJournalEvent(e: Event) { e.SaveDraft? || e.Submit? || e.ReviewJournal? }

  function StepWorld(cfg: Config, w: World, l: Label): World {
    match l
    case Arrive(p) => if IsBegin(p) then w.(procs := w.procs + [p], asked := w.asked + [p]) else w
    case Move(n, ch) =>
      if n >= |w.procs| then w
      else (
        match w.procs[n]
        case InBegin(_) => MoveIn(cfg, w, n, ch)
        case InSited(_, _) => MoveIn(cfg, w, n, ch)
        case OutBegin(_, _) => MoveOut(cfg, w, n, ch)
        case OutRead(_, _, _) => MoveOut(cfg, w, n, ch)
        case OutFresh(_, _) => MoveOut(cfg, w, n, ch)
        case OutLocked(_, _, _, _, _) => MoveOut(cfg, w, n, ch)
        case PutOriginal(_, _) => MoveCapture(cfg, w, n, ch)
        case PutWatermarked(_, _) => MoveCapture(cfg, w, n, ch)
        case Ready(_, _) => MoveCapture(cfg, w, n, ch)
        case Undo(_, _, _) => MoveCapture(cfg, w, n, ch)
        case Finished(_) => w
        case _ => MoveCorrection(w, n, ch))
    case Direct(e) =>
      if !IsJournalEvent(e) then w
      else
        var (db, o) := Apply(cfg, w.db, e);
        if Committed(o) then w.(db := db, log := w.log + [Entry(None, e)]) else w
  }

  /** The world after a run of steps, from a ledger with nothing in flight. */
  function Execute(cfg: Config, db: Db, objects: set<Key>, ls: seq<Label>): World {
    if ls == [] then World(db, objects, objects, {}, [], [], [])
    else StepWorld(cfg, Execute(cfg, db, objects, ls[..|ls| - 1]), ls[|ls| - 1])
  }
}
