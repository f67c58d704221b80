/** The scheduled reminder job: three queries, each followed by a loop of
    deduplicated inserts, in one transaction. */
module Reminders {
  import opened Common
  import opened Hours
  import opened Schema
  import opened Ledger
  import opened LedgerInvariants
  import opened Notifications
  import opened Outbox
  import Dashboard
  import Answers

  /** Institution settings and what the zone says about an instant; goWeekday is
      time.Weekday, with Sunday = 0. */
  datatype Settings = Settings(cfg: Config, cutoffHours: int, afterHour: int, localHour: Time -> int, goWeekday: Time -> int)

  function IsoWeekday(st: Settings, now: Time): int {
    if st.goWeekday(now) == 0 then 7 else st.goWeekday(now)
  }

  // ---- what is due ----

  predicate OpenTooLong(st: Settings, s: Session, now: Time) {
    s.status == Open && s.effectiveIn < now - st.cfg.unusualMinutes * NANOS_PER_MINUTE
  }

  predicate Overdue(st: Settings, db: Db, j: Journal, now: Time) {
    && (j.status == Draft || j.status == NeedsRevision)
    && j.attendance < |db.sessions|
    && var s := db.sessions[j.attendance];
       var ended := if s.closedAt.Some? then s.closedAt else s.effectiveOut;
       ended.Some? && ended.value < now - st.cutoffHours * 60 * NANOS_PER_MINUTE
  }

  predicate ExpectedAndAbsent(st: Settings, db: Db, a: Assignment, now: Time) {
    var today := st.cfg.localDate(now);
    && st.localHour(now) >= st.afterHour
    && a.weekdays != {} && IsoWeekday(st, now) in a.weekdays
    && Covers(a.trainee, today)(a)
    && Find(db.sessions, OnDay(a.trainee, today)).None?
  }

  /** The reminder is due now, to the right user. */
  ghost predicate Due(st: Settings, db: Db, now: Time, n: Note) {
    match n.key
    case OpenReminder(i) =>
      i < |db.sessions| && OpenTooLong(st, db.sessions[i], now) && n.recipient == st.cfg.userOf(db.sessions[i].trainee)
    case JournalReminder(j) =>
      j < |db.journals| && Overdue(st, db, db.journals[j], now) && n.recipient == st.cfg.userOf(db.journals[j].trainee)
    case AttendanceReminder(a, day) =>
      && a < |db.assignments| && ExpectedAndAbsent(st, db, db.assignments[a], now)
      && day == st.cfg.localDate(now) && n.recipient == st.cfg.userOf(db.assignments[a].trainee)
    case _ => false
  }

  // ---- the queries ----

  /** The notes picked from rows 0 .. n-1, in order. */
  function Select(n: nat, pick: nat -> Option<Note>): seq<Note> {
    if n == 0 then []
    else Select(n - 1, pick) + (if pick(n - 1).Some? then [pick(n - 1).value] else [])
  }

  lemma {:induction false} SelectMembers(n: nat, pick: nat -> Option<Note>, m: Note)
    ensures m in Select(n, pick) <==> exists i: nat :: i < n && pick(i) == Some(m)
  {
    if n > 0 {
      SelectMembers(n - 1, pick, m);
    }
  }

  function PickOpen(st: Settings, db: Db, now: Time): nat -> Option<Note> {
    (i: nat) =>
      if i < |db.sessions| && OpenTooLong(st, db.sessions[i], now)
      then Some(Note(st.cfg.userOf(db.sessions[i].trainee), OpenReminder(i))) else None
  }

  function PickJournal(st: Settings, db: Db, now: Time): nat -> Option<Note> {
    (j: nat) =>
      if j < |db.journals| && Overdue(st, db, db.journals[j], now)
      then Some(Note(st.cfg.userOf(db.journals[j].trainee), JournalReminder(j))) else None
  }

  function PickAttendance(st: Settings, db: Db, now: Time): nat -> Option<Note> {
    (a: nat) =>
      if a < |db.assignments| && ExpectedAndAbsent(st, db, db.assignments[a], now)
      then Some(Note(st.cfg.userOf(db.assignments[a].trainee), AttendanceReminder(a, st.cfg.localDate(now)))) else None
  }

  function OpenNotes(st: Settings, db: Db, now: Time): seq<Note> { Select(|db.sessions|, PickOpen(st, db, now)) }

  function JournalNotes(st: Settings, db: Db, now: Time): seq<Note> { Select(|db.journals|, PickJournal(st, db, now)) }

  function AttendanceNotes(st: Settings, db: Db, now: Time): seq<Note> { Select(|db.assignments|, PickAttendance(st, db, now)) }

  function IsOpen(): Note -> bool { (n: Note) => n.key.OpenReminder? }

  function IsJournal(): Note -> bool { (n: Note) => n.key.JournalReminder? }

  function IsAttendance(): Note -> bool { (n: Note) => n.key.AttendanceReminder? }

  lemma QueriesFindTheDue(st: Settings, db: Db, now: Time, n: Note)
    ensures n in OpenNotes(st, db, now) <==> n.key.OpenReminder? && Due(st, db, now, n)
    ensures n in JournalNotes(st, db, now) <==> n.key.JournalReminder? && Due(st, db, now, n)
    ensures n in AttendanceNotes(st, db, now) <==> n.key.AttendanceReminder? && Due(st, db, now, n)
  {
    SelectMembers(|db.sessions|, PickOpen(st, db, now), n);
    SelectMembers(|db.journals|, PickJournal(st, db, now), n);
    SelectMembers(|db.assignments|, PickAttendance(st, db, now), n);
    if n.key.OpenReminder? && Due(st, db, now, n) { assert PickOpen(st, db, now)(n.key.session) == Some(n); }
    if n.key.JournalReminder? && Due(st, db, now, n) { assert PickJournal(st, db, now)(n.key.journal) == Some(n); }
    if n.key.AttendanceReminder? && Due(st, db, now, n) { assert PickAttendance(st, db, now)(n.key.assignment) == Some(n); }
  }

  // ---- the inserts ----

  function AddAll(notes: seq<Note>, due: seq<Note>): seq<Note> {
    if due == [] then notes else CreateTx(AddAll(notes, due[..|due| - 1]), due[|due| - 1])
  }

  lemma {:induction false} AddAllIsUnion(notes: seq<Note>, due: seq<Note>)
    ensures notes <= AddAll(notes, due)
    ensures forall m :: m in AddAll(notes, due) <==> m in notes || m in due
    ensures Distinct(notes) ==> Distinct(AddAll(notes, due))
    ensures (forall m :: m in due ==> m in notes) ==> AddAll(notes, due) == notes
  {
    if due != [] {
      var n := |due| - 1;
      AddAllIsUnion(notes, due[..n]);
      CreateTxAddsOnce(AddAll(notes, due[..n]), due[n]);
      assert due == due[..n] + [due[n]];
    }
  }

  lemma {:induction false} AddAllCounts(notes: seq<Note>, due: seq<Note>, kind: Note -> bool, of: bool)
    requires forall m :: m in due ==> kind(m) == of
    ensures Count(AddAll(notes, due), kind) == Count(notes, kind) + if of then |AddAll(notes, due)| - |notes| else 0
  {
    if due != [] {
      var n := |due| - 1;
      AddAllCounts(notes, due[..n], kind, of);
      CountAppend(AddAll(notes, due[..n]), due[n], kind);
    }
  }

  /** The job's effect on the table. */
  function RunNotes(st: Settings, db: Db, notes: seq<Note>, now: Time): seq<Note> {
    AddAll(AddAll(AddAll(notes, OpenNotes(st, db, now)), JournalNotes(st, db, now)), AttendanceNotes(st, db, now))
  }

  lemma RunAddsTheDue(st: Settings, db: Db, notes: seq<Note>, now: Time)
    ensures notes <= RunNotes(st, db, notes, now)
    ensures forall m :: m in RunNotes(st, db, notes, now) <==> m in notes || Due(st, db, now, m)
    ensures Distinct(notes) ==> Distinct(RunNotes(st, db, notes, now))
  {
    var a := AddAll(notes, OpenNotes(st, db, now));
    var b := AddAll(a, JournalNotes(st, db, now));
    AddAllIsUnion(notes, OpenNotes(st, db, now));
    AddAllIsUnion(a, JournalNotes(st, db, now));
    AddAllIsUnion(b, AttendanceNotes(st, db, now));
    forall m ensures m in RunNotes(st, db, notes, now) <==> m in notes || Due(st, db, now, m) {
      QueriesFindTheDue(st, db, now, m);
    }
  }

  /** The weekday counted from Monday = 1 to Sunday = 7. */
  function WeekdayFromMonday(st: Settings, now: Time): int {
    match st.goWeekday(now)
    case 0 => 7
    case d => d
  }

  /** Why a notification is owed, by the rows: a session still open after the threshold's
      minutes; an unfinished journal whose session closed more than the cutoff's hours
      ago; or, from the settled hour on, an assignment that expects its trainee on this
      weekday of a day it runs, with no session yet. */
  ghost predicate Owed(st: Settings, db: Db, now: Time, n: Note) {
    match n.key
    case OpenReminder(i) =>
      && i < |db.sessions| && n.recipient == st.cfg.userOf(db.sessions[i].trainee)
      && db.sessions[i].status == Open && now - db.sessions[i].effectiveIn > st.cfg.unusualMinutes * 60_000_000_000
    case JournalReminder(j) =>
      && j < |db.journals| && n.recipient == st.cfg.userOf(db.journals[j].trainee)
      && db.journals[j].status != Submitted && db.journals[j].status != Reviewed
      && db.journals[j].attendance < |db.sessions|
      && var s := db.sessions[db.journals[j].attendance];
         s.closedAt.Some? && now - s.closedAt.value > st.cutoffHours * 3_600_000_000_000
    case AttendanceReminder(a, day) =>
      && a < |db.assignments| && n.recipient == st.cfg.userOf(db.assignments[a].trainee)
      && day == st.cfg.localDate(now) && st.localHour(now) >= st.afterHour
      && WeekdayFromMonday(st, now) in db.assignments[a].weekdays
      && Answers.OnDuty(db, db.assignments[a].trainee, day, a) && !Answers.Attended(db, db.assignments[a].trainee, day)
    case _ => false
  }

  /** The job adds exactly the notifications owed. */
  lemma RunAddsTheOwed(st: Settings, db: Db, notes: seq<Note>, now: Time, n: Note)
    requires Inv(db)
    ensures n in RunNotes(st, db, notes, now) <==> n in notes || Owed(st, db, now, n)
  {
    RunAddsTheDue(st, db, notes, now);
    if n.key.AttendanceReminder? && n.key.assignment < |db.assignments| {
      Answers.DayIsAttended(db, db.assignments[n.key.assignment].trainee, st.cfg.localDate(now));
    }
    if n.key.JournalReminder? && n.key.journal < |db.journals| {
      assert SessionOk(db, db.journals[n.key.journal].attendance);
    }
  }

  /** On unchanged tables a second run at the same time changes nothing. */
  lemma SecondRunAddsNothing(st: Settings, db: Db, notes: seq<Note>, now: Time)
    ensures RunNotes(st, db, RunNotes(st, db, notes, now), now) == RunNotes(st, db, notes, now)
  {
    var first := RunNotes(st, db, notes, now);
    RunAddsTheDue(st, db, notes, now);
    forall m | m in OpenNotes(st, db, now) || m in JournalNotes(st, db, now) || m in AttendanceNotes(st, db, now)
      ensures m in first
    {
      QueriesFindTheDue(st, db, now, m);
    }
    AddAllIsUnion(first, OpenNotes(st, db, now));
    AddAllIsUnion(first, JournalNotes(st, db, now));
    AddAllIsUnion(first, AttendanceNotes(st, db, now));
  }

  // ---- the job ----

  method InsertEach(outbox: NotificationTable, pairs: seq<Note>) returns (n: nat)
    modifies outbox
    ensures outbox.rows == AddAll(old(outbox.rows), pairs)
    ensures n == |outbox.rows| - |old(outbox.rows)|
  {
    n := 0;
    assert pairs[..0] == [];
    for k := 0 to |pairs|
      invariant outbox.rows == AddAll(old(outbox.rows), pairs[..k])
      invariant |outbox.rows| == |old(outbox.rows)| + n
    {
      assert pairs[..k + 1][..k] == pairs[..k];
      var ok := outbox.Create(pairs[k]);
      if ok { n := n + 1; }
    }
    assert pairs[..|pairs|] == pairs;
  }

  method MissingAttendance(st: Settings, db: Db, outbox: NotificationTable, now: Time) returns (n: nat)
    modifies outbox
    ensures outbox.rows == AddAll(old(outbox.rows), AttendanceNotes(st, db, now))
    ensures n == |outbox.rows| - |old(outbox.rows)|
  {
    if st.localHour(now) < st.afterHour {
      TooEarly(st, db, now);
      return 0;
    }
    n := InsertEach(outbox, AttendanceNotes(st, db, now));
  }

  lemma TooEarly(st: Settings, db: Db, now: Time)
    requires st.localHour(now) < st.afterHour
    ensures AttendanceNotes(st, db, now) == []
  {
    if AttendanceNotes(st, db, now) != [] {
      QueriesFindTheDue(st, db, now, AttendanceNotes(st, db, now)[0]);
    }
  }

  /** Leaves exactly the old notifications plus the due ones, and returns how many
      rows of each kind it added. */
  method Run(st: Settings, db: Db, outbox: NotificationTable, now: Time)
    returns (openIn: nat, missingJournal: nat, missingAttendance: nat)
    modifies outbox
    ensures outbox.rows == RunNotes(st, db, old(outbox.rows), now)
    ensures old(outbox.rows) <= outbox.rows
    ensures forall m :: m in outbox.rows <==> m in old(outbox.rows) || Due(st, db, now, m)
    ensures openIn == Count(outbox.rows, IsOpen()) - Count(old(outbox.rows), IsOpen())
    ensures missingJournal == Count(outbox.rows, IsJournal()) - Count(old(outbox.rows), IsJournal())
    ensures missingAttendance == Count(outbox.rows, IsAttendance()) - Count(old(outbox.rows), IsAttendance())
    ensures (forall m :: Due(st, db, now, m) ==> m in old(outbox.rows)) ==> openIn == missingJournal == missingAttendance == 0
  {
    ghost var rows0 := outbox.rows;
    openIn := InsertEach(outbox, OpenNotes(st, db, now));
    ghost var rows1 := outbox.rows;
    missingJournal := InsertEach(outbox, JournalNotes(st, db, now));
    ghost var rows2 := outbox.rows;
    missingAttendance := MissingAttendance(st, db, outbox, now);
    RunAddsTheDue(st, db, rows0, now);
    CountsByKind(st, db, rows0, rows1, rows2, now);
    if forall m :: Due(st, db, now, m) ==> m in rows0 {
      forall m | m in OpenNotes(st, db, now) || m in JournalNotes(st, db, now) || m in AttendanceNotes(st, db, now)
        ensures m in rows0
      {
        QueriesFindTheDue(st, db, now, m);
      }
      AddAllIsUnion(rows0, OpenNotes(st, db, now));
      AddAllIsUnion(rows0, JournalNotes(st, db, now));
      AddAllIsUnion(rows0, AttendanceNotes(st, db, now));
    }
  }

  lemma CountsByKind(st: Settings, db: Db, rows0: seq<Note>, rows1: seq<Note>, rows2: seq<Note>, now: Time)
    requires rows1 == AddAll(rows0, OpenNotes(st, db, now)) && rows2 == AddAll(rows1, JournalNotes(st, db, now))
    ensures var rows3 := AddAll(rows2, AttendanceNotes(st, db, now));
      && Count(rows3, IsOpen()) == Count(rows0, IsOpen()) + |rows1| - |rows0|
      && Count(rows3, IsJournal()) == Count(rows0, IsJournal()) + |rows2| - |rows1|
      && Count(rows3, IsAttendance()) == Count(rows0, IsAttendance()) + |rows3| - |rows2|
  {
    var open, journal, attendance := OpenNotes(st, db, now), JournalNotes(st, db, now), AttendanceNotes(st, db, now);
    forall m | m in open ensures m.key.OpenReminder? { QueriesFindTheDue(st, db, now, m); }
    forall m | m in journal ensures m.key.JournalReminder? { QueriesFindTheDue(st, db, now, m); }
    forall m | m in attendance ensures m.key.AttendanceReminder? { QueriesFindTheDue(st, db, now, m); }
    AddAllCounts(rows0, open, IsOpen(), true);
    AddAllCounts(rows1, journal, IsOpen(), false);
    AddAllCounts(rows2, attendance, IsOpen(), false);
    AddAllCounts(rows0, open, IsJournal(), false);
    AddAllCounts(rows1, journal, IsJournal(), true);
    AddAllCounts(rows2, attendance, IsJournal(), false);
    AddAllCounts(rows0, open, IsAttendance(), false);
    AddAllCounts(rows1, journal, IsAttendance(), false);
    AddAllCounts(rows2, attendance, IsAttendance(), true);
  }

  // ---- the job within a run of the whole system ----

  function Reminding(due: seq<Note>): seq<Step> {
    seq(|due|, k requires 0 <= k < |due| => Remind(due[k]))
  }

  /** A job run is a stretch of reminder steps of the notification history, so the
      milestone properties hold with the job running at any point. */
  lemma {:induction false} JobIsHistory(cfg: Config, steps: seq<Step>, due: seq<Note>)
    requires forall m :: m in due ==> IsReminder(m.key)
    ensures History(cfg, steps + Reminding(due)) == State(History(cfg, steps).db, AddAll(History(cfg, steps).notes, due))
  {
    if due == [] {
      assert steps + Reminding(due) == steps;
    } else {
      var n := |due| - 1;
      JobIsHistory(cfg, steps, due[..n]);
      RemindingNext(steps, due);
      OneMoreReminder(cfg, steps + Reminding(due[..n]), due[n]);
    }
  }

  lemma RemindingNext(steps: seq<Step>, due: seq<Note>)
    requires due != []
    ensures var n := |due| - 1; steps + Reminding(due) == steps + Reminding(due[..n]) + [Remind(due[n])]
  {
    var n := |due| - 1;
    assert Reminding(due) == Reminding(due[..n]) + [Remind(due[n])];
  }

  lemma OneMoreReminder(cfg: Config, steps: seq<Step>, n: Note)
    requires IsReminder(n.key)
    ensures History(cfg, steps + [Remind(n)]) == State(History(cfg, steps).db, CreateTx(History(cfg, steps).notes, n))
  {
    assert (steps + [Remind(n)])[..|steps|] == steps;
  }

  lemma {:induction false} AddAllAppend(notes: seq<Note>, a: seq<Note>, b: seq<Note>)
    ensures AddAll(notes, a + b) == AddAll(AddAll(notes, a), b)
  {
    if b == [] {
      assert a + b == a;
    } else {
      var n := |b| - 1;
      assert (a + b)[..|a + b| - 1] == a + b[..n];
      AddAllAppend(notes, a, b[..n]);
    }
  }

  /** What the job inserts, in order. */
  function DueNotes(st: Settings, db: Db, now: Time): seq<Note> {
    OpenNotes(st, db, now) + JournalNotes(st, db, now) + AttendanceNotes(st, db, now)
  }

  /** The job run at any point of a history continues it by its own reminders, and
      leaves the table that Run leaves. */
  lemma RunContinuesHistory(st: Settings, steps: seq<Step>, now: Time)
    ensures var s := History(st.cfg, steps);
      History(st.cfg, steps + Reminding(DueNotes(st, s.db, now))) == State(s.db, RunNotes(st, s.db, s.notes, now))
  {
    var s := History(st.cfg, steps);
    var open, journal, attendance := OpenNotes(st, s.db, now), JournalNotes(st, s.db, now), AttendanceNotes(st, s.db, now);
    forall m | m in DueNotes(st, s.db, now) ensures IsReminder(m.key) {
      QueriesFindTheDue(st, s.db, now, m);
    }
    JobIsHistory(st.cfg, steps, DueNotes(st, s.db, now));
    AddAllAppend(s.notes, open + journal, attendance);
    AddAllAppend(s.notes, open, journal);
  }

  /** A trainee is only reminded of something the services would accept: an overdue
      Time Out can be made, an unfinished journal can be submitted, and the absent
      trainee can still time in on the very assignment the reminder names. */
  lemma RemindersAskForThePossible(st: Settings, db: Db, now: Time, n: Note, c: Capture, text: string)
    requires Inv(db) && Due(st, db, now, n) && st.cfg.unusualMinutes >= 0
    requires c.now == now && LongEnough(text)
    ensures n.key.OpenReminder? ==>
      var i := n.key.session;
      Dashboard.WellFormed(db, db.sessions[i].trainee, c) ==> ApplyTimeOut(st.cfg, db, c, i).1 == Created(i)
    ensures n.key.JournalReminder? ==>
      && ApplySubmit(db, n.key.journal, text).1 == Done
      && db.sessions[db.journals[n.key.journal].attendance].closedAt.Some?
    ensures n.key.AttendanceReminder? ==>
      var a := n.key.assignment;
      Dashboard.WellFormed(db, db.assignments[a].trainee, c) ==>
        var r := ApplyTimeIn(st.cfg, db, c);
        r.1 == Created(|db.sessions|) && r.0.sessions[|db.sessions|].assignment == a
  {
    match n.key
    case OpenReminder(i) => Dashboard.OpenHasNoTimeOut(db, i);
    case JournalReminder(j) => assert SessionOk(db, db.journals[j].attendance);
    case AttendanceReminder(a, day) => assert Covers(db.assignments[a].trainee, day)(db.assignments[a]);
    case _ =>
  }
}
