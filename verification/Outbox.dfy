/** The notifications table as the services update it. */
module Outbox {
  import opened Common
  import opened Schema
  import opened Progress
  import opened Notifications

  class NotificationTable {
    var rows: seq<Note>

    constructor ()
      ensures rows == []
    {
      rows := [];
    }

    /** Insert unless a row with this recipient and key exists; the result is
        "one row was affected". */
    method Create(n: Note) returns (inserted: bool)
      modifies this
      ensures rows == CreateTx(old(rows), n)
      ensures inserted <==> n !in old(rows)
      ensures |rows| == |old(rows)| + if inserted then 1 else 0
    {
      CreateTxAddsOnce(rows, n);
      var conflict := Find(rows, Is(n));
      if conflict.Some? {
        assert Is(n)(rows[conflict.value]);
        return false;
      }
      rows := rows + [n];
      return true;
    }

    method NotifyCompletionIfReached(cfg: Config, db: Db, trainee: Id, assignment: Id)
      modifies this
      ensures rows == NotifyCompletion(cfg, db, old(rows), trainee, assignment)
    {
      if assignment >= |db.assignments| { return; }
      var reached := Sum(db.sessions, ByTrainee(trainee, assignment)) >= db.assignments[assignment].required;
      if !reached { return; }
      var _ := Create(Note(cfg.userOf(trainee), Completion(trainee, assignment)));
    }
  }
}
