/** Committing a staged import: every row is inserted, or none is. */
module ImportCommit {
  import opened Common
  import opened Text
  import opened Import
  import opened ImportTokens

  datatype CommitResult =
    | InvalidToken | NoValidRows | ImportFailed
    | Imported(created: nat, credentials: seq<(string, string)>)

  /** Insert one row's user, profile and (for a coordinator's import) scope; the
      unique indexes on lower(email) and student_number may refuse. */
  function InsertRow(l: Locale, t: Tables, row: ImportRow, password: string, scope: Option<Id>): Option<Tables> {
    if EmailTaken(l, t, row.email) || StudentTaken(t, row.studentNumber) then None
    else
      Some(Tables(
        t.users + [User(row.email, password, row.displayName)],
        t.profiles + [Profile(|t.users|, row.studentNumber, row.program, row.yearLevel, row.contactNumber)],
        if scope.Some? then t.scopes + {(scope.value, |t.profiles|)} else t.scopes))
  }

  /** The explicit password, or the generated one for that position. */
  function PasswordOf(rows: seq<ImportRow>, temps: nat -> string, k: nat): string
    requires k < |rows|
  {
    if rows[k].password == "" then temps(k) else rows[k].password
  }

  function InsertAll(l: Locale, t: Tables, rows: seq<ImportRow>, temps: nat -> string, scope: Option<Id>): Option<Tables> {
    if rows == [] then Some(t)
    else
      var n := |rows| - 1;
      var before := InsertAll(l, t, rows[..n], temps, scope);
      if before.None? then None else InsertRow(l, before.value, rows[n], PasswordOf(rows, temps, n), scope)
  }

  function Credentials(rows: seq<ImportRow>, temps: nat -> string): seq<(string, string)> {
    if rows == [] then []
    else
      var n := |rows| - 1;
      Credentials(rows[..n], temps) + (if rows[n].password == "" then [(rows[n].email, temps(n))] else [])
  }

  class Roster {
    var users: seq<User>
    var profiles: seq<Profile>
    var scopes: set<(Id, Id)>

    constructor (t: Tables)
      ensures View() == t
    {
      users, profiles, scopes := t.users, t.profiles, t.scopes;
    }

    function View(): Tables
      reads this
    {
      Tables(users, profiles, scopes)
    }

    method InsertUser(l: Locale, u: User) returns (id: Option<Id>)
      modifies this`users
      ensures EmailTaken(l, old(View()), u.email) ==> id.None? && users == old(users)
      ensures !EmailTaken(l, old(View()), u.email) ==> id == Some(|old(users)|) && users == old(users) + [u]
    {
      if Find(users, SameEmail(l, u.email)).Some? { return None; }
      id := Some(|users|);
      users := users + [u];
    }

    method InsertProfile(p: Profile) returns (id: Option<Id>)
      modifies this`profiles
      ensures StudentTaken(old(View()), p.studentNumber) ==> id.None? && profiles == old(profiles)
      ensures !StudentTaken(old(View()), p.studentNumber) ==> id == Some(|old(profiles)|) && profiles == old(profiles) + [p]
    {
      if Find(profiles, SameStudent(p.studentNumber)).Some? { return None; }
      id := Some(|profiles|);
      profiles := profiles + [p];
    }

    /** The body of the transaction for one row; on a refusal the caller rolls back. */
    method InsertOne(l: Locale, row: ImportRow, password: string, scope: Option<Id>) returns (ok: bool)
      modifies this
      ensures ok <==> InsertRow(l, old(View()), row, password, scope).Some?
      ensures ok ==> View() == InsertRow(l, old(View()), row, password, scope).value
    {
      var user := InsertUser(l, User(row.email, password, row.displayName));
      if user.None? { return false; }
      var profile := InsertProfile(Profile(user.value, row.studentNumber, row.program, row.yearLevel, row.contactNumber));
      if profile.None? { return false; }
      if scope.Some? { scopes := scopes + {(scope.value, profile.value)}; }
      return true;
    }

    /** Presents the token, which is consumed whatever happens next; then inserts
        the whole snapshot or leaves the tables alone. */
    method Commit(l: Locale, store: ImportStore, token: Token, now: Time, temps: nat -> string) returns (r: CommitResult)
      modifies this, store
      ensures store.batches == Take(old(store.batches), token, now).0
      ensures var taken := Take(old(store.batches), token, now).1;
        && (r.InvalidToken? <==> taken.None?)
        && (r.NoValidRows? <==> taken.Some? && taken.value.rows == [])
        && (taken.Some? && taken.value.rows != [] ==>
              var scope := if taken.value.coordinator then Some(taken.value.creator) else None;
              var after := InsertAll(l, old(View()), taken.value.rows, temps, scope);
              && (r.Imported? <==> after.Some?)
              && (r.Imported? ==> View() == after.value && r.created == |taken.value.rows|
                                  && r.credentials == Credentials(taken.value.rows, temps)))
      ensures !r.Imported? ==> View() == old(View())
    {
      var b := store.take(token, now);
      if b.None? { return InvalidToken; }
      var rows := b.value.rows;
      if rows == [] { return NoValidRows; }
      var scope := if b.value.coordinator then Some(b.value.creator) else None;
      r := InsertBatch(l, rows, temps, scope);
    }

    method InsertBatch(l: Locale, rows: seq<ImportRow>, temps: nat -> string, scope: Option<Id>) returns (r: CommitResult)
      requires rows != []
      modifies this
      ensures r.Imported? || r.ImportFailed?
      ensures var after := InsertAll(l, old(View()), rows, temps, scope);
        && (r.Imported? <==> after.Some?)
        && (r.Imported? ==> View() == after.value && r.created == |rows| && r.credentials == Credentials(rows, temps))
      ensures !r.Imported? ==> View() == old(View())
    {
      var savepoint := View();
      r := Imported(0, []);
      assert rows[..0] == [];
      for k := 0 to |rows|
        invariant r == Imported(k, Credentials(rows[..k], temps))
        invariant InsertAll(l, savepoint, rows[..k], temps, scope) == Some(View())
      {
        NextRow(l, savepoint, rows, temps, scope, k, View());
        var password := rows[k].password;
        if password == "" { password := temps(k); }
        var ok := InsertOne(l, rows[k], password, scope);
        if !ok {
          users, profiles, scopes := savepoint.users, savepoint.profiles, savepoint.scopes;
          FailurePersists(l, savepoint, rows, temps, scope, k + 1);
          return ImportFailed;
        }
        r := r.(created := r.created + 1);
        if rows[k].password == "" { r := r.(credentials := r.credentials + [(rows[k].email, password)]); }
      }
      assert rows[..|rows|] == rows;
    }
  }

  lemma NextRow(l: Locale, t: Tables, rows: seq<ImportRow>, temps: nat -> string, scope: Option<Id>, k: nat, now: Tables)
    requires k < |rows| && InsertAll(l, t, rows[..k], temps, scope) == Some(now)
    ensures InsertAll(l, t, rows[..k + 1], temps, scope) == InsertRow(l, now, rows[k], PasswordOf(rows, temps, k), scope)
    ensures Credentials(rows[..k + 1], temps) ==
      Credentials(rows[..k], temps) + (if rows[k].password == "" then [(rows[k].email, temps(k))] else [])
  {
    assert rows[..k + 1][..k] == rows[..k];
  }

  lemma {:induction false} FailurePersists(l: Locale, t: Tables, rows: seq<ImportRow>, temps: nat -> string, scope: Option<Id>, k: nat)
    requires k <= |rows| && InsertAll(l, t, rows[..k], temps, scope).None?
    ensures InsertAll(l, t, rows, temps, scope).None?
  {
    if k == |rows| {
      assert rows[..k] == rows;
    } else {
      assert rows[..|rows| - 1][..k] == rows[..k];
      FailurePersists(l, t, rows[..|rows| - 1], temps, scope, k);
    }
  }

  // ---- when a commit succeeds ----

  /** No row is in the tables and no two rows clash in the unique indexes. */
  ghost predicate Insertable(l: Locale, t: Tables, rows: seq<ImportRow>) {
    && (forall k :: 0 <= k < |rows| ==> !EmailTaken(l, t, rows[k].email) && !StudentTaken(t, rows[k].studentNumber))
    && (forall i, j :: 0 <= i < j < |rows| ==>
          l.dbLower(rows[i].email) != l.dbLower(rows[j].email) && rows[i].studentNumber != rows[j].studentNumber)
  }

  /** What a successful commit leaves: the old rows, then one user and one linked
      profile per row, in order, and a scope per row for a coordinator. */
  ghost predicate Appended(t: Tables, after: Tables, rows: seq<ImportRow>, temps: nat -> string, scope: Option<Id>) {
    && |after.users| == |t.users| + |rows| && t.users <= after.users
    && |after.profiles| == |t.profiles| + |rows| && t.profiles <= after.profiles
    && (forall k :: 0 <= k < |rows| ==>
          && after.users[|t.users| + k] == User(rows[k].email, PasswordOf(rows, temps, k), rows[k].displayName)
          && after.profiles[|t.profiles| + k] ==
             Profile(|t.users| + k, rows[k].studentNumber, rows[k].program, rows[k].yearLevel, rows[k].contactNumber))
    && (forall s :: s in after.scopes <==>
          s in t.scopes || (scope == Some(s.0) && |t.profiles| <= s.1 < |t.profiles| + |rows|))
  }

  /** All rows or none, exactly when the unique indexes allow all of them. */
  lemma {:induction false} CommitExactly(l: Locale, t: Tables, rows: seq<ImportRow>, temps: nat -> string, scope: Option<Id>)
    ensures var after := InsertAll(l, t, rows, temps, scope);
      && (after.Some? <==> Insertable(l, t, rows))
      && (after.Some? ==> Appended(t, after.value, rows, temps, scope))
  {
    if rows != [] {
      var n := |rows| - 1;
      CommitExactly(l, t, rows[..n], temps, scope);
      InsertableNext(l, t, rows);
      var before := InsertAll(l, t, rows[..n], temps, scope);
      if before.Some? {
        TakenAfter(l, t, before.value, rows[..n], temps, scope, rows[n]);
        var after := InsertRow(l, before.value, rows[n], PasswordOf(rows, temps, n), scope);
        if after.Some? { AppendedNext(l, t, before.value, after.value, rows, temps, scope); }
      }
    }
  }

  lemma InsertableNext(l: Locale, t: Tables, rows: seq<ImportRow>)
    requires rows != []
    ensures var n := |rows| - 1;
      Insertable(l, t, rows) <==>
        && Insertable(l, t, rows[..n]) && !EmailTaken(l, t, rows[n].email) && !StudentTaken(t, rows[n].studentNumber)
        && forall k :: 0 <= k < n ==>
             l.dbLower(rows[..n][k].email) != l.dbLower(rows[n].email) && rows[..n][k].studentNumber != rows[n].studentNumber
  {
    var n := |rows| - 1;
    assert forall k :: 0 <= k < n ==> rows[..n][k] == rows[k];
  }

  lemma AppendedNext(l: Locale, t: Tables, before: Tables, after: Tables, rows: seq<ImportRow>, temps: nat -> string, scope: Option<Id>)
    requires rows != [] && Appended(t, before, rows[..|rows| - 1], temps, scope)
    requires InsertRow(l, before, rows[|rows| - 1], PasswordOf(rows, temps, |rows| - 1), scope) == Some(after)
    ensures Appended(t, after, rows, temps, scope)
  {
    var n := |rows| - 1;
    forall k | 0 <= k < n
      ensures rows[..n][k] == rows[k] && PasswordOf(rows[..n], temps, k) == PasswordOf(rows, temps, k)
      ensures after.users[|t.users| + k] == before.users[|t.users| + k]
      ensures after.profiles[|t.profiles| + k] == before.profiles[|t.profiles| + k]
    {
    }
  }

  lemma TakenAfter(l: Locale, t: Tables, after: Tables, rows: seq<ImportRow>, temps: nat -> string, scope: Option<Id>, row: ImportRow)
    requires Appended(t, after, rows, temps, scope)
    ensures EmailTaken(l, after, row.email) <==>
      EmailTaken(l, t, row.email) || exists k :: 0 <= k < |rows| && l.dbLower(rows[k].email) == l.dbLower(row.email)
    ensures StudentTaken(after, row.studentNumber) <==>
      StudentTaken(t, row.studentNumber) || exists k :: 0 <= k < |rows| && rows[k].studentNumber == row.studentNumber
  {
    var n, m := |t.users|, |t.profiles|;
    var u, v := Find(after.users, SameEmail(l, row.email)), Find(t.users, SameEmail(l, row.email));
    if u.Some? && u.value >= n { assert after.users[n + (u.value - n)].email == rows[u.value - n].email; }
    if u.Some? && u.value < n { assert SameEmail(l, row.email)(t.users[u.value]); }
    if v.Some? { assert SameEmail(l, row.email)(after.users[v.value]); }
    forall k | 0 <= k < |rows| && l.dbLower(rows[k].email) == l.dbLower(row.email) ensures u.Some? {
      assert SameEmail(l, row.email)(after.users[n + k]);
    }
    var p, q := Find(after.profiles, SameStudent(row.studentNumber)), Find(t.profiles, SameStudent(row.studentNumber));
    if p.Some? && p.value >= m { assert after.profiles[m + (p.value - m)].studentNumber == rows[p.value - m].studentNumber; }
    if p.Some? && p.value < m { assert SameStudent(row.studentNumber)(t.profiles[p.value]); }
    if q.Some? { assert SameStudent(row.studentNumber)(after.profiles[q.value]); }
    forall k | 0 <= k < |rows| && rows[k].studentNumber == row.studentNumber ensures p.Some? {
      assert SameStudent(row.studentNumber)(after.profiles[m + k]);
    }
  }

  /** The database's lower-casing leaves what Go lower-cased alone. */
  ghost predicate CasesAgree(l: Locale) { forall s :: l.dbLower(l.goLower(s)) == l.goLower(s) }

  /** An accepted line is in the tables after all: its lookup must have failed. */
  predicate Overlooked(l: Locale, t: Tables, results: seq<RowResult>, k: nat)
    requires k < |results| && results[k].Valid?
  {
    EmailTaken(l, t, results[k].normalized.email) || StudentTaken(t, results[k].normalized.studentNumber)
  }

  /** Committing an upload on the tables it was validated against fails exactly when
      some accepted line's email or number is in them, and that takes a lookup that
      failed: validation treats an erroring lookup as "not found". */
  lemma CommitOfUpload(l: Locale, t: Tables, f: Faults, header: seq<string>, recs: seq<Record>, results: seq<RowResult>,
                       temps: nat -> string, scope: Option<Id>)
    requires CasesAgree(l) && Judged(l, t, f, header, recs, results, |recs|)
    ensures InsertAll(l, t, ValidRows(results), temps, scope).None? <==>
      exists k :: 0 <= k < |results| && results[k].Valid? && Overlooked(l, t, results, k)
    ensures forall k :: 0 <= k < |results| && results[k].Valid? && Overlooked(l, t, results, k) ==>
      f.email(LineOf(k)) || f.student(LineOf(k))
  {
    var rows := ValidRows(results);
    CommitExactly(l, t, rows, temps, scope);
    AcceptedRowsDistinct(l, t, f, header, recs, results);
    forall i | 0 <= i < |rows|
      ensures l.dbLower(rows[i].email) == rows[i].email
      ensures exists k: nat :: FromLine(results, k, rows[i])
    {
      RowsComeFromLines(results, rows[i]);
      var k: nat :| FromLine(results, k, rows[i]);
      AcceptedMeans(l, t, f, header, recs, k);
    }
    forall k | 0 <= k < |results| && results[k].Valid? && Overlooked(l, t, results, k)
      ensures f.email(LineOf(k)) || f.student(LineOf(k))
      ensures !Insertable(l, t, rows)
    {
      AcceptedIsUnlisted(l, t, f, header, recs, k);
      assert FromLine(results, k, results[k].normalized);
      RowsComeFromLines(results, results[k].normalized);
    }
    if !Insertable(l, t, rows) {
      var i :| 0 <= i < |rows| && (EmailTaken(l, t, rows[i].email) || StudentTaken(t, rows[i].studentNumber));
      var k: nat :| FromLine(results, k, rows[i]);
      assert Overlooked(l, t, results, k);
    }
  }

  /** So with every lookup answered, a commit on unchanged tables cannot fail. */
  lemma CommitCannotFail(l: Locale, t: Tables, f: Faults, header: seq<string>, recs: seq<Record>, results: seq<RowResult>,
                         temps: nat -> string, scope: Option<Id>)
    requires CasesAgree(l) && Judged(l, t, f, header, recs, results, |recs|)
    requires forall k :: 0 <= k < |recs| ==> !f.email(LineOf(k)) && !f.student(LineOf(k))
    ensures var after := InsertAll(l, t, ValidRows(results), temps, scope);
      after.Some? && Appended(t, after.value, ValidRows(results), temps, scope)
  {
    CommitOfUpload(l, t, f, header, recs, results, temps, scope);
    CommitExactly(l, t, ValidRows(results), temps, scope);
  }

  /** A single failed lookup is enough: the line of a student who already exists is
      accepted and the commit is refused. */
  lemma FailedLookupIsAccepted(l: Locale, temps: nat -> string)
    requires l.goLower("email") == "email" && l.goLower("student_number") == "student_number"
    requires l.goLower("display_name") == "display_name" && l.goLower("a@b") == "a@b"
    ensures var t := Tables([User("a@b", "secret", "A")], [Profile(0, "7", "", "", "")], {});
            var header, rec := ["email", "student_number", "display_name"], ["a@b", "7", "A"];
            var f := Faults((line: nat) => line == 2, (line: nat) => line == 2);
            var result := ResultOf(l, t, f, header, [Some(rec)], 0);
            && result == Valid(2, ImportRow("a@b", "7", "A", "", "", "", ""))
            && InsertAll(l, t, ValidRows([result]), temps, None).None?
  {
    var t := Tables([User("a@b", "secret", "A")], [Profile(0, "7", "", "", "")], {});
    var header, rec := ["email", "student_number", "display_name"], ["a@b", "7", "A"];
    var f := Faults((line: nat) => line == 2, (line: nat) => line == 2);
    var row := ImportRow("a@b", "7", "A", "", "", "", "");
    RecordOfThree(l, header, rec);
    OnlyLine(l, t, f, header, rec, row);
    OneValidRow(row);
    assert SameEmail(l, "a@b")(t.users[0]);
    TakenBlocks(l, t, row, temps);
  }

  lemma TakenBlocks(l: Locale, t: Tables, row: ImportRow, temps: nat -> string)
    requires EmailTaken(l, t, row.email)
    ensures InsertAll(l, t, [row], temps, None).None?
  {
    CommitExactly(l, t, [row], temps, None);
    assert EmailTaken(l, t, [row][0].email);
  }

  lemma OneValidRow(row: ImportRow)
    ensures ValidRows([Valid(2, row)]) == [row]
  {
    assert [Valid(2, row)][..0] == [];
  }

  lemma OnlyLine(l: Locale, t: Tables, f: Faults, header: seq<string>, rec: seq<string>, row: ImportRow)
    requires Normalize(l, header, rec) == row && f.email(LineOf(0)) && f.student(LineOf(0))
    requires '@' in row.email && row.studentNumber != "" && row.displayName != "" && row.password == ""
    ensures ResultOf(l, t, f, header, [Some(rec)], 0) == Valid(2, row)
  {
    var recs := [Some(rec)];
    assert recs[..0] == [];
    assert EmailProblem(l, t, f, header, recs, 0, row).None?;
    assert StudentProblem(l, t, f, header, recs, 0, row).None?;
    AcceptedMeans(l, t, f, header, recs, 0);
  }

  lemma RecordOfThree(l: Locale, header: seq<string>, rec: seq<string>)
    requires header == ["email", "student_number", "display_name"] && rec == ["a@b", "7", "A"]
    requires l.goLower("email") == "email" && l.goLower("student_number") == "student_number"
    requires l.goLower("display_name") == "display_name" && l.goLower("a@b") == "a@b"
    ensures Normalize(l, header, rec) == ImportRow("a@b", "7", "A", "", "", "", "")
  {
    HeaderOfThree(l, header);
    Trimmed("a@b");
    Trimmed("7");
    Trimmed("A");
  }

  lemma Trimmed(s: string)
    requires s != "" && !IsSpace(s[0]) && !IsSpace(s[|s| - 1])
    ensures TrimSpace(s) == s
  {
  }

  lemma HeaderOfThree(l: Locale, header: seq<string>)
    requires header == ["email", "student_number", "display_name"]
    requires l.goLower("email") == "email" && l.goLower("student_number") == "student_number"
    requires l.goLower("display_name") == "display_name"
    ensures ColumnOf(l, header, "email") == Some(0) && ColumnOf(l, header, "student_number") == Some(1)
    ensures ColumnOf(l, header, "display_name") == Some(2) && ColumnOf(l, header, "password") == None
    ensures ColumnOf(l, header, "program") == ColumnOf(l, header, "year_level") == ColumnOf(l, header, "contact_number") == None
  {
    Trimmed("email");
    Trimmed("student_number");
    Trimmed("display_name");
    ThreeColumns(l, header, "email");
    ThreeColumns(l, header, "student_number");
    ThreeColumns(l, header, "display_name");
    ThreeColumns(l, header, "password");
    ThreeColumns(l, header, "program");
    ThreeColumns(l, header, "year_level");
    ThreeColumns(l, header, "contact_number");
  }

  lemma ThreeColumns(l: Locale, header: seq<string>, name: string)
    requires |header| == 3
    ensures ColumnOf(l, header, name) ==
      if HeaderName(l, header[2]) == name then Some(2)
      else if HeaderName(l, header[1]) == name then Some(1)
      else if HeaderName(l, header[0]) == name then Some(0) else None
  {
    assert header[..2][..1] == header[..1] && header[..1][..0] == [];
    assert ColumnOf(l, header[..1], name) == if HeaderName(l, header[0]) == name then Some(0) else None;
  }
}
