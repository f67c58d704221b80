/** The rules of the CSV import, spelled out on the cells of the file and the rows of
    the tables: which column a field comes from, which lines are refused and why, and
    what a commit inserts. */
module ImportRules {
  import opened Common
  import opened Text
  import opened Import
  import opened ImportCommit

  // ---- cells ----

  /** Column i is the last whose trimmed, lower-cased heading is that name. */
  predicate LastColumn(l: Locale, header: seq<string>, name: string, i: nat) {
    && i < |header| && l.goLower(TrimSpace(header[i])) == name
    && forall j :: i < j < |header| ==> l.goLower(TrimSpace(header[j])) != name
  }

  lemma {:induction false} ColumnIsLast(l: Locale, header: seq<string>, name: string)
    ensures var c := ColumnOf(l, header, name);
      && (c.Some? ==> LastColumn(l, header, name, c.value))
      && (c.None? ==> forall j :: 0 <= j < |header| ==> l.goLower(TrimSpace(header[j])) != name)
  {
    if header != [] {
      var n := |header| - 1;
      assert forall j :: 0 <= j < n ==> header[..n][j] == header[j];
      ColumnIsLast(l, header[..n], name);
    }
  }

  /** The trimmed cell of the record under that name; empty when there is no such column
      or the record is too short. */
  ghost predicate Cell(l: Locale, header: seq<string>, rec: seq<string>, name: string, value: string) {
    if i: nat :| LastColumn(l, header, name, i) then value == (if i < |rec| then TrimSpace(rec[i]) else "") else value == ""
  }

  lemma FieldIsCell(l: Locale, header: seq<string>, rec: seq<string>, name: string)
    ensures Cell(l, header, rec, name, Field(l, header, rec, name))
  {
    ColumnIsLast(l, header, name);
    if i: nat :| LastColumn(l, header, name, i) { assert ColumnOf(l, header, name) == Some(i); }
  }

  /** Every field of a parsed line is the cell under its own name; the email, lower-cased. */
  lemma RowIsCells(l: Locale, header: seq<string>, rec: seq<string>)
    ensures var row := Normalize(l, header, rec);
      && (exists email :: Cell(l, header, rec, "email", email) && row.email == l.goLower(email))
      && Cell(l, header, rec, "student_number", row.studentNumber) && Cell(l, header, rec, "display_name", row.displayName)
      && Cell(l, header, rec, "program", row.program) && Cell(l, header, rec, "year_level", row.yearLevel)
      && Cell(l, header, rec, "contact_number", row.contactNumber) && Cell(l, header, rec, "password", row.password)
  {
    FieldIsCell(l, header, rec, "email");
    FieldIsCell(l, header, rec, "student_number");
    FieldIsCell(l, header, rec, "display_name");
    FieldIsCell(l, header, rec, "program");
    FieldIsCell(l, header, rec, "year_level");
    FieldIsCell(l, header, rec, "contact_number");
    FieldIsCell(l, header, rec, "password");
  }

  // ---- refusals ----

  /** Record j reads the email. */
  predicate ReadsEmail(l: Locale, header: seq<string>, recs: seq<Record>, email: string, j: nat) {
    j < |recs| && recs[j].Some? && Normalize(l, header, recs[j].value).email == email
  }

  predicate ReadsStudent(l: Locale, header: seq<string>, recs: seq<Record>, student: string, j: nat) {
    j < |recs| && recs[j].Some? && Normalize(l, header, recs[j].value).studentNumber == student
  }

  /** An earlier line than k reads it. */
  ghost predicate RepeatsEmail(l: Locale, header: seq<string>, recs: seq<Record>, k: nat, email: string) {
    exists j: nat :: j < k && ReadsEmail(l, header, recs, email, j)
  }

  predicate FirstEmail(l: Locale, header: seq<string>, recs: seq<Record>, email: string, j: nat) {
    ReadsEmail(l, header, recs, email, j) && forall i: nat :: i < j ==> !ReadsEmail(l, header, recs, email, i)
  }

  /** An earlier line than k reads it. */
  ghost predicate RepeatsStudent(l: Locale, header: seq<string>, recs: seq<Record>, k: nat, student: string) {
    exists j: nat :: j < k && ReadsStudent(l, header, recs, student, j)
  }

  predicate FirstStudent(l: Locale, header: seq<string>, recs: seq<Record>, student: string, j: nat) {
    ReadsStudent(l, header, recs, student, j) && forall i: nat :: i < j ==> !ReadsStudent(l, header, recs, student, i)
  }

  ghost predicate UserHas(l: Locale, t: Tables, email: string) {
    exists u :: 0 <= u < |t.users| && l.dbLower(t.users[u].email) == l.dbLower(email)
  }

  ghost predicate ProfileHas(t: Tables, student: string) {
    exists p :: 0 <= p < |t.profiles| && t.profiles[p].studentNumber == student
  }

  lemma TakenMeansHas(l: Locale, t: Tables, email: string, student: string)
    ensures EmailTaken(l, t, email) <==> UserHas(l, t, email)
    ensures StudentTaken(t, student) <==> ProfileHas(t, student)
  {
    var u, p := Find(t.users, SameEmail(l, email)), Find(t.profiles, SameStudent(student));
    if u.Some? { assert SameEmail(l, email)(t.users[u.value]); }
    if p.Some? { assert SameStudent(student)(t.profiles[p.value]); }
    if m :| 0 <= m < |t.users| && l.dbLower(t.users[m].email) == l.dbLower(email) { assert SameEmail(l, email)(t.users[m]); }
    if m :| 0 <= m < |t.profiles| && t.profiles[m].studentNumber == student { assert SameStudent(student)(t.profiles[m]); }
  }

  /** What line k is refused for, field by field; nothing when it is accepted. */
  function Errors(r: RowResult): map<string, Problem> { if r.Valid? then map[] else r.errors }

  function Complaint(r: RowResult, field: string): Option<Problem> {
    if field in Errors(r) then Some(Errors(r)[field]) else None
  }

  lemma FirstEmailIsFound(l: Locale, header: seq<string>, recs: seq<Record>, k: nat, email: string)
    requires k < |recs|
    ensures var first := Find(recs[..k], HasEmail(l, header, email));
      && (first.Some? <==> RepeatsEmail(l, header, recs, k, email))
      && (forall j: nat :: j < k ==> (FirstEmail(l, header, recs, email, j) <==> first == Some(j)))
  {
    var first := Find(recs[..k], HasEmail(l, header, email));
    forall j: nat | j < k ensures HasEmail(l, header, email)(recs[..k][j]) <==> ReadsEmail(l, header, recs, email, j) {
      assert recs[..k][j] == recs[j];
    }
    forall j: nat | j < k ensures FirstEmail(l, header, recs, email, j) <==> first == Some(j) {
      if FirstEmail(l, header, recs, email, j) { assert first.Some? && first.value <= j; }
    }
  }

  lemma FirstStudentIsFound(l: Locale, header: seq<string>, recs: seq<Record>, k: nat, student: string)
    requires k < |recs|
    ensures var first := Find(recs[..k], HasStudent(l, header, student));
      && (first.Some? <==> RepeatsStudent(l, header, recs, k, student))
      && (forall j: nat :: j < k ==> (FirstStudent(l, header, recs, student, j) <==> first == Some(j)))
  {
    var first := Find(recs[..k], HasStudent(l, header, student));
    forall j: nat | j < k ensures HasStudent(l, header, student)(recs[..k][j]) <==> ReadsStudent(l, header, recs, student, j) {
      assert recs[..k][j] == recs[j];
    }
    forall j: nat | j < k ensures FirstStudent(l, header, recs, student, j) <==> first == Some(j) {
      if FirstStudent(l, header, recs, student, j) { assert first.Some? && first.value <= j; }
    }
  }

  lemma VerdictComplains(line: nat, row: ImportRow, email: Option<Problem>, student: Option<Problem>)
    ensures var r := Import.Verdict(line, row, email, student);
      && r.row == line && (r.Valid? ==> r.normalized == row) && (r.Valid? <==> Errors(r) == map[])
      && Complaint(r, "email") == email && Complaint(r, "student_number") == student
      && Complaint(r, "display_name") == (if row.displayName == "" then Some(Required) else None)
      && Complaint(r, "password") == (if row.password != "" && ByteLength(row.password) < 8 then Some(TooShort) else None)
      && Errors(r).Keys <= {"email", "student_number", "display_name", "password"}
  {
  }

  /** The line is reported as a repetition of record j's. */
  predicate Names(p: Option<Problem>, j: nat) { p == Some(DuplicateOf(j + 2)) }

  lemma Decides(p: Option<Problem>, bad: bool, first: Option<nat>, faulty: bool, stored: bool)
    requires p == if bad then Some(Required)
                  else if first.Some? then Some(DuplicateOf(first.value + 2))
                  else if !faulty && stored then Some(AlreadyExists) else None
    ensures p == Some(Required) <==> bad
    ensures forall j: nat :: Names(p, j) <==> !bad && first == Some(j)
    ensures p == Some(AlreadyExists) <==> !bad && first.None? && !faulty && stored
    ensures p.None? <==> !bad && first.None? && (faulty || !stored)
  {
  }

  /** Why line k + 2 is refused its email: it has no at-sign; an earlier line read it, and
      the first that did is named; or it is stored and the lookup did not fail. */
  ghost predicate EmailRule(l: Locale, t: Tables, f: Faults, header: seq<string>, recs: seq<Record>, k: nat, email: string, p: Option<Problem>) {
    var repeated := RepeatsEmail(l, header, recs, k, email);
    && (p == Some(Required) <==> '@' !in email)
    && (forall j: nat :: j < k ==> (Names(p, j) <==> '@' in email && FirstEmail(l, header, recs, email, j)))
    && (p == Some(AlreadyExists) <==> '@' in email && !repeated && !f.email(k + 2) && UserHas(l, t, email))
    && (p.None? <==> '@' in email && !repeated && (f.email(k + 2) || !UserHas(l, t, email)))
  }

  ghost predicate StudentRule(l: Locale, t: Tables, f: Faults, header: seq<string>, recs: seq<Record>, k: nat, student: string, p: Option<Problem>) {
    var repeated := RepeatsStudent(l, header, recs, k, student);
    && (p == Some(Required) <==> student == "")
    && (forall j: nat :: j < k ==> (Names(p, j) <==> student != "" && FirstStudent(l, header, recs, student, j)))
    && (p == Some(AlreadyExists) <==> student != "" && !repeated && !f.student(k + 2) && ProfileHas(t, student))
    && (p.None? <==> student != "" && !repeated && (f.student(k + 2) || !ProfileHas(t, student)))
  }

  lemma EmailIsRuled(l: Locale, t: Tables, f: Faults, header: seq<string>, recs: seq<Record>, k: nat, row: ImportRow)
    requires k < |recs|
    ensures EmailRule(l, t, f, header, recs, k, row.email, EmailProblem(l, t, f, header, recs, k, row))
  {
    var first := Find(recs[..k], HasEmail(l, header, row.email));
    TakenMeansHas(l, t, row.email, row.studentNumber);
    FirstEmailIsFound(l, header, recs, k, row.email);
    EmailDecided(l, t, f, header, recs, k, row.email, first, EmailProblem(l, t, f, header, recs, k, row));
  }

  lemma EmailDecided(l: Locale, t: Tables, f: Faults, header: seq<string>, recs: seq<Record>, k: nat, email: string,
                     first: Option<nat>, p: Option<Problem>)
    requires first.Some? <==> RepeatsEmail(l, header, recs, k, email)
    requires forall j: nat :: j < k ==> (FirstEmail(l, header, recs, email, j) <==> first == Some(j))
    requires p == if '@' !in email then Some(Required)
                  else if first.Some? then Some(DuplicateOf(first.value + 2))
                  else if !f.email(k + 2) && UserHas(l, t, email) then Some(AlreadyExists) else None
    ensures EmailRule(l, t, f, header, recs, k, email, p)
  {
    Decides(p, '@' !in email, first, f.email(k + 2), UserHas(l, t, email));
  }

  lemma StudentIsRuled(l: Locale, t: Tables, f: Faults, header: seq<string>, recs: seq<Record>, k: nat, row: ImportRow)
    requires k < |recs|
    ensures StudentRule(l, t, f, header, recs, k, row.studentNumber, StudentProblem(l, t, f, header, recs, k, row))
  {
    var first := Find(recs[..k], HasStudent(l, header, row.studentNumber));
    TakenMeansHas(l, t, row.email, row.studentNumber);
    FirstStudentIsFound(l, header, recs, k, row.studentNumber);
    StudentDecided(l, t, f, header, recs, k, row.studentNumber, first, StudentProblem(l, t, f, header, recs, k, row));
  }

  lemma StudentDecided(l: Locale, t: Tables, f: Faults, header: seq<string>, recs: seq<Record>, k: nat, student: string,
                     first: Option<nat>, p: Option<Problem>)
    requires first.Some? <==> RepeatsStudent(l, header, recs, k, student)
    requires forall j: nat :: j < k ==> (FirstStudent(l, header, recs, student, j) <==> first == Some(j))
    requires p == if student == "" then Some(Required)
                  else if first.Some? then Some(DuplicateOf(first.value + 2))
                  else if !f.student(k + 2) && ProfileHas(t, student) then Some(AlreadyExists) else None
    ensures StudentRule(l, t, f, header, recs, k, student, p)
  {
    Decides(p, student == "", first, f.student(k + 2), ProfileHas(t, student));
  }

  /** A parsed line is accepted exactly when no field is refused, and otherwise reports
      each refused field with its reason. */
  lemma RefusedExactly(l: Locale, t: Tables, f: Faults, header: seq<string>, recs: seq<Record>, k: nat)
    requires k < |recs| && recs[k].Some?
    ensures var r := ResultOf(l, t, f, header, recs, k);
            var row := Normalize(l, header, recs[k].value);
      && r.row == k + 2 && (r.Valid? ==> r.normalized == row) && (r.Valid? <==> Errors(r) == map[])
      && Errors(r).Keys <= {"email", "student_number", "display_name", "password"}
      && EmailRule(l, t, f, header, recs, k, row.email, Complaint(r, "email"))
      && StudentRule(l, t, f, header, recs, k, row.studentNumber, Complaint(r, "student_number"))
      && Complaint(r, "display_name") == (if row.displayName == "" then Some(Required) else None)
      && Complaint(r, "password") == (if row.password != "" && ByteLength(row.password) < 8 then Some(TooShort) else None)
  {
    var row := Normalize(l, header, recs[k].value);
    EmailIsRuled(l, t, f, header, recs, k, row);
    StudentIsRuled(l, t, f, header, recs, k, row);
    VerdictComplains(k + 2, row, EmailProblem(l, t, f, header, recs, k, row), StudentProblem(l, t, f, header, recs, k, row));
  }

  /** A record the reader cannot parse is reported under its own line. */
  lemma MalformedIsReported(l: Locale, t: Tables, f: Faults, header: seq<string>, recs: seq<Record>, k: nat)
    requires k < |recs| && recs[k].None?
    ensures ResultOf(l, t, f, header, recs, k) == Invalid(k + 2, map["row" := Malformed])
  {
  }

  function IsValid(): RowResult -> bool { (r: RowResult) => r.Valid? }

  /** The accepted rows are the valid lines' rows, in the order of the lines. */
  lemma {:induction false} ValidRowsInOrder(results: seq<RowResult>, k: nat)
    requires k < |results| && results[k].Valid?
    ensures |ValidRows(results)| == Count(results, IsValid())
    ensures var at := Count(results[..k], IsValid()); at < |ValidRows(results)| && ValidRows(results)[at] == results[k].normalized
  {
    var n := |results| - 1;
    ValidRowsCount(results);
    ValidRowsCount(results[..n]);
    if k < n {
      ValidRowsInOrder(results[..n], k);
      assert results[..n][..k] == results[..k];
    }
  }

  lemma {:induction false} ValidRowsCount(results: seq<RowResult>)
    ensures |ValidRows(results)| == Count(results, IsValid())
  {
    if results != [] { ValidRowsCount(results[..|results| - 1]); }
  }

  // ---- the commit ----

  /** A commit inserts all rows exactly when no stored user has a row's lower-cased email,
      no profile its student number, and no two rows clash. */
  lemma InsertsExactly(l: Locale, t: Tables, rows: seq<ImportRow>, temps: nat -> string, scope: Option<Id>)
    ensures InsertAll(l, t, rows, temps, scope).Some? <==>
      && (forall k :: 0 <= k < |rows| ==> !UserHas(l, t, rows[k].email) && !ProfileHas(t, rows[k].studentNumber))
      && (forall i, j :: 0 <= i < j < |rows| ==>
            l.dbLower(rows[i].email) != l.dbLower(rows[j].email) && rows[i].studentNumber != rows[j].studentNumber)
  {
    CommitExactly(l, t, rows, temps, scope);
    forall k | 0 <= k < |rows|
      ensures EmailTaken(l, t, rows[k].email) <==> UserHas(l, t, rows[k].email)
      ensures StudentTaken(t, rows[k].studentNumber) <==> ProfileHas(t, rows[k].studentNumber)
    {
      TakenMeansHas(l, t, rows[k].email, rows[k].studentNumber);
    }
  }

  /** The row's account has the password of the file, or else the one generated for it. */
  lemma InsertsAccounts(l: Locale, t: Tables, rows: seq<ImportRow>, temps: nat -> string, scope: Option<Id>, k: nat)
    requires k < |rows| && InsertAll(l, t, rows, temps, scope).Some?
    ensures var after := InsertAll(l, t, rows, temps, scope).value;
            var row, u, p := rows[k], |t.users| + k, |t.profiles| + k;
      && |after.users| == |t.users| + |rows| && |after.profiles| == |t.profiles| + |rows|
      && after.users[..|t.users|] == t.users && after.profiles[..|t.profiles|] == t.profiles
      && after.users[u].email == row.email && after.users[u].displayName == row.displayName
      && after.users[u].password == (if row.password == "" then temps(k) else row.password)
      && after.profiles[p] == Profile(u, row.studentNumber, row.program, row.yearLevel, row.contactNumber)
      && (scope.Some? ==> (scope.value, p) in after.scopes)
      && (scope.None? ==> after.scopes == t.scopes)
  {
    CommitExactly(l, t, rows, temps, scope);
  }

  function NeedsPassword(): ImportRow -> bool { (r: ImportRow) => r.password == "" }

  /** The credentials handed back are those of the rows without a password, in order. */
  lemma {:induction false} CredentialsInOrder(rows: seq<ImportRow>, temps: nat -> string, k: nat)
    requires k < |rows| && rows[k].password == ""
    ensures |Credentials(rows, temps)| == Count(rows, NeedsPassword())
    ensures var at := Count(rows[..k], NeedsPassword());
      at < |Credentials(rows, temps)| && Credentials(rows, temps)[at] == (rows[k].email, temps(k))
  {
    var n := |rows| - 1;
    CredentialsCount(rows, temps);
    CredentialsCount(rows[..n], temps);
    if k < n {
      CredentialsInOrder(rows[..n], temps, k);
      assert rows[..n][..k] == rows[..k];
    }
  }

  lemma {:induction false} CredentialsCount(rows: seq<ImportRow>, temps: nat -> string)
    ensures |Credentials(rows, temps)| == Count(rows, NeedsPassword())
  {
    if rows != [] { CredentialsCount(rows[..|rows| - 1], temps); }
  }
}
