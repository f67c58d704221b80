/** Trainee CSV import: validation of an upload into a snapshot, and the insertion
    of that snapshot in one transaction. */
module Import {
  import opened Common
  import opened Text

  /** strings.ToLower and the database's lower(); they need not be the same
      function, and the unique index uses the second. */
  datatype Locale = Locale(goLower: string -> string, dbLower: string -> string)

  datatype ImportRow = ImportRow(
    email: string, studentNumber: string, displayName: string,
    program: string, yearLevel: string, contactNumber: string, password: string)

  datatype Problem = Required | DuplicateOf(line: nat) | AlreadyExists | TooShort | Malformed

  datatype RowResult = Valid(row: nat, normalized: ImportRow) | Invalid(row: nat, errors: map<string, Problem>)

  datatype Upload = Parsed(rows: seq<ImportRow>, results: seq<RowResult>) | Unreadable | MissingColumn(name: string)

  datatype User = User(email: string, password: string, displayName: string)

  type Id = nat

  datatype Profile = Profile(user: Id, studentNumber: string, program: string, yearLevel: string, contactNumber: string)

  datatype Tables = Tables(users: seq<User>, profiles: seq<Profile>, scopes: set<(Id, Id)>)

  /** Whether the lookup made for a line's email or student number errors. */
  datatype Faults = Faults(email: nat -> bool, student: nat -> bool)

  /** A CSV record as the reader returns it; None is a malformed one. */
  type Record = Option<seq<string>>

  const REQUIRED_HEADERS := ["email", "student_number", "display_name"]
  const ALL_HEADERS := {"email", "student_number", "display_name", "program", "year_level", "contact_number", "password"}

  // ---- columns ----

  function HeaderName(l: Locale, h: string): string { l.goLower(TrimSpace(h)) }

  /** The last column with a name. */
  function ColumnOf(l: Locale, header: seq<string>, name: string): Option<nat> {
    if header == [] then None
    else
      var n := |header| - 1;
      if HeaderName(l, header[n]) == name then Some(n) else ColumnOf(l, header[..n], name)
  }

  method Columns(l: Locale, header: seq<string>) returns (cols: map<string, nat>)
    ensures forall name :: name in cols <==> name in ALL_HEADERS && ColumnOf(l, header, name).Some?
    ensures forall name :: name in cols ==> ColumnOf(l, header, name) == Some(cols[name])
  {
    cols := map[];
    for i := 0 to |header|
      invariant forall name :: name in cols <==> name in ALL_HEADERS && ColumnOf(l, header[..i], name).Some?
      invariant forall name :: name in cols ==> ColumnOf(l, header[..i], name) == Some(cols[name])
    {
      assert header[..i + 1][..i] == header[..i];
      var h := HeaderName(l, header[i]);
      if h in ALL_HEADERS { cols := cols[h := i]; }
    }
    assert header[..|header|] == header;
  }

  function Field(l: Locale, header: seq<string>, rec: seq<string>, name: string): string {
    var i := ColumnOf(l, header, name);
    if i.Some? && i.value < |rec| then TrimSpace(rec[i.value]) else ""
  }

  method Get(l: Locale, header: seq<string>, cols: map<string, nat>, rec: seq<string>, name: string) returns (value: string)
    requires name in ALL_HEADERS
    requires forall n :: n in cols <==> n in ALL_HEADERS && ColumnOf(l, header, n).Some?
    requires forall n :: n in cols ==> ColumnOf(l, header, n) == Some(cols[n])
    ensures value == Field(l, header, rec, name)
  {
    if name in cols && cols[name] < |rec| { return TrimSpace(rec[cols[name]]); }
    return "";
  }

  function Normalize(l: Locale, header: seq<string>, rec: seq<string>): ImportRow {
    ImportRow(l.goLower(Field(l, header, rec, "email")), Field(l, header, rec, "student_number"),
              Field(l, header, rec, "display_name"), Field(l, header, rec, "program"),
              Field(l, header, rec, "year_level"), Field(l, header, rec, "contact_number"),
              Field(l, header, rec, "password"))
  }

  // ---- what makes a line acceptable, stated over the whole file ----

  function HasEmail(l: Locale, header: seq<string>, email: string): Record -> bool {
    (rec: Record) => rec.Some? && Normalize(l, header, rec.value).email == email
  }

  function HasStudent(l: Locale, header: seq<string>, student: string): Record -> bool {
    (rec: Record) => rec.Some? && Normalize(l, header, rec.value).studentNumber == student
  }

  function SameEmail(l: Locale, email: string): User -> bool { (u: User) => l.dbLower(u.email) == l.dbLower(email) }

  function SameStudent(student: string): Profile -> bool { (p: Profile) => p.studentNumber == student }

  predicate EmailTaken(l: Locale, t: Tables, email: string) { Find(t.users, SameEmail(l, email)).Some? }

  predicate StudentTaken(t: Tables, student: string) { Find(t.profiles, SameStudent(student)).Some? }

  /** The line a record is reported under: the header is line 1. */
  function LineOf(k: nat): nat { k + 2 }

  function EmailProblem(l: Locale, t: Tables, f: Faults, header: seq<string>, recs: seq<Record>, k: nat, row: ImportRow): Option<Problem>
    requires k < |recs|
  {
    var first := Find(recs[..k], HasEmail(l, header, row.email));
    if '@' !in row.email then Some(Required)
    else if first.Some? then Some(DuplicateOf(LineOf(first.value)))
    else if !f.email(LineOf(k)) && EmailTaken(l, t, row.email) then Some(AlreadyExists)
    else None
  }

  function StudentProblem(l: Locale, t: Tables, f: Faults, header: seq<string>, recs: seq<Record>, k: nat, row: ImportRow): Option<Problem>
    requires k < |recs|
  {
    var first := Find(recs[..k], HasStudent(l, header, row.studentNumber));
    if row.studentNumber == "" then Some(Required)
    else if first.Some? then Some(DuplicateOf(LineOf(first.value)))
    else if !f.student(LineOf(k)) && StudentTaken(t, row.studentNumber) then Some(AlreadyExists)
    else None
  }

  function NameProblem(row: ImportRow): Option<Problem> { if row.displayName == "" then Some(Required) else None }

  function PasswordProblem(row: ImportRow): Option<Problem> {
    if row.password != "" && ByteLength(row.password) < 8 then Some(TooShort) else None
  }

  function WithProblem(errors: map<string, Problem>, field: string, p: Option<Problem>): map<string, Problem> {
    if p.Some? then errors[field := p.value] else errors
  }

  function Verdict(line: nat, row: ImportRow, email: Option<Problem>, student: Option<Problem>): RowResult {
    var errors := WithProblem(WithProblem(WithProblem(WithProblem(map[], "email", email), "student_number", student),
                       "display_name", NameProblem(row)), "password", PasswordProblem(row));
    if errors == map[] then Valid(line, row) else Invalid(line, errors)
  }

  function ResultOf(l: Locale, t: Tables, f: Faults, header: seq<string>, recs: seq<Record>, k: nat): RowResult
    requires k < |recs|
  {
    if recs[k].None? then Invalid(LineOf(k), map["row" := Malformed])
    else
      var row := Normalize(l, header, recs[k].value);
      Verdict(LineOf(k), row, EmailProblem(l, t, f, header, recs, k, row), StudentProblem(l, t, f, header, recs, k, row))
  }

  function ValidRows(results: seq<RowResult>): seq<ImportRow> {
    if results == [] then []
    else
      var n := |results| - 1;
      ValidRows(results[..n]) + (if results[n].Valid? then [results[n].normalized] else [])
  }

  ghost predicate Remembers(seen: map<string, nat>, recs: seq<Record>, k: nat, has: string -> Record -> bool, ok: string -> bool)
    requires k <= |recs|
  {
    && (forall s :: s in seen <==> ok(s) && Find(recs[..k], has(s)).Some?)
    && (forall s :: s in seen ==> Find(recs[..k], has(s)).Some? && seen[s] == LineOf(Find(recs[..k], has(s)).value))
  }

  function Emails(l: Locale, header: seq<string>): string -> Record -> bool { (s: string) => HasEmail(l, header, s) }

  function Students(l: Locale, header: seq<string>): string -> Record -> bool { (s: string) => HasStudent(l, header, s) }

  function IsEmail(): string -> bool { (s: string) => '@' in s }

  function IsNumber(): string -> bool { (s: string) => s != "" }

  lemma FindNext<T>(s: seq<T>, k: nat, p: T -> bool)
    requires k < |s|
    ensures Find(s[..k + 1], p) == if Find(s[..k], p).Some? then Find(s[..k], p) else if p(s[k]) then Some(k) else None
  {
    assert s[..k + 1][..k] == s[..k];
  }

  /** One more record: the seen map grows by its value when that is new and well formed. */
  lemma RemembersNext(seen: map<string, nat>, recs: seq<Record>, k: nat, has: string -> Record -> bool, ok: string -> bool,
                      value: Option<string>, after: map<string, nat>)
    requires k < |recs| && Remembers(seen, recs, k, has, ok)
    requires forall s :: has(s)(recs[k]) <==> value == Some(s)
    requires after == if value.Some? && ok(value.value) && value.value !in seen then seen[value.value := LineOf(k)] else seen
    ensures Remembers(after, recs, k + 1, has, ok)
  {
    forall s
      ensures s in after <==> ok(s) && Find(recs[..k + 1], has(s)).Some?
      ensures s in after ==> Find(recs[..k + 1], has(s)).Some? && after[s] == LineOf(Find(recs[..k + 1], has(s)).value)
    {
      FindNext(recs, k, has(s));
    }
  }

  // ---- parsing ----

  /** Every record after the header yields exactly one result, numbered from 2; the
      accepted rows are the valid results in order. */
  method ParseAndValidate(l: Locale, t: Tables, f: Faults, header: Option<seq<string>>, recs: seq<Record>) returns (up: Upload)
    ensures up.Unreadable? <==> header.None?
    ensures up.MissingColumn? ==> header.Some? && up.name in REQUIRED_HEADERS && ColumnOf(l, header.value, up.name).None?
    ensures up.Parsed? <==> header.Some? && HasRequired(l, header.value)
    ensures header.Some? ==> FirstAbsent(l, header.value, if up.MissingColumn? then Some(up.name) else None)
    ensures up.Parsed? ==>
      up.rows == ValidRows(up.results) && Judged(l, t, f, header.value, recs, up.results, |recs|)
  {
    if header.None? { return Unreadable; }
    var cols := Columns(l, header.value);
    var missing := FirstMissing(l, header.value, cols);
    if missing.Some? { return MissingColumn(missing.value); }
    up := ParseRecords(l, t, f, header.value, cols, recs);
  }

  /** The first of the three required columns that is not there, if any. */
  predicate FirstAbsent(l: Locale, header: seq<string>, name: Option<string>) {
    var email, student, display := ColumnOf(l, header, "email"), ColumnOf(l, header, "student_number"), ColumnOf(l, header, "display_name");
    && (name == Some("email") <==> email.None?)
    && (name == Some("student_number") <==> email.Some? && student.None?)
    && (name == Some("display_name") <==> email.Some? && student.Some? && display.None?)
    && (name.None? <==> email.Some? && student.Some? && display.Some?)
  }

  predicate HasRequired(l: Locale, header: seq<string>) {
    forall i :: 0 <= i < |REQUIRED_HEADERS| ==> ColumnOf(l, header, REQUIRED_HEADERS[i]).Some?
  }

  lemma AbsentAt(l: Locale, header: seq<string>, i: nat)
    requires i < 3 && ColumnOf(l, header, REQUIRED_HEADERS[i]).None?
    requires forall j :: 0 <= j < i ==> ColumnOf(l, header, REQUIRED_HEADERS[j]).Some?
    ensures FirstAbsent(l, header, Some(REQUIRED_HEADERS[i]))
  {
    var names := REQUIRED_HEADERS;
    assert names[0] == "email" && names[1] == "student_number" && names[2] == "display_name";
    assert names[0][0] == 'e' && names[1][0] == 's' && names[2][0] == 'd';
  }

  method FirstMissing(l: Locale, header: seq<string>, cols: map<string, nat>) returns (missing: Option<string>)
    requires forall n :: n in cols <==> n in ALL_HEADERS && ColumnOf(l, header, n).Some?
    ensures missing.None? <==> HasRequired(l, header)
    ensures missing.Some? ==> missing.value in REQUIRED_HEADERS && ColumnOf(l, header, missing.value).None?
    ensures FirstAbsent(l, header, missing)
  {
    var names := REQUIRED_HEADERS;
    assert forall i :: 0 <= i < |names| ==> names[i] in ALL_HEADERS;
    for i := 0 to |names|
      invariant forall j :: 0 <= j < i ==> ColumnOf(l, header, names[j]).Some?
    {
      if names[i] !in cols {
        AbsentAt(l, header, i);
        return Some(names[i]);
      }
    }
    assert names[0] == "email" && names[1] == "student_number" && names[2] == "display_name";
    return None;
  }

  lemma JudgedNext(l: Locale, t: Tables, f: Faults, header: seq<string>, recs: seq<Record>, results: seq<RowResult>, result: RowResult, k: nat)
    requires k < |recs| && Judged(l, t, f, header, recs, results, k)
    requires result == ResultOf(l, t, f, header, recs, k) && result.row == LineOf(k)
    ensures Judged(l, t, f, header, recs, results + [result], k + 1)
    ensures ValidRows(results + [result]) == ValidRows(results) + (if result.Valid? then [result.normalized] else [])
  {
    assert (results + [result])[..k] == results;
  }

  method ParseRecords(l: Locale, t: Tables, f: Faults, header: seq<string>, cols: map<string, nat>, recs: seq<Record>)
    returns (up: Upload)
    requires forall n :: n in cols <==> n in ALL_HEADERS && ColumnOf(l, header, n).Some?
    requires forall n :: n in cols ==> ColumnOf(l, header, n) == Some(cols[n])
    ensures up.Parsed? && up.rows == ValidRows(up.results)
    ensures Judged(l, t, f, header, recs, up.results, |recs|)
  {
    var rows: seq<ImportRow>, results: seq<RowResult> := [], [];
    var seenEmail: map<string, nat>, seenStudent: map<string, nat> := map[], map[];
    var line := 1;
    for k := 0 to |recs|
      invariant line == k + 1 && rows == ValidRows(results)
      invariant Judged(l, t, f, header, recs, results, k)
      invariant Remembers(seenEmail, recs, k, Emails(l, header), IsEmail())
      invariant Remembers(seenStudent, recs, k, Students(l, header), IsNumber())
    {
      line := line + 1;
      var result;
      result, seenEmail, seenStudent := JudgeRecord(l, t, f, header, cols, recs, k, line, seenEmail, seenStudent);
      JudgedNext(l, t, f, header, recs, results, result, k);
      if result.Valid? { rows := rows + [result.normalized]; }
      results := results + [result];
    }
    return Parsed(rows, results);
  }

  method JudgeRecord(l: Locale, t: Tables, f: Faults, header: seq<string>, cols: map<string, nat>, recs: seq<Record>,
                     k: nat, line: nat, seenEmail: map<string, nat>, seenStudent: map<string, nat>)
    returns (result: RowResult, emails: map<string, nat>, students: map<string, nat>)
    requires forall n :: n in cols <==> n in ALL_HEADERS && ColumnOf(l, header, n).Some?
    requires forall n :: n in cols ==> ColumnOf(l, header, n) == Some(cols[n])
    requires k < |recs| && line == LineOf(k)
    requires Remembers(seenEmail, recs, k, Emails(l, header), IsEmail())
    requires Remembers(seenStudent, recs, k, Students(l, header), IsNumber())
    ensures result == ResultOf(l, t, f, header, recs, k) && result.row == line
    ensures Remembers(emails, recs, k + 1, Emails(l, header), IsEmail())
    ensures Remembers(students, recs, k + 1, Students(l, header), IsNumber())
  {
    if recs[k].None? {
      RemembersNext(seenEmail, recs, k, Emails(l, header), IsEmail(), None, seenEmail);
      RemembersNext(seenStudent, recs, k, Students(l, header), IsNumber(), None, seenStudent);
      return Invalid(line, map["row" := Malformed]), seenEmail, seenStudent;
    }
    var row := ReadRow(l, header, cols, recs[k].value);
    var emailProblem, studentProblem;
    emailProblem, emails := CheckEmail(l, t, f, header, recs, k, line, row, seenEmail);
    studentProblem, students := CheckStudent(l, t, f, header, recs, k, line, row, seenStudent);
    result := Verdict(line, row, emailProblem, studentProblem);
  }

  ghost predicate Judged(l: Locale, t: Tables, f: Faults, header: seq<string>, recs: seq<Record>, results: seq<RowResult>, n: nat) {
    && |results| == n <= |recs|
    && forall k :: 0 <= k < n ==> results[k] == ResultOf(l, t, f, header, recs, k) && results[k].row == LineOf(k)
  }

  method CheckEmail(l: Locale, t: Tables, f: Faults, header: seq<string>, recs: seq<Record>, k: nat, line: nat, row: ImportRow,
                    seen: map<string, nat>) returns (problem: Option<Problem>, seenNow: map<string, nat>)
    requires k < |recs| && line == LineOf(k) && recs[k].Some? && row == Normalize(l, header, recs[k].value)
    requires Remembers(seen, recs, k, Emails(l, header), IsEmail())
    ensures problem == EmailProblem(l, t, f, header, recs, k, row)
    ensures Remembers(seenNow, recs, k + 1, Emails(l, header), IsEmail())
  {
    problem, seenNow := None, seen;
    assert Emails(l, header)(row.email) == HasEmail(l, header, row.email);
    if row.email == "" || '@' !in row.email {
      problem := Some(Required);
    } else if row.email in seen {
      problem := Some(DuplicateOf(seen[row.email]));
    } else {
      if !f.email(line) && EmailTaken(l, t, row.email) { problem := Some(AlreadyExists); }
      seenNow := seen[row.email := line];
    }
    RemembersNext(seen, recs, k, Emails(l, header), IsEmail(), Some(row.email), seenNow);
  }

  method CheckStudent(l: Locale, t: Tables, f: Faults, header: seq<string>, recs: seq<Record>, k: nat, line: nat, row: ImportRow,
                      seen: map<string, nat>) returns (problem: Option<Problem>, seenNow: map<string, nat>)
    requires k < |recs| && line == LineOf(k) && recs[k].Some? && row == Normalize(l, header, recs[k].value)
    requires Remembers(seen, recs, k, Students(l, header), IsNumber())
    ensures problem == StudentProblem(l, t, f, header, recs, k, row)
    ensures Remembers(seenNow, recs, k + 1, Students(l, header), IsNumber())
  {
    problem, seenNow := None, seen;
    assert Students(l, header)(row.studentNumber) == HasStudent(l, header, row.studentNumber);
    if row.studentNumber == "" {
      problem := Some(Required);
    } else if row.studentNumber in seen {
      problem := Some(DuplicateOf(seen[row.studentNumber]));
    } else {
      if !f.student(line) && StudentTaken(t, row.studentNumber) { problem := Some(AlreadyExists); }
      seenNow := seen[row.studentNumber := line];
    }
    RemembersNext(seen, recs, k, Students(l, header), IsNumber(), Some(row.studentNumber), seenNow);
  }

  method ReadRow(l: Locale, header: seq<string>, cols: map<string, nat>, rec: seq<string>) returns (row: ImportRow)
    requires forall n :: n in cols <==> n in ALL_HEADERS && ColumnOf(l, header, n).Some?
    requires forall n :: n in cols ==> ColumnOf(l, header, n) == Some(cols[n])
    ensures row == Normalize(l, header, rec)
  {
    var email := Get(l, header, cols, rec, "email");
    var student := Get(l, header, cols, rec, "student_number");
    var name := Get(l, header, cols, rec, "display_name");
    var program := Get(l, header, cols, rec, "program");
    var year := Get(l, header, cols, rec, "year_level");
    var contact := Get(l, header, cols, rec, "contact_number");
    var password := Get(l, header, cols, rec, "password");
    return ImportRow(l.goLower(email), student, name, program, year, contact, password);
  }

  // ---- what acceptance means ----

  lemma AcceptedMeans(l: Locale, t: Tables, f: Faults, header: seq<string>, recs: seq<Record>, k: nat)
    requires k < |recs|
    ensures ResultOf(l, t, f, header, recs, k).Valid? <==>
      && recs[k].Some?
      && var row := Normalize(l, header, recs[k].value);
         && EmailProblem(l, t, f, header, recs, k, row).None? && StudentProblem(l, t, f, header, recs, k, row).None?
         && NameProblem(row).None? && PasswordProblem(row).None?
    ensures ResultOf(l, t, f, header, recs, k).Valid? ==>
      ResultOf(l, t, f, header, recs, k).normalized == Normalize(l, header, recs[k].value)
  {
    if recs[k].Some? {
      var row := Normalize(l, header, recs[k].value);
      VerdictIsValid(LineOf(k), row, EmailProblem(l, t, f, header, recs, k, row), StudentProblem(l, t, f, header, recs, k, row));
    }
  }

  lemma VerdictIsValid(line: nat, row: ImportRow, email: Option<Problem>, student: Option<Problem>)
    ensures Verdict(line, row, email, student).Valid? <==>
      email.None? && student.None? && NameProblem(row).None? && PasswordProblem(row).None?
  {
    var e1 := WithProblem(map[], "email", email);
    var e2 := WithProblem(e1, "student_number", student);
    var e3 := WithProblem(e2, "display_name", NameProblem(row));
    var e4 := WithProblem(e3, "password", PasswordProblem(row));
    assert email.Some? ==> "email" in e1 && "email" in e2 && "email" in e3 && "email" in e4;
    assert student.Some? ==> "student_number" in e2 && "student_number" in e3 && "student_number" in e4;
    assert NameProblem(row).Some? ==> "display_name" in e3 && "display_name" in e4;
    assert PasswordProblem(row).Some? ==> "password" in e4;
  }

  /** The row is not in the tables, as far as the two lookups could tell. */
  predicate Unlisted(l: Locale, t: Tables, f: Faults, k: nat, row: ImportRow) {
    && (EmailTaken(l, t, row.email) ==> f.email(LineOf(k)))
    && (StudentTaken(t, row.studentNumber) ==> f.student(LineOf(k)))
  }

  /** Two accepted lines differ in lower-cased email and in student number. */
  lemma AcceptedLinesDiffer(l: Locale, t: Tables, f: Faults, header: seq<string>, recs: seq<Record>, j: nat, k: nat)
    requires j < k < |recs|
    requires ResultOf(l, t, f, header, recs, j).Valid? && ResultOf(l, t, f, header, recs, k).Valid?
    ensures var a, b := ResultOf(l, t, f, header, recs, j).normalized, ResultOf(l, t, f, header, recs, k).normalized;
      a.email != b.email && a.studentNumber != b.studentNumber
  {
    AcceptedMeans(l, t, f, header, recs, j);
    AcceptedMeans(l, t, f, header, recs, k);
    var row := Normalize(l, header, recs[k].value);
    assert recs[..k][j] == recs[j];
    assert !HasEmail(l, header, row.email)(recs[..k][j]) && !HasStudent(l, header, row.studentNumber)(recs[..k][j]);
  }

  ghost predicate FromLine(results: seq<RowResult>, k: nat, row: ImportRow) {
    k < |results| && results[k].Valid? && results[k].normalized == row
  }

  lemma {:induction false} RowsComeFromLines(results: seq<RowResult>, row: ImportRow)
    ensures row in ValidRows(results) <==> exists k: nat :: FromLine(results, k, row)
  {
    if results != [] {
      var n := |results| - 1;
      RowsComeFromLines(results[..n], row);
      if k: nat :| FromLine(results, k, row) && k < n { assert FromLine(results[..n], k, row); }
      if k: nat :| FromLine(results[..n], k, row) { assert FromLine(results, k, row); }
      if results[n].Valid? && results[n].normalized == row { assert FromLine(results, n, row); }
    }
  }

  ghost predicate DistinctRows(rows: seq<ImportRow>) {
    forall i, j :: 0 <= i < j < |rows| ==> rows[i].email != rows[j].email && rows[i].studentNumber != rows[j].studentNumber
  }

  lemma {:induction false} AcceptedRowsDistinct(l: Locale, t: Tables, f: Faults, header: seq<string>, recs: seq<Record>, results: seq<RowResult>)
    requires Judged(l, t, f, header, recs, results, |results|)
    ensures DistinctRows(ValidRows(results))
  {
    if results != [] {
      var n := |results| - 1;
      AcceptedRowsDistinct(l, t, f, header, recs, results[..n]);
      var before := ValidRows(results[..n]);
      if results[n].Valid? {
        forall i | 0 <= i < |before|
          ensures before[i].email != results[n].normalized.email && before[i].studentNumber != results[n].normalized.studentNumber
        {
          RowsComeFromLines(results[..n], before[i]);
          var j: nat :| FromLine(results[..n], j, before[i]);
          AcceptedLinesDiffer(l, t, f, header, recs, j, n);
        }
      }
    }
  }

  /** A stored email or number reaches the accepted rows only past a failed lookup. */
  lemma AcceptedIsUnlisted(l: Locale, t: Tables, f: Faults, header: seq<string>, recs: seq<Record>, k: nat)
    requires k < |recs| && ResultOf(l, t, f, header, recs, k).Valid?
    ensures Unlisted(l, t, f, k, ResultOf(l, t, f, header, recs, k).normalized)
  {
    AcceptedMeans(l, t, f, header, recs, k);
  }
}
