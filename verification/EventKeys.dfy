/** The strings stored in notifications.event_key. Six places in the program
    build them by concatenation; a row is dropped as a duplicate when the string
    (and the recipient) already exist, so two logical events must never share one. */
module EventKeys {
  import opened Schema
  import opened Notifications

  datatype Table = Trainees | Assignments | Corrections | Journals | Sessions

  /** How a row's UUID and a date are written. */
  datatype Naming = Naming(id: (Table, Id) -> string, date: Date -> string)

  predicate ColonFree(s: string) { forall k :: 0 <= k < |s| ==> s[k] != ':' }

  /** Canonical UUIDs and ISO dates contain no colon, and differ for different
      rows of one table; nothing is asked of names across tables. */
  ghost predicate Canonical(names: Naming) {
    && (forall t, i :: ColonFree(names.id(t, i)))
    && (forall t, i, j :: names.id(t, i) == names.id(t, j) ==> i == j)
    && (forall d :: ColonFree(names.date(d)))
    && (forall d, e :: names.date(d) == names.date(e) ==> d == e)
  }

  // ---- decimal numbers (%d) ----

  function Decimal(n: nat): string {
    if n < 10 then [Digit(n)] else Decimal(n / 10) + [Digit(n % 10)]
  }

  function Digit(n: nat): (c: char)
    requires n < 10
    ensures '0' <= c <= '9' && c as int - '0' as int == n
  {
    ('0' as int + n) as char
  }

  /** What a decimal numeral denotes. */
  function Value(s: string): int {
    if s == "" then 0 else 10 * Value(s[..|s| - 1]) + (s[|s| - 1] as int - '0' as int)
  }

  lemma {:induction false} DecimalDenotes(n: nat)
    ensures Value(Decimal(n)) == n && ColonFree(Decimal(n))
  {
    if n >= 10 {
      DecimalDenotes(n / 10);
      assert Decimal(n)[..|Decimal(n)| - 1] == Decimal(n / 10);
    } else {
      assert Decimal(n)[..0] == "";
    }
  }

  // ---- rendering ----

  function Verb(approved: bool): string { if approved then "approved" else "rejected" }

  function Render(names: Naming, key: EventKey): string {
    match key
    case Completion(t, a) => "completion:" + names.id(Trainees, t) + ":" + names.id(Assignments, a)
    case Decision(c, approved) => "correction:" + names.id(Corrections, c) + ":" + Verb(approved)
    case ReviewNumber(j, n) => "journal:" + names.id(Journals, j) + ":review:" + Decimal(n)
    case OpenReminder(s) => "reminder:open:" + names.id(Sessions, s)
    case JournalReminder(j) => "reminder:journal:" + names.id(Journals, j)
    case AttendanceReminder(a, day) => "reminder:attendance:" + names.id(Assignments, a) + ":" + names.date(day)
  }

  function Fields(names: Naming, key: EventKey): seq<string> {
    match key
    case Completion(t, a) => ["completion", names.id(Trainees, t), names.id(Assignments, a)]
    case Decision(c, approved) => ["correction", names.id(Corrections, c), if approved then "approved" else "rejected"]
    case ReviewNumber(j, n) => ["journal", names.id(Journals, j), "review", Decimal(n)]
    case OpenReminder(s) => ["reminder", "open", names.id(Sessions, s)]
    case JournalReminder(j) => ["reminder", "journal", names.id(Journals, j)]
    case AttendanceReminder(a, day) => ["reminder", "attendance", names.id(Assignments, a), names.date(day)]
  }

  function Join(fields: seq<string>): string
    requires fields != []
  {
    if |fields| == 1 then fields[0] else fields[0] + ":" + Join(fields[1..])
  }

  /** Cut a string at every colon. */
  function Split(s: string): (r: seq<string>)
    ensures r != []
  {
    if s == "" then [""]
    else
      var rest := Split(s[1..]);
      if s[0] == ':' then [""] + rest else [[s[0]] + rest[0]] + rest[1..]
  }

  lemma {:induction false} SplitField(f: string, tail: string)
    requires ColonFree(f)
    ensures Split(f) == [f]
    ensures Split(f + ":" + tail) == [f] + Split(tail)
  {
    if f == "" {
      assert (f + ":" + tail)[1..] == tail;
    } else {
      assert (f + ":" + tail)[1..] == f[1..] + ":" + tail;
      assert f == [f[0]] + f[1..];
      SplitField(f[1..], tail);
    }
  }

  lemma {:induction false} SplitUndoesJoin(fields: seq<string>)
    requires fields != [] && forall k :: 0 <= k < |fields| ==> ColonFree(fields[k])
    ensures Split(Join(fields)) == fields
  {
    if |fields| == 1 {
      SplitField(fields[0], "");
    } else {
      SplitField(fields[0], Join(fields[1..]));
      SplitUndoesJoin(fields[1..]);
    }
  }

  lemma Associate(a: string, b: string, c: string)
    ensures a + (b + c) == a + b + c
  {
  }

  lemma JoinThree(a: string, b: string, c: string)
    ensures Join([a, b, c]) == a + ":" + b + ":" + c
  {
    assert [a, b, c][1..] == [b, c] && [b, c][1..] == [c];
    assert Join([b, c]) == b + ":" + c;
    Associate(a + ":", b + ":", c);
    Associate(a + ":", b, ":");
  }

  lemma JoinFour(a: string, b: string, c: string, d: string)
    ensures Join([a, b, c, d]) == a + ":" + b + ":" + c + ":" + d
  {
    assert [a, b, c, d][1..] == [b, c, d];
    JoinThree(b, c, d);
    Associate(a + ":", b + ":" + c + ":", d);
    Associate(a + ":", b + ":" + c, ":");
    Associate(a + ":", b + ":", c);
    Associate(a + ":", b, ":");
  }

  lemma RenderJoinsFields(names: Naming, key: EventKey)
    ensures Render(names, key) == Join(Fields(names, key))
  {
    match key
    case Completion(t, a) =>
      JoinThree("completion", names.id(Trainees, t), names.id(Assignments, a));
      assert "completion" + ":" == "completion:";
    case Decision(c, approved) =>
      JoinThree("correction", names.id(Corrections, c), Verb(approved));
      assert "correction" + ":" == "correction:";
    case ReviewNumber(j, n) => RenderReviewNumber(names.id(Journals, j), Decimal(n));
    case OpenReminder(s) =>
      JoinThree("reminder", "open", names.id(Sessions, s));
      assert "reminder" + ":" + "open" + ":" == "reminder:open:";
    case JournalReminder(j) =>
      JoinThree("reminder", "journal", names.id(Journals, j));
      assert "reminder" + ":" + "journal" + ":" == "reminder:journal:";
    case AttendanceReminder(a, day) =>
      JoinFour("reminder", "attendance", names.id(Assignments, a), names.date(day));
      assert "reminder" + ":" + "attendance" + ":" == "reminder:attendance:";
  }

  lemma RenderReviewNumber(j: string, n: string)
    ensures Join(["journal", j, "review", n]) == "journal:" + j + ":review:" + n
  {
    JoinFour("journal", j, "review", n);
    assert "journal" + ":" == "journal:" && ":" + "review" + ":" == ":review:";
    var h := "journal:" + j;
    Associate(h, ":", "review");
    Associate(h, ":" + "review", ":");
  }

  lemma FieldsColonFree(names: Naming, key: EventKey)
    requires Canonical(names)
    ensures forall k :: 0 <= k < |Fields(names, key)| ==> ColonFree(Fields(names, key)[k])
  {
    if key.ReviewNumber? { DecimalDenotes(key.number); }
  }

  lemma FieldsDetermineKey(names: Naming, k1: EventKey, k2: EventKey)
    requires Canonical(names) && Fields(names, k1) == Fields(names, k2)
    ensures k1 == k2
  {
    var f, g := Fields(names, k1), Fields(names, k2);
    assert f[0] == g[0] && f[1] == g[1] && f[2] == g[2] && |f| == |g|;
    assert |f| == 4 ==> f[3] == g[3];
    assert "completion"[3] != "correction"[3] && "open" != "journal" && "approved"[0] != "rejected"[0];
    if k1.ReviewNumber? && k2.ReviewNumber? {
      DecimalDenotes(k1.number);
      DecimalDenotes(k2.number);
    }
  }

  /** Two different logical events, of the same kind or of different kinds, never
      share a key string. */
  lemma KeysNeverCollide(names: Naming, k1: EventKey, k2: EventKey)
    requires Canonical(names)
    ensures Render(names, k1) == Render(names, k2) <==> k1 == k2
  {
    if Render(names, k1) == Render(names, k2) {
      RenderJoinsFields(names, k1);
      RenderJoinsFields(names, k2);
      FieldsColonFree(names, k1);
      FieldsColonFree(names, k2);
      SplitUndoesJoin(Fields(names, k1));
      SplitUndoesJoin(Fields(names, k2));
      FieldsDetermineKey(names, k1, k2);
    }
  }
}
