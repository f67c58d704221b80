/** The migration runner. Up applies the *.up.sql files in file-name order, each in
    its own transaction; Down reverts the version the database sorts last. The two
    orders are computed in different places and need not be the same order. */
module Migrations {
  import opened Common

  const UP := ".up.sql"
  const DOWN := ".down.sql"

  /** Executing a script either changes the schema or fails and is rolled back. */
  type Script<!S> = S -> Option<S>

  /** The embedded directory: its file names and what can be read from it. */
  datatype Files<!S> = Files(entries: seq<string>, read: map<string, Script<S>>)

  /** The schema and the rows of schema_migrations. */
  datatype Database<S> = Database(schema: S, applied: seq<string>)

  // ---- byte order of names ----

  predicate Below(a: string, b: string) {
    b != "" && (a == "" || a[0] < b[0] || (a[0] == b[0] && Below(a[1..], b[1..])))
  }

  lemma {:induction false} BelowIsTotal(a: string, b: string)
    ensures !Below(a, a)
    ensures Below(a, b) ==> !Below(b, a)
    ensures a == b || Below(a, b) || Below(b, a)
  {
    if a != "" {
      BelowIsTotal(a[1..], if b == "" then "" else b[1..]);
      if b != "" && a[0] == b[0] && a[1..] == b[1..] {
        assert a == [a[0]] + a[1..] && b == [b[0]] + b[1..];
      }
    }
  }

  lemma {:induction false} BelowIsTransitive(a: string, b: string, c: string)
    requires Below(a, b) && Below(b, c)
    ensures Below(a, c)
  {
    if a != "" && a[0] == b[0] == c[0] {
      BelowIsTransitive(a[1..], b[1..], c[1..]);
    }
  }

  /** A strict total order, such as the collation of a text column. */
  ghost predicate TotalOrder(less: (string, string) -> bool) {
    && (forall a, b :: less(a, b) ==> !less(b, a))
    && (forall a, b :: a == b || less(a, b) || less(b, a))
    && (forall a, b, c :: less(a, b) && less(b, c) ==> less(a, c))
  }

  lemma ByteOrderIsTotal()
    ensures TotalOrder(Below)
  {
    forall a, b ensures Below(a, b) ==> !Below(b, a) { BelowIsTotal(a, b); }
    forall a, b ensures a == b || Below(a, b) || Below(b, a) { BelowIsTotal(a, b); }
    forall a, b, c | Below(a, b) && Below(b, c) ensures Below(a, c) { BelowIsTransitive(a, b, c); }
  }

  ghost predicate Ascending(s: seq<string>, less: (string, string) -> bool) {
    forall i, j :: 0 <= i < j < |s| ==> less(s[i], s[j])
  }

  // ---- the list of migrations ----

  function HasSuffix(s: string, suffix: string): bool { |suffix| <= |s| && s[|s| - |suffix|..] == suffix }

  function Version(name: string): string { if HasSuffix(name, UP) then name[..|name| - |UP|] else name }

  function UpNames(entries: seq<string>): (r: seq<string>)
    ensures forall n :: n in r <==> n in entries && HasSuffix(n, UP)
  {
    if entries == [] then []
    else
      var n := |entries| - 1;
      var r := UpNames(entries[..n]);
      assert entries == entries[..n] + [entries[n]];
      if HasSuffix(entries[n], UP) then r + [entries[n]] else r
  }

  predicate InOrder(s: seq<string>) { forall i, j :: 0 <= i < j < |s| ==> !Below(s[j], s[i]) }

  function Insert(s: seq<string>, x: string): (r: seq<string>)
    requires InOrder(s)
    ensures InOrder(r) && multiset(r) == multiset(s) + multiset{x}
    ensures forall n :: n in r <==> n in s || n == x
  {
    if s == [] then [x]
    else
      var n := |s| - 1;
      assert s == s[..n] + [s[n]];
      if Below(x, s[n]) then
        var r := Insert(s[..n], x);
        LastStaysLast(s[..n], r, x, s[n]);
        r + [s[n]]
      else
        NotBelowAny(s, x);
        s + [x]
  }

  lemma LastStaysLast(s: seq<string>, r: seq<string>, x: string, last: string)
    requires InOrder(s + [last]) && InOrder(r) && Below(x, last) && forall n :: n in r <==> n in s || n == x
    ensures InOrder(r + [last])
  {
    forall i | 0 <= i < |r| ensures !Below(last, r[i]) {
      BelowIsTotal(x, last);
      assert r[i] in r;
      if r[i] != x {
        var k :| 0 <= k < |s| && s[k] == r[i];
        assert (s + [last])[k] == s[k] && (s + [last])[|s|] == last;
      }
    }
  }

  /** Past the last name of a sorted list, x is past every one. */
  lemma NotBelowAny(s: seq<string>, x: string)
    requires InOrder(s) && s != [] && !Below(x, s[|s| - 1])
    ensures forall i :: 0 <= i < |s| ==> !Below(x, s[i])
  {
    var n := |s| - 1;
    forall i | 0 <= i < n ensures !Below(x, s[i]) {
      if Below(x, s[i]) {
        BelowIsTotal(s[i], s[n]);
        if s[i] != s[n] { BelowIsTransitive(x, s[i], s[n]); }
      }
    }
  }

  /** sort.Strings */
  function Sort(s: seq<string>): (r: seq<string>)
    ensures InOrder(r) && multiset(r) == multiset(s)
  {
    if s == [] then []
    else
      var n := |s| - 1;
      assert s == s[..n] + [s[n]];
      Insert(Sort(s[..n]), s[n])
  }

  function Names<S>(fs: Files<S>): seq<string> { Sort(UpNames(fs.entries)) }

  function Versions<S>(fs: Files<S>): (r: seq<string>)
    ensures |r| == |Names(fs)|
  {
    seq(|Names(fs)|, k requires 0 <= k < |Names(fs)| => Version(Names(fs)[k]))
  }

  // ---- Up and Down on values ----

  /** The rest of an Up run: `done` is the applied set it read first, and the
      connection is lost after `healthy` more transactions. */
  function UpFrom<S>(fs: Files<S>, names: seq<string>, done: seq<string>, d: Database<S>, healthy: nat)
    : (Database<S>, seq<string>, bool)
    decreases |names|
  {
    if names == [] then (d, [], true)
    else
      var v := Version(names[0]);
      if v in done then UpFrom(fs, names[1..], done, d, healthy)
      else if names[0] !in fs.read || healthy == 0 || v in d.applied then (d, [], false)
      else
        var schema := fs.read[names[0]](d.schema);
        if schema.None? then (d, [], false)
        else
          var rest := UpFrom(fs, names[1..], done, Database(schema.value, d.applied + [v]), healthy - 1);
          (rest.0, [v] + rest.1, rest.2)
  }

  function UpRun<S>(fs: Files<S>, d: Database<S>, healthy: nat): (Database<S>, seq<string>, bool) {
    UpFrom(fs, Names(fs), d.applied, d, healthy)
  }

  /** ORDER BY version DESC LIMIT 1 */
  function Greatest(applied: seq<string>, less: (string, string) -> bool): Option<string> {
    if applied == [] then None
    else
      var n := |applied| - 1;
      var g := Greatest(applied[..n], less);
      if g.Some? && less(applied[n], g.value) then g else Some(applied[n])
  }

  function Without(s: seq<string>, v: string): seq<string> {
    if s == [] then []
    else Without(s[..|s| - 1], v) + (if s[|s| - 1] == v then [] else [s[|s| - 1]])
  }

  function DownRun<S>(fs: Files<S>, less: (string, string) -> bool, d: Database<S>, connected: bool)
    : (Database<S>, Option<string>)
  {
    var v := Greatest(d.applied, less);
    if v.None? || v.value + DOWN !in fs.read || !connected then (d, None)
    else
      var schema := fs.read[v.value + DOWN](d.schema);
      if schema.None? then (d, None) else (Database(schema.value, Without(d.applied, v.value)), v)
  }

  // ---- the runner ----

  class Migrator<S(!new)> {
    const fs: Files<S>
    const collation: (string, string) -> bool
    var schema: S
    var applied: seq<string>

    constructor (fs: Files<S>, collation: (string, string) -> bool, schema: S)
      ensures this.fs == fs && this.collation == collation && State() == Database(schema, [])
    {
      this.fs, this.collation, this.schema, this.applied := fs, collation, schema, [];
    }

    function State(): Database<S>
      reads this
    {
      Database(schema, applied)
    }

    method Up(connection: nat) returns (ran: seq<string>, ok: bool)
      modifies this
      ensures (State(), ran, ok) == UpRun(fs, old(State()), connection)
    {
      var done := applied;
      var names := Sort(UpNames(fs.entries));
      var healthy := connection;
      ran := [];
      var k := 0;
      assert names[0..] == names;
      ghost var whole := UpFrom(fs, names, done, State(), healthy);
      assert [] + whole.1 == whole.1;
      while k < |names|
        invariant 0 <= k <= |names|
        invariant var rest := UpFrom(fs, names[k..], done, State(), healthy);
                  UpRun(fs, old(State()), connection) == (rest.0, ran + rest.1, rest.2)
      {
        assert names[k..][1..] == names[k + 1..];
        var version := Version(names[k]);
        if version in done {
          k := k + 1;
          continue;
        }
        assert ran + [] == ran;
        if names[k] !in fs.read || healthy == 0 || version in applied { return ran, false; }
        var changed := fs.read[names[k]](schema);
        if changed.None? { return ran, false; }
        ghost var rest := UpFrom(fs, names[k + 1..], done, Database(changed.value, applied + [version]), healthy - 1);
        assert ran + ([version] + rest.1) == (ran + [version]) + rest.1;
        schema, applied, healthy := changed.value, applied + [version], healthy - 1;
        ran := ran + [version];
        k := k + 1;
      }
      assert ran + [] == ran;
      return ran, true;
    }

    method Down(connected: bool) returns (reverted: Option<string>)
      modifies this
      ensures (State(), reverted) == DownRun(fs, collation, old(State()), connected)
    {
      var version := Greatest(applied, collation);
      if version.None? { return None; }
      var name := version.value + DOWN;
      if name !in fs.read || !connected { return None; }
      var changed := fs.read[name](schema);
      if changed.None? { return None; }
      schema, applied := changed.value, Without(applied, version.value);
      return version;
    }
  }

  // ---- Up is resumable ----

  function Pending(names: seq<string>, done: seq<string>): seq<string> {
    if names == [] then []
    else (if Version(names[0]) in done then [] else [Version(names[0])]) + Pending(names[1..], done)
  }

  ghost predicate DistinctVersions(names: seq<string>) {
    forall i, j :: 0 <= i < j < |names| ==> Version(names[i]) != Version(names[j])
  }

  /** What one Up run does: it appends what it ran, an initial stretch of what was
      pending, and all of it when it succeeds. */
  lemma {:induction false} UpAppendsRan<S>(fs: Files<S>, names: seq<string>, done: seq<string>, d: Database<S>, healthy: nat)
    ensures var (after, ran, ok) := UpFrom(fs, names, done, d, healthy);
      && after.applied == d.applied + ran && ran <= Pending(names, done) && (ok ==> ran == Pending(names, done))
      && (ran == [] ==> after == d)
    decreases |names|
  {
    if names != [] {
      var v := Version(names[0]);
      UpAppendsRan(fs, names[1..], done, d, healthy);
      if healthy > 0 && names[0] in fs.read && fs.read[names[0]](d.schema).Some? {
        var next := Database(fs.read[names[0]](d.schema).value, d.applied + [v]);
        UpAppendsRan(fs, names[1..], done, next, healthy - 1);
        var (after, ran, ok) := UpFrom(fs, names[1..], done, next, healthy - 1);
        assert d.applied + [v] + ran == d.applied + ([v] + ran);
      }
    }
  }

  lemma {:induction false} PendingCovers(names: seq<string>, done: seq<string>)
    ensures forall k :: 0 <= k < |names| ==> Version(names[k]) in done + Pending(names, done)
    decreases |names|
  {
    if names != [] {
      PendingCovers(names[1..], done);
      assert forall k :: 1 <= k < |names| ==> names[k] == names[1..][k - 1];
    }
  }

  lemma UpAfterUpRunsNothing<S>(fs: Files<S>, d: Database<S>, healthy: nat, again: nat)
    requires UpRun(fs, d, healthy).2
    ensures UpRun(fs, UpRun(fs, d, healthy).0, again) == (UpRun(fs, d, healthy).0, [], true)
  {
    UpAppendsRan(fs, Names(fs), d.applied, d, healthy);
    PendingCovers(Names(fs), d.applied);
    var after := UpRun(fs, d, healthy).0;
    SkipsApplied(fs, Names(fs), after.applied, after, again);
  }

  lemma {:induction false} SkipsApplied<S>(fs: Files<S>, names: seq<string>, done: seq<string>, d: Database<S>, healthy: nat)
    requires forall k :: 0 <= k < |names| ==> Version(names[k]) in done
    ensures UpFrom(fs, names, done, d, healthy) == (d, [], true)
    decreases |names|
  {
    if names != [] {
      assert forall k :: 1 <= k < |names| ==> names[k] == names[1..][k - 1];
      SkipsApplied(fs, names[1..], done, d, healthy);
    }
  }

  /** A run that failed part-way and one more that gets through do together what a
      single healthy run does: the same scripts, once each, in the same order. */
  lemma UpResumes<S>(fs: Files<S>, d: Database<S>, h1: nat, h2: nat)
    requires DistinctVersions(Names(fs))
    ensures var first := UpRun(fs, d, h1);
            var second := UpRun(fs, first.0, h2);
            second.2 ==> UpRun(fs, d, h1 + h2) == (second.0, first.1 + second.1, true)
    ensures var first := UpRun(fs, d, h1);
            var second := UpRun(fs, first.0, h2);
            second.2 ==> first.1 + second.1 == Pending(Names(fs), d.applied)
  {
    var first := UpRun(fs, d, h1);
    ResumeFrom(fs, Names(fs), d.applied, d, h1, h2);
    UpAppendsRan(fs, Names(fs), d.applied, d, h1 + h2);
  }

  lemma {:induction false} ResumeFrom<S>(fs: Files<S>, names: seq<string>, done: seq<string>, d: Database<S>, h1: nat, h2: nat)
    requires DistinctVersions(names)
    requires forall k :: 0 <= k < |names| ==> (Version(names[k]) in done <==> Version(names[k]) in d.applied)
    ensures var first := UpFrom(fs, names, done, d, h1);
            var second := UpFrom(fs, names, first.0.applied, first.0, h2);
            second.2 ==> UpFrom(fs, names, done, d, h1 + h2) == (second.0, first.1 + second.1, true)
    decreases |names|
  {
    if names == [] {
      var ran := UpFrom(fs, names, done, d, h1).1;
      assert ran + ran == ran;
      return;
    }
    var v := Version(names[0]);
    assert forall k :: 1 <= k < |names| ==> names[k] == names[1..][k - 1];
    if v in done {
      UpAppendsRan(fs, names[1..], done, d, h1);
      ResumeFrom(fs, names[1..], done, d, h1, h2);
      assert v in UpFrom(fs, names[1..], done, d, h1).0.applied;
    } else if h1 > 0 && names[0] in fs.read && fs.read[names[0]](d.schema).Some? {
      var next := Database(fs.read[names[0]](d.schema).value, d.applied + [v]);
      UpAppendsRan(fs, names[1..], done, next, h1 - 1);
      assert forall k :: 0 <= k < |names[1..]| ==> (Version(names[1..][k]) in done <==> Version(names[1..][k]) in next.applied);
      ResumeFrom(fs, names[1..], done, next, h1 - 1, h2);
      ResumeRan(fs, names, done, d, next, h1, h2);
    } else {
      var second := UpFrom(fs, names, d.applied, d, h2);
      assert [] + second.1 == second.1;
      MoreHealth(fs, names, done, d.applied, d, h2, h1 + h2);
    }
  }

  /** The first file ran; the rest resumes. */
  lemma ResumeRan<S>(fs: Files<S>, names: seq<string>, done: seq<string>, d: Database<S>, next: Database<S>, h1: nat, h2: nat)
    requires names != [] && Version(names[0]) !in done + d.applied && h1 > 0 && names[0] in fs.read && fs.read[names[0]](d.schema).Some?
    requires next == Database(fs.read[names[0]](d.schema).value, d.applied + [Version(names[0])])
    requires var first := UpFrom(fs, names[1..], done, next, h1 - 1);
             var second := UpFrom(fs, names[1..], first.0.applied, first.0, h2);
             && Version(names[0]) in first.0.applied
             && (second.2 ==> UpFrom(fs, names[1..], done, next, h1 - 1 + h2) == (second.0, first.1 + second.1, true))
    ensures var first := UpFrom(fs, names, done, d, h1);
            var second := UpFrom(fs, names, first.0.applied, first.0, h2);
            second.2 ==> UpFrom(fs, names, done, d, h1 + h2) == (second.0, first.1 + second.1, true)
  {
    var first := UpFrom(fs, names[1..], done, next, h1 - 1);
    var second := UpFrom(fs, names[1..], first.0.applied, first.0, h2);
    var v := Version(names[0]);
    assert [v] + (first.1 + second.1) == [v] + first.1 + second.1;
  }

  /** A run that got through would also get through with a longer-lived connection. */
  lemma {:induction false} MoreHealth<S>(fs: Files<S>, names: seq<string>, done: seq<string>, same: seq<string>, d: Database<S>, h: nat, more: nat)
    requires h <= more
    requires forall k :: 0 <= k < |names| ==> (Version(names[k]) in done <==> Version(names[k]) in same)
    ensures UpFrom(fs, names, same, d, h).2 ==> UpFrom(fs, names, done, d, more) == UpFrom(fs, names, same, d, h)
    decreases |names|
  {
    if names != [] {
      var v := Version(names[0]);
      assert forall k :: 1 <= k < |names| ==> names[k] == names[1..][k - 1];
      assert forall k :: 0 <= k < |names[1..]| ==> (Version(names[1..][k]) in done <==> Version(names[1..][k]) in same);
      if v in done {
        MoreHealth(fs, names[1..], done, same, d, h, more);
      } else if h > 0 && names[0] in fs.read && fs.read[names[0]](d.schema).Some? {
        MoreHealth(fs, names[1..], done, same, Database(fs.read[names[0]](d.schema).value, d.applied + [v]), h - 1, more - 1);
      }
    }
  }

  // ---- the applied versions over any sequence of Up and Down ----

  datatype Command = UpCommand(connection: nat) | DownCommand(connected: bool)

  function Perform<S>(fs: Files<S>, less: (string, string) -> bool, d: Database<S>, c: Command): Database<S> {
    match c
    case UpCommand(connection) => UpRun(fs, d, connection).0
    case DownCommand(connected) => DownRun(fs, less, d, connected).0
  }

  function History<S>(fs: Files<S>, less: (string, string) -> bool, base: S, cs: seq<Command>): Database<S> {
    if cs == [] then Database(base, []) else Perform(fs, less, History(fs, less, base, cs[..|cs| - 1]), cs[|cs| - 1])
  }

  /** The schema built by the first k migrations alone. */
  function Fold<S>(fs: Files<S>, names: seq<string>, base: S, k: nat): Option<S>
    requires k <= |names|
  {
    if k == 0 then Some(base)
    else
      var before := Fold(fs, names, base, k - 1);
      if before.None? || names[k - 1] !in fs.read then None else fs.read[names[k - 1]](before.value)
  }

  ghost predicate IsPrefix(applied: seq<string>, versions: seq<string>) { applied <= versions }

  /** Each down script, where there is one, undoes its up script. */
  ghost predicate DownsInvert<S(!new)>(fs: Files<S>) {
    forall k, s :: 0 <= k < |Names(fs)| && Undoable(fs, k, s) ==>
      fs.read[Versions(fs)[k] + DOWN](fs.read[Names(fs)[k]](s).value) == Some(s)
  }

  ghost predicate Undoable<S>(fs: Files<S>, k: nat, s: S) {
    && k < |Names(fs)| && Names(fs)[k] in fs.read && Versions(fs)[k] + DOWN in fs.read
    && fs.read[Names(fs)[k]](s).Some?
  }

  ghost predicate Built<S(!new)>(fs: Files<S>, base: S, d: Database<S>) {
    && IsPrefix(d.applied, Versions(fs))
    && (DownsInvert(fs) ==> Fold(fs, Names(fs), base, |d.applied|) == Some(d.schema))
  }

  lemma {:induction false} GreatestIsGreatest(s: seq<string>, less: (string, string) -> bool)
    requires TotalOrder(less)
    ensures s == [] <==> Greatest(s, less).None?
    ensures s != [] ==> var g := Greatest(s, less).value; g in s && forall x :: x in s ==> x == g || less(x, g)
  {
    if s != [] {
      var n := |s| - 1;
      GreatestIsGreatest(s[..n], less);
      assert s == s[..n] + [s[n]];
    }
  }

  lemma {:induction false} WithoutOne(s: seq<string>, v: string)
    requires forall i, j :: 0 <= i < j < |s| ==> s[i] != s[j]
    ensures forall x :: x in Without(s, v) <==> x in s && x != v
    ensures |Without(s, v)| == |s| - if v in s then 1 else 0
    ensures s != [] && s[|s| - 1] == v ==> Without(s, v) == s[..|s| - 1]
  {
    if s != [] {
      var n := |s| - 1;
      WithoutOne(s[..n], v);
      assert s == s[..n] + [s[n]];
      if s[n] == v {
        WithoutNone(s[..n], v);
      }
    }
  }

  lemma {:induction false} WithoutNone(s: seq<string>, v: string)
    requires v !in s
    ensures Without(s, v) == s
  {
    if s != [] {
      WithoutNone(s[..|s| - 1], v);
    }
  }

  /** The files whose versions were applied when the run began are passed over. */
  lemma {:induction false} SkipsDone<S>(fs: Files<S>, rest: seq<string>, j: nat, k: nat, d: Database<S>, healthy: nat)
    requires DistinctVersions(Names(fs)) && j <= k <= |Names(fs)| && rest == Names(fs)[j..]
    ensures UpFrom(fs, rest, Versions(fs)[..k], d, healthy) == UpFrom(fs, Names(fs)[k..], Versions(fs)[..k], d, healthy)
    decreases k - j
  {
    if j < k {
      NextName(fs, rest, j);
      VersionIsNew(fs, j, k);
      SkipsDone(fs, rest[1..], j + 1, k, d, healthy);
    }
  }

  /** The files from j on, none of them applied before, build the next versions in order. */
  lemma {:induction false} PendingBuild<S(!new)>(fs: Files<S>, base: S, rest: seq<string>, j: nat, done: seq<string>, d: Database<S>, healthy: nat)
    requires j <= |Names(fs)| && rest == Names(fs)[j..] && d.applied == Versions(fs)[..j]
    requires forall i :: j <= i < |Versions(fs)| ==> Versions(fs)[i] !in done
    ensures Extends(fs, base, d, UpFrom(fs, rest, done, d, healthy).0)
    decreases |rest|
  {
    if rest == [] {
      Unchanged(fs, base, d, j);
    } else {
      NextName(fs, rest, j);
      if Runs(fs, rest[0], d, healthy) {
        var next := Database(fs.read[rest[0]](d.schema).value, d.applied + [Version(rest[0])]);
        PendingBuild(fs, base, rest[1..], j + 1, done, next, healthy - 1);
        ExtendsNext(fs, base, d, next, UpFrom(fs, rest[1..], done, next, healthy - 1).0);
      } else {
        Unchanged(fs, base, d, j);
      }
    }
  }

  /** The pending file's transaction goes through. */
  ghost predicate Runs<S>(fs: Files<S>, name: string, d: Database<S>, healthy: nat) {
    healthy > 0 && Version(name) !in d.applied && name in fs.read && fs.read[name](d.schema).Some?
  }

  /** An Up run builds the next versions in order. */
  lemma UpBuilds<S(!new)>(fs: Files<S>, base: S, k: nat, d: Database<S>, healthy: nat)
    requires DistinctVersions(Names(fs)) && k <= |Names(fs)| && d.applied == Versions(fs)[..k]
    ensures Extends(fs, base, d, UpRun(fs, d, healthy).0)
  {
    assert Names(fs)[0..] == Names(fs);
    SkipsDone(fs, Names(fs), 0, k, d, healthy);
    forall i | k <= i < |Versions(fs)| ensures Versions(fs)[i] !in Versions(fs)[..k] { VersionIsNew(fs, i, k); }
    PendingBuild(fs, base, Names(fs)[k..], k, Versions(fs)[..k], d, healthy);
  }

  lemma NextName<S>(fs: Files<S>, rest: seq<string>, j: nat)
    requires j < |Names(fs)| && rest == Names(fs)[j..]
    ensures rest[0] == Names(fs)[j] && rest[1..] == Names(fs)[j + 1..] && Versions(fs)[j] == Version(rest[0])
    ensures Versions(fs)[..j] + [Versions(fs)[j]] == Versions(fs)[..j + 1]
  {
  }

  /** From one state to a later one, the applied versions grew within the list, and
      the schema is still what they build if it was. */
  ghost predicate Extends<S(!new)>(fs: Files<S>, base: S, d: Database<S>, after: Database<S>) {
    && IsPrefix(d.applied, Versions(fs)) && IsPrefix(after.applied, Versions(fs)) && |after.applied| >= |d.applied|
    && (Fold(fs, Names(fs), base, |d.applied|) == Some(d.schema) ==>
          Fold(fs, Names(fs), base, |after.applied|) == Some(after.schema))
  }

  lemma Unchanged<S(!new)>(fs: Files<S>, base: S, d: Database<S>, n: nat)
    requires n <= |Versions(fs)| && d.applied == Versions(fs)[..n]
    ensures Extends(fs, base, d, d)
  {
  }

  lemma ExtendsNext<S(!new)>(fs: Files<S>, base: S, d: Database<S>, next: Database<S>, after: Database<S>)
    requires Extends(fs, base, next, after)
    requires var j := |d.applied|;
      && j < |Names(fs)| && d.applied == Versions(fs)[..j] && next.applied == Versions(fs)[..j + 1]
      && Names(fs)[j] in fs.read && fs.read[Names(fs)[j]](d.schema) == Some(next.schema)
    ensures Extends(fs, base, d, after)
  {
  }

  /** Version j is among the first k exactly when j < k. */
  lemma VersionIsNew<S>(fs: Files<S>, j: nat, k: nat)
    requires DistinctVersions(Names(fs)) && j < |Names(fs)| && k <= |Names(fs)|
    ensures Versions(fs)[j] in Versions(fs)[..k] <==> j < k
    ensures Versions(fs)[j] !in Versions(fs)[..j]
  {
    forall i | 0 <= i < |Names(fs)| && i != j ensures Versions(fs)[i] != Versions(fs)[j] {
      assert Versions(fs)[i] == Version(Names(fs)[i]) && Versions(fs)[j] == Version(Names(fs)[j]);
    }
    if j < k { assert Versions(fs)[..k][j] == Versions(fs)[j]; }
  }

  lemma DownReverts<S(!new)>(fs: Files<S>, less: (string, string) -> bool, base: S, d: Database<S>, connected: bool)
    requires TotalOrder(less) && DistinctVersions(Names(fs)) && Ascending(Versions(fs), less)
    requires Built(fs, base, d)
    ensures Built(fs, base, DownRun(fs, less, d, connected).0)
  {
    if DownRun(fs, less, d, connected).1.Some? {
      GreatestIsGreatest(d.applied, less);
      var k := |d.applied| - 1;
      assert d.applied == Versions(fs)[..k + 1];
      RemovesLast(fs, less, k);
      if DownsInvert(fs) {
        FoldUndone(fs, base, k, d.schema);
      }
    }
  }

  lemma RemovesLast<S>(fs: Files<S>, less: (string, string) -> bool, k: nat)
    requires TotalOrder(less) && DistinctVersions(Names(fs)) && Ascending(Versions(fs), less) && k < |Versions(fs)|
    ensures Greatest(Versions(fs)[..k + 1], less) == Some(Versions(fs)[k])
    ensures Without(Versions(fs)[..k + 1], Versions(fs)[k]) == Versions(fs)[..k]
  {
    var s := Versions(fs)[..k + 1];
    assert Ascending(s, less);
    LastIsGreatest(s, less);
    forall i, j | 0 <= i < j < |s| ensures s[i] != s[j] {
      assert s[i] == Version(Names(fs)[i]) && s[j] == Version(Names(fs)[j]);
    }
    WithoutOne(s, s[k]);
    assert s[..k] == Versions(fs)[..k];
  }

  lemma FoldUndone<S(!new)>(fs: Files<S>, base: S, k: nat, schema: S)
    requires DownsInvert(fs) && k < |Names(fs)| && Versions(fs)[k] + DOWN in fs.read
    requires Fold(fs, Names(fs), base, k + 1) == Some(schema)
    ensures fs.read[Versions(fs)[k] + DOWN](schema) == Fold(fs, Names(fs), base, k)
  {
    assert Undoable(fs, k, Fold(fs, Names(fs), base, k).value);
  }

  lemma LastIsGreatest(s: seq<string>, less: (string, string) -> bool)
    requires TotalOrder(less) && s != [] && Ascending(s, less)
    ensures Greatest(s, less) == Some(s[|s| - 1])
  {
    GreatestIsGreatest(s, less);
    var g := Greatest(s, less).value;
    var last := s[|s| - 1];
    assert last in s;
    var i :| 0 <= i < |s| && s[i] == g;
    assert i < |s| - 1 ==> less(g, last);
  }

  /** When the versions ascend in the database's collation, any sequence of Up and
      Down, failing anywhere, leaves a prefix of the list applied; and if each down
      script inverts its up script, the schema is what that prefix builds. */
  lemma {:induction false} AppliedIsAlwaysAPrefix<S(!new)>(fs: Files<S>, less: (string, string) -> bool, base: S, cs: seq<Command>)
    requires TotalOrder(less) && DistinctVersions(Names(fs)) && Ascending(Versions(fs), less)
    ensures Built(fs, base, History(fs, less, base, cs))
  {
    if cs != [] {
      var n := |cs| - 1;
      AppliedIsAlwaysAPrefix(fs, less, base, cs[..n]);
      var d := History(fs, less, base, cs[..n]);
      match cs[n]
      case UpCommand(connection) =>
        UpBuilds(fs, base, |d.applied|, d, connection);
      case DownCommand(connected) => DownReverts(fs, less, base, d, connected);
    }
  }

  /** Down would succeed now, on a version that is not the last of the applied prefix:
      the collation puts it last, and its down script is there and works on the
      present schema. */
  ghost predicate Endangered<S>(fs: Files<S>, less: (string, string) -> bool, d: Database<S>) {
    && IsPrefix(d.applied, Versions(fs)) && d.applied != []
    && Greatest(d.applied, less).Some?
    && var g := Greatest(d.applied, less).value;
       g != d.applied[|d.applied| - 1] && g + DOWN in fs.read && fs.read[g + DOWN](d.schema).Some?
  }

  lemma VersionsDiffer<S>(fs: Files<S>)
    requires DistinctVersions(Names(fs))
    ensures forall x, y :: 0 <= x < y < |Versions(fs)| ==> Versions(fs)[x] != Versions(fs)[y]
  {
    var versions := Versions(fs);
    forall x, y | 0 <= x < y < |versions| ensures versions[x] != versions[y] {
      assert versions[x] == Version(Names(fs)[x]) && versions[y] == Version(Names(fs)[y]);
    }
  }

  lemma OthersKeepPrefix<S(!new)>(fs: Files<S>, less: (string, string) -> bool, d: Database<S>, c: Command)
    requires TotalOrder(less) && DistinctVersions(Names(fs)) && IsPrefix(d.applied, Versions(fs))
    requires c.UpCommand? || !Endangered(fs, less, d)
    ensures IsPrefix(Perform(fs, less, d, c).applied, Versions(fs))
  {
    match c
    case UpCommand(connection) =>
      UpBuilds(fs, d.schema, |d.applied|, d, connection);
    case DownCommand(connected) =>
      if DownRun(fs, less, d, connected).1.Some? {
        GreatestIsGreatest(d.applied, less);
        VersionsDiffer(fs);
        WithoutOne(d.applied, d.applied[|d.applied| - 1]);
      }
  }

  lemma RevertingEarlierBreaks(applied: seq<string>, versions: seq<string>, g: string)
    requires IsPrefix(applied, versions) && applied != [] && g in applied && g != applied[|applied| - 1]
    requires forall x, y :: 0 <= x < y < |versions| ==> versions[x] != versions[y]
    ensures !IsPrefix(Without(applied, g), versions)
  {
    var j := |applied| - 1;
    WithoutOne(applied, g);
    var left := Without(applied, g);
    assert applied[j] in left;
    var x :| 0 <= x < |left| && left[x] == applied[j];
    assert x < j && versions[x] != versions[j];
  }

  lemma DangerIsReal<S(!new)>(fs: Files<S>, less: (string, string) -> bool, base: S, cs: seq<Command>)
    requires TotalOrder(less) && DistinctVersions(Names(fs)) && Endangered(fs, less, History(fs, less, base, cs))
    ensures !IsPrefix(History(fs, less, base, cs + [DownCommand(true)]).applied, Versions(fs))
  {
    var d := History(fs, less, base, cs);
    assert (cs + [DownCommand(true)])[..|cs|] == cs;
    GreatestIsGreatest(d.applied, less);
    VersionsDiffer(fs);
    RevertingEarlierBreaks(d.applied, Versions(fs), Greatest(d.applied, less).value);
  }

  lemma {:induction false} LossHasADanger<S(!new)>(fs: Files<S>, less: (string, string) -> bool, base: S, cs: seq<Command>)
    requires TotalOrder(less) && DistinctVersions(Names(fs))
    requires !IsPrefix(History(fs, less, base, cs).applied, Versions(fs))
    ensures exists ds :: Endangered(fs, less, History(fs, less, base, ds))
  {
    var before := cs[..|cs| - 1];
    if IsPrefix(History(fs, less, base, before).applied, Versions(fs)) {
      if !Endangered(fs, less, History(fs, less, base, before)) {
        OthersKeepPrefix(fs, less, History(fs, less, base, before), cs[|cs| - 1]);
      }
    } else {
      LossHasADanger(fs, less, base, before);
    }
  }

  /** Some run leaves applied versions that are no prefix of the list if and only if
      some run reaches a state in which Down succeeds on a version other than the
      last of the prefix. Nothing is asked of the scripts. */
  lemma PrefixLostExactly<S(!new)>(fs: Files<S>, less: (string, string) -> bool, base: S)
    requires TotalOrder(less) && DistinctVersions(Names(fs))
    ensures (exists cs :: !IsPrefix(History(fs, less, base, cs).applied, Versions(fs))) <==>
            (exists cs :: Endangered(fs, less, History(fs, less, base, cs)))
  {
    if cs :| !IsPrefix(History(fs, less, base, cs).applied, Versions(fs)) {
      LossHasADanger(fs, less, base, cs);
    }
    if cs :| Endangered(fs, less, History(fs, less, base, cs)) {
      DangerIsReal(fs, less, base, cs);
    }
  }

  /** At d, a prefix, the next up script and the down script Down would pick succeed. */
  ghost predicate NextWorks<S>(fs: Files<S>, less: (string, string) -> bool, d: Database<S>) {
    IsPrefix(d.applied, Versions(fs)) ==>
      && (|d.applied| < |Names(fs)| ==>
            Names(fs)[|d.applied|] in fs.read && fs.read[Names(fs)[|d.applied|]](d.schema).Some?)
      && (d.applied != [] ==>
            var g := Greatest(d.applied, less);
            g.Some? && g.value + DOWN in fs.read && fs.read[g.value + DOWN](d.schema).Some?)
  }

  /** One transaction of an Up run over a prefix applies exactly the next version. */
  lemma UpOne<S>(fs: Files<S>, k: nat, d: Database<S>)
    requires DistinctVersions(Names(fs)) && k < |Names(fs)| && d.applied == Versions(fs)[..k]
    requires Names(fs)[k] in fs.read && fs.read[Names(fs)[k]](d.schema).Some?
    ensures UpRun(fs, d, 1).0.applied == Versions(fs)[..k + 1]
  {
    assert Names(fs)[0..] == Names(fs);
    SkipsDone(fs, Names(fs), 0, k, d, 1);
    NextName(fs, Names(fs)[k..], k);
    VersionIsNew(fs, k, k);
    var next := Database(fs.read[Names(fs)[k]](d.schema).value, d.applied + [Versions(fs)[k]]);
    NothingMore(fs, Names(fs)[k..][1..], Versions(fs)[..k], next);
  }

  lemma {:induction false} NothingMore<S>(fs: Files<S>, names: seq<string>, done: seq<string>, d: Database<S>)
    ensures UpFrom(fs, names, done, d, 0).0 == d
    decreases |names|
  {
    if names != [] { NothingMore(fs, names[1..], done, d); }
  }

  lemma {:induction false} PrefixReached<S(!new)>(fs: Files<S>, less: (string, string) -> bool, base: S, k: nat)
    requires DistinctVersions(Names(fs)) && k <= |Versions(fs)|
    requires forall cs :: NextWorks(fs, less, History(fs, less, base, cs))
    ensures exists cs :: History(fs, less, base, cs).applied == Versions(fs)[..k]
  {
    if k == 0 {
      assert History(fs, less, base, []).applied == Versions(fs)[..0];
    } else {
      PrefixReached(fs, less, base, k - 1);
      var cs :| History(fs, less, base, cs).applied == Versions(fs)[..k - 1];
      OneFurther(fs, less, base, cs, k - 1);
    }
  }

  lemma OneFurther<S(!new)>(fs: Files<S>, less: (string, string) -> bool, base: S, cs: seq<Command>, k: nat)
    requires DistinctVersions(Names(fs)) && k < |Versions(fs)|
    requires NextWorks(fs, less, History(fs, less, base, cs)) && History(fs, less, base, cs).applied == Versions(fs)[..k]
    ensures History(fs, less, base, cs + [UpCommand(1)]).applied == Versions(fs)[..k + 1]
  {
    assert (cs + [UpCommand(1)])[..|cs|] == cs;
    UpOne(fs, k, History(fs, less, base, cs));
  }

  /** A version that a later one does not exceed is what Down picks before the later. */
  lemma InversionEndangers<S(!new)>(fs: Files<S>, less: (string, string) -> bool, d: Database<S>, i: nat, j: nat)
    requires TotalOrder(less) && DistinctVersions(Names(fs)) && NextWorks(fs, less, d)
    requires i < j < |Versions(fs)| && !less(Versions(fs)[i], Versions(fs)[j]) && d.applied == Versions(fs)[..j + 1]
    ensures Endangered(fs, less, d)
  {
    GreatestIsGreatest(d.applied, less);
    VersionsDiffer(fs);
    assert d.applied[i] == Versions(fs)[i] && d.applied[j] == Versions(fs)[j];
  }

  lemma InversionLoses<S(!new)>(fs: Files<S>, less: (string, string) -> bool, base: S, i: nat, j: nat)
    requires TotalOrder(less) && DistinctVersions(Names(fs)) && forall cs :: NextWorks(fs, less, History(fs, less, base, cs))
    requires i < j < |Versions(fs)| && !less(Versions(fs)[i], Versions(fs)[j])
    ensures exists cs :: !IsPrefix(History(fs, less, base, cs).applied, Versions(fs))
  {
    PrefixReached(fs, less, base, j + 1);
    var cs :| History(fs, less, base, cs).applied == Versions(fs)[..j + 1];
    InversionEndangers(fs, less, History(fs, less, base, cs), i, j);
    DangerIsReal(fs, less, base, cs);
  }

  /** So where the scripts succeed on the schemas the runs reach, the condition is on the
      names alone: every run leaves a prefix exactly when the versions, in file-name
      order, ascend in the database's collation. */
  lemma PrefixKeptExactlyWhenOrdersAgree<S(!new)>(fs: Files<S>, less: (string, string) -> bool, base: S)
    requires TotalOrder(less) && DistinctVersions(Names(fs))
    requires forall cs :: NextWorks(fs, less, History(fs, less, base, cs))
    ensures (forall cs :: IsPrefix(History(fs, less, base, cs).applied, Versions(fs))) <==> Ascending(Versions(fs), less)
  {
    if Ascending(Versions(fs), less) {
      forall cs ensures IsPrefix(History(fs, less, base, cs).applied, Versions(fs)) {
        AppliedIsAlwaysAPrefix(fs, less, base, cs);
      }
    } else {
      var i, j :| 0 <= i < j < |Versions(fs)| && !less(Versions(fs)[i], Versions(fs)[j]);
      InversionLoses(fs, less, base, i, j);
    }
  }

  // ---- when the orders agree ----

  predicate AfterDot(s: string) { forall k :: 0 <= k < |s| ==> s[k] > '.' }

  lemma {:induction false} SuffixKeepsOrder(a: string, b: string, suffix: string)
    requires AfterDot(a) && AfterDot(b) && suffix != "" && suffix[0] == '.'
    ensures Below(a + suffix, b + suffix) <==> Below(a, b)
    decreases |a|
  {
    if a == "" {
      BelowIsTotal(suffix, suffix);
      assert a + suffix == suffix && (b == "" ==> b + suffix == suffix);
    } else if b == "" {
      assert b + suffix == suffix;
    } else {
      assert (a + suffix)[1..] == a[1..] + suffix && (b + suffix)[1..] == b[1..] + suffix;
      SuffixKeepsOrder(a[1..], b[1..], suffix);
    }
  }

  lemma {:induction false} UpNamesKeepCounts(entries: seq<string>, x: string)
    ensures multiset(UpNames(entries))[x] <= multiset(entries)[x]
  {
    if entries != [] {
      UpNamesKeepCounts(entries[..|entries| - 1], x);
      assert entries == entries[..|entries| - 1] + [entries[|entries| - 1]];
    }
  }

  lemma OnceMeansDistinct(s: seq<string>, i: nat, j: nat)
    requires i < j < |s| && multiset(s)[s[i]] <= 1
    ensures s[i] != s[j]
  {
    assert s == s[..j] + s[j..];
    assert s[..j][i] == s[i] && s[j..][0] == s[j];
    assert s[i] in multiset(s[..j]) && s[j] in multiset(s[j..]);
    assert multiset(s) == multiset(s[..j]) + multiset(s[j..]);
  }

  lemma NamesAreListed<S>(fs: Files<S>, k: nat)
    requires k < |Names(fs)|
    ensures Names(fs)[k] in fs.entries && HasSuffix(Names(fs)[k], UP) && Names(fs)[k] == Versions(fs)[k] + UP
  {
    var name := Names(fs)[k];
    assert name in multiset(Names(fs));
    assert name in UpNames(fs.entries);
    TrimmedName(name);
  }

  lemma TrimmedName(name: string)
    requires HasSuffix(name, UP)
    ensures name == Version(name) + UP
  {
    var n := |name| - |UP|;
    assert name == name[..n] + name[n..];
  }

  lemma NamesAreSorted<S>(fs: Files<S>, i: nat, j: nat)
    requires forall x :: multiset(fs.entries)[x] <= 1
    requires i < j < |Names(fs)|
    ensures Below(Names(fs)[i], Names(fs)[j]) && Versions(fs)[i] != Versions(fs)[j]
  {
    var names := Names(fs);
    UpNamesKeepCounts(fs.entries, names[i]);
    OnceMeansDistinct(names, i, j);
    BelowIsTotal(names[i], names[j]);
    NamesAreListed(fs, i);
    NamesAreListed(fs, j);
  }

  /** Versions written only with characters after the dot, such as digits, letters
      and underscores, ascend in byte order exactly as their files do. */
  lemma PlainVersionsAscend<S>(fs: Files<S>)
    requires forall x :: multiset(fs.entries)[x] <= 1
    requires forall n :: n in fs.entries && HasSuffix(n, UP) ==> AfterDot(Version(n))
    ensures Ascending(Versions(fs), Below) && DistinctVersions(Names(fs))
  {
    var names, versions := Names(fs), Versions(fs);
    forall i, j | 0 <= i < j < |versions| ensures Below(versions[i], versions[j]) && Version(names[i]) != Version(names[j]) {
      NamesAreSorted(fs, i, j);
      NamesAreListed(fs, i);
      NamesAreListed(fs, j);
      assert Version(names[i]) == versions[i] && Version(names[j]) == versions[j];
      SuffixKeepsOrder(versions[i], versions[j], UP);
    }
  }

  const SHIPPED: seq<string> := [
    "000001_users_sessions", "000002_trainees_scopes", "000003_sites_assignments", "000004_settings_audit",
    "000005_attendance", "000006_journals", "000007_corrections", "000008_notifications"]

  /** The migrations in the repository meet that condition. */
  lemma ShippedVersionsAscend<S>(fs: Files<S>)
    requires forall x :: multiset(fs.entries)[x] <= 1
    requires forall n :: n in fs.entries ==> Shipped(n)
    ensures Ascending(Versions(fs), Below) && DistinctVersions(Names(fs))
  {
    forall n | n in fs.entries && HasSuffix(n, UP) ensures AfterDot(Version(n)) {
      var k :| 0 <= k < |SHIPPED| && (n == SHIPPED[k] + UP || n == SHIPPED[k] + DOWN);
      assert (SHIPPED[k] + DOWN)[|SHIPPED[k]| + 2] == 'o';
      ShippedIsPlain(k);
    }
    PlainVersionsAscend(fs);
  }

  ghost predicate Shipped(name: string) {
    exists k :: 0 <= k < |SHIPPED| && (name == SHIPPED[k] + UP || name == SHIPPED[k] + DOWN)
  }

  lemma ShippedIsPlain(k: nat)
    requires k < |SHIPPED|
    ensures AfterDot(SHIPPED[k])
  {
  }

  /** So with a byte-ordered collation the repository's migrations always leave a
      prefix applied. */
  lemma ShippedStayAPrefix<S(!new)>(fs: Files<S>, base: S, cs: seq<Command>)
    requires forall x :: multiset(fs.entries)[x] <= 1
    requires forall n :: n in fs.entries ==> Shipped(n)
    ensures Built(fs, base, History(fs, Below, base, cs))
  {
    ByteOrderIsTotal();
    ShippedVersionsAscend(fs);
    AppliedIsAlwaysAPrefix(fs, Below, base, cs);
  }

  // ---- two versions that lose the prefix ----

  /** Two migrations, every script of which succeeds. */
  function TwoFiles(v: string, w: string): Files<int> {
    var ok: Script<int> := (s: int) => Some(s);
    Files([v + UP, w + UP], map[v + UP := ok, w + UP := ok, v + DOWN := ok, w + DOWN := ok])
  }

  lemma SuffixedVersion(v: string)
    ensures HasSuffix(v + UP, UP) && Version(v + UP) == v
  {
  }

  lemma TwoNames(v: string, w: string)
    requires Below(v + UP, w + UP)
    ensures Names(TwoFiles(v, w)) == [v + UP, w + UP] && Versions(TwoFiles(v, w)) == [v, w]
  {
    SuffixedVersion(v);
    SuffixedVersion(w);
    var a, b := v + UP, w + UP;
    var none: seq<string> := [];
    assert [a, b][..1] == [a];
    assert [a][..0] == none;
    BelowIsTotal(a, b);
    assert UpNames([a]) == [a];
    assert UpNames([a, b]) == [a, b];
    assert Sort([a]) == [a];
    assert Insert([a], b) == [a, b];
  }

  /** Files of exactly two migrations, every script of which succeeds on schema 0. */
  ghost predicate TwoMigrations(fs: Files<int>, v: string, w: string) {
    && Names(fs) == [v + UP, w + UP] && Versions(fs) == [v, w]
    && v + UP in fs.read && w + UP in fs.read && v + DOWN in fs.read
    && forall name :: name in fs.read ==> fs.read[name](0) == Some(0)
  }

  lemma TwoFilesAreTwo(v: string, w: string)
    requires Below(v + UP, w + UP)
    ensures TwoMigrations(TwoFiles(v, w), v, w)
  {
    TwoNames(v, w);
  }

  lemma UpTwo(fs: Files<int>, v: string, w: string)
    requires TwoMigrations(fs, v, w) && v != w
    ensures UpRun(fs, Database(0, []), 2).0 == Database(0, [v, w])
  {
    FirstUp(fs, v, w);
    LastUp(fs, w, [v]);
    assert [v] + [w] == [v, w];
  }

  lemma FirstUp(fs: Files<int>, v: string, w: string)
    requires TwoMigrations(fs, v, w)
    ensures UpRun(fs, Database(0, []), 2).0 == UpFrom(fs, [w + UP], [], Database(0, [v]), 1).0
  {
    SuffixedVersion(v);
    var none: seq<string> := [];
    assert [v + UP, w + UP][1..] == [w + UP];
    assert none + [v] == [v];
  }

  lemma LastUp(fs: Files<int>, w: string, applied: seq<string>)
    requires w + UP in fs.read && fs.read[w + UP](0) == Some(0) && w !in applied
    ensures UpFrom(fs, [w + UP], [], Database(0, applied), 1).0 == Database(0, applied + [w])
  {
    SuffixedVersion(w);
  }

  lemma HistoryOfTwo<S>(fs: Files<S>, less: (string, string) -> bool, base: S, c1: Command, c2: Command)
    ensures History(fs, less, base, [c1, c2]) == Perform(fs, less, Perform(fs, less, Database(base, []), c1), c2)
  {
    assert [c1, c2][..1] == [c1] && [c1][..0] == [];
    assert History(fs, less, base, []) == Database(base, []);
    assert History(fs, less, base, [c1]) == Perform(fs, less, Database(base, []), c1);
  }

  /** In byte order, a first file whose version is the greater of the two is reverted
      before the second. */
  lemma TwoLosePrefix(fs: Files<int>, v: string, w: string)
    requires TwoMigrations(fs, v, w) && Below(w, v)
    ensures History(fs, Below, 0, [UpCommand(2), DownCommand(true)]).applied == [w]
    ensures !IsPrefix([w], Versions(fs))
  {
    BelowIsTotal(w, v);
    NotTheFirst(fs, v, w);
    var up, down := UpCommand(2), DownCommand(true);
    HistoryOfTwo(fs, Below, 0, up, down);
    AfterTwo(fs, v, w, up, down);
  }

  lemma NotTheFirst(fs: Files<int>, v: string, w: string)
    requires Versions(fs) == [v, w] && v != w
    ensures !IsPrefix([w], Versions(fs))
  {
    assert [w][0] != Versions(fs)[0];
  }

  lemma AfterTwo(fs: Files<int>, v: string, w: string, up: Command, down: Command)
    requires TwoMigrations(fs, v, w) && Below(w, v) && v != w && up == UpCommand(2) && down == DownCommand(true)
    ensures Perform(fs, Below, Perform(fs, Below, Database(0, []), up), down).applied == [w]
  {
    UpTwo(fs, v, w);
    FirstIsReverted(fs, v, w);
  }

  lemma FirstIsReverted(fs: Files<int>, v: string, w: string)
    requires TwoMigrations(fs, v, w) && Below(w, v) && v != w
    ensures DownRun(fs, Below, Database(0, [v, w]), true).0.applied == [w]
  {
    var none: seq<string> := [];
    assert [v, w][..1] == [v];
    assert [v][..0] == none;
    assert Greatest([v], Below) == Some(v);
    assert Greatest([v, w], Below) == Some(v);
    assert Without([v], v) == none;
    assert Without([v, w], v) == none + [w];
  }

  /** For instance a version `1-a` beside `1`: the hyphen comes before the dot. */
  lemma HyphenLosesPrefix()
    ensures History(TwoFiles("1-a", "1"), Below, 0, [UpCommand(2), DownCommand(true)]).applied == ["1"]
    ensures !IsPrefix(["1"], Versions(TwoFiles("1-a", "1")))
  {
    var a, b := "1-a" + UP, "1" + UP;
    assert a[0] == b[0] && a[1..][0] == '-' && b[1..][0] == '.';
    assert "1"[1..] == "" && "1-a"[1..] == "-a";
    TwoFilesAreTwo("1-a", "1");
    TwoLosePrefix(TwoFiles("1-a", "1"), "1-a", "1");
  }
}
