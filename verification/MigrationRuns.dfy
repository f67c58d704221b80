/** What one Up and one Down do, exactly: which scripts run on which schema, where an Up
    stops and why, and which version a Down takes back. */
module MigrationRuns {
  import opened Common
  import opened Migrations

  /** The files, in order, whose versions are not applied. */
  function Todo(names: seq<string>, done: seq<string>): seq<string> {
    if names == [] then []
    else if Version(names[0]) in done then Todo(names[1..], done)
    else [names[0]] + Todo(names[1..], done)
  }

  /** The schema after running the scripts of these files one after the other. */
  function Scripted<S>(fs: Files<S>, names: seq<string>, schema: S): Option<S> {
    if names == [] then Some(schema)
    else if names[0] !in fs.read || fs.read[names[0]](schema).None? then None
    else Scripted(fs, names[1..], fs.read[names[0]](schema).value)
  }

  /** The file cannot be applied now: the connection is gone, the file cannot be read, its
      version is there already, or its script fails on this schema. */
  predicate Blocked<S>(fs: Files<S>, name: string, d: Database<S>, healthy: nat) {
    healthy == 0 || name !in fs.read || Version(name) in d.applied || fs.read[name](d.schema).None?
  }

  ghost predicate RunsTodo<S(!new)>(fs: Files<S>, todo: seq<string>, d: Database<S>, healthy: nat, after: Database<S>, ran: seq<string>, ok: bool) {
    && |ran| <= |todo| && |ran| <= healthy
    && (forall k :: 0 <= k < |ran| ==> ran[k] == Version(todo[k]))
    && after.applied == d.applied + ran
    && Scripted(fs, todo[..|ran|], d.schema) == Some(after.schema)
    && (ok <==> |ran| == |todo|)
    && (|ran| < |todo| ==> Blocked(fs, todo[|ran|], after, healthy - |ran|))
  }

  lemma OneMoreScript<S(!new)>(fs: Files<S>, name: string, todo: seq<string>, d: Database<S>, next: Database<S>, healthy: nat,
                               after: Database<S>, ran: seq<string>, ok: bool)
    requires healthy > 0 && name in fs.read && fs.read[name](d.schema) == Some(next.schema) && next.applied == d.applied + [Version(name)]
    requires RunsTodo(fs, todo, next, healthy - 1, after, ran, ok)
    ensures RunsTodo(fs, [name] + todo, d, healthy, after, [Version(name)] + ran, ok)
  {
    assert ([name] + todo)[..|ran| + 1] == [name] + todo[..|ran|];
    assert ([name] + todo[..|ran|])[1..] == todo[..|ran|];
    assert d.applied + ([Version(name)] + ran) == next.applied + ran;
  }

  lemma {:induction false} UpRunsTodo<S(!new)>(fs: Files<S>, names: seq<string>, done: seq<string>, d: Database<S>, healthy: nat)
    ensures var (after, ran, ok) := UpFrom(fs, names, done, d, healthy); RunsTodo(fs, Todo(names, done), d, healthy, after, ran, ok)
    decreases |names|
  {
    if names != [] {
      var name := names[0];
      if Version(name) in done {
        UpRunsTodo(fs, names[1..], done, d, healthy);
      } else if !Blocked(fs, name, d, healthy) {
        var next := Database(fs.read[name](d.schema).value, d.applied + [Version(name)]);
        UpRunsTodo(fs, names[1..], done, next, healthy - 1);
        var (after, ran, ok) := UpFrom(fs, names[1..], done, next, healthy - 1);
        OneMoreScript(fs, name, Todo(names[1..], done), d, next, healthy, after, ran, ok);
      }
    }
  }

  /** An Up runs the pending files in file-name order, each on the schema the ones before
      it left, and records their versions; it succeeds exactly when it ran them all, and
      otherwise stops at the first that cannot be applied. */
  lemma UpExactly<S(!new)>(fs: Files<S>, d: Database<S>, healthy: nat)
    ensures var (after, ran, ok) := UpRun(fs, d, healthy); RunsTodo(fs, Todo(Names(fs), d.applied), d, healthy, after, ran, ok)
    ensures InOrder(Names(fs))
    ensures forall n :: n in Names(fs) ==> n in fs.entries && n == Version(n) + ".up.sql"
    ensures forall n, v :: n in fs.entries && n == v + ".up.sql" ==> n in Names(fs) && Version(n) == v
  {
    UpRunsTodo(fs, Names(fs), d.applied, d, healthy);
    forall n ensures n in Names(fs) <==> n in UpNames(fs.entries) {
      assert n in Names(fs) <==> n in multiset(Names(fs));
      assert n in UpNames(fs.entries) <==> n in multiset(UpNames(fs.entries));
    }
    forall n | n in Names(fs) ensures n in fs.entries && n == Version(n) + ".up.sql" { TrimmedName(n); }
  }

  lemma {:induction false} WithoutKeeps(s: seq<string>, v: string, x: string)
    ensures multiset(Without(s, v))[x] == if x == v then 0 else multiset(s)[x]
  {
    if s != [] {
      var n := |s| - 1;
      WithoutKeeps(s[..n], v, x);
      assert s == s[..n] + [s[n]];
    }
  }

  /** A Down takes back the version the collation puts last, by its own script, and its
      row, when there is one, the connection holds and the script succeeds; otherwise it
      changes nothing. */
  lemma DownExactly<S>(fs: Files<S>, less: (string, string) -> bool, d: Database<S>, connected: bool, x: string)
    requires TotalOrder(less)
    ensures var (after, reverted) := DownRun(fs, less, d, connected);
      && (reverted.Some? ==>
            var v := reverted.value;
            && v in d.applied && (forall u :: u in d.applied ==> u == v || less(u, v))
            && connected && v + ".down.sql" in fs.read && fs.read[v + ".down.sql"](d.schema) == Some(after.schema)
            && multiset(after.applied)[x] == if x == v then 0 else multiset(d.applied)[x])
      && (reverted.None? ==>
            && after == d
            && (x in d.applied && (forall u :: u in d.applied ==> u == x || less(u, x)) ==>
                  !connected || x + ".down.sql" !in fs.read || fs.read[x + ".down.sql"](d.schema).None?))
  {
    if d.applied != [] {
      GreatestIsGreatest(d.applied, less);
      WithoutKeeps(d.applied, Greatest(d.applied, less).value, x);
    }
  }
}
