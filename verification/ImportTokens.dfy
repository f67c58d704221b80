/** The in-memory store of validated snapshots. It purges expired entries only when
    it has grown past 1000; nobody can tell. */
module ImportTokens {
  import opened Common
  import opened Import

  type Token = string
  type Time = int

  /** A snapshot; `coordinator` says whether its creator has that role. */
  datatype Batch = Batch(rows: seq<ImportRow>, creator: Id, coordinator: bool, expires: Time)

  const TOKEN_TTL := 15 * 60 * 1_000_000_000

  type Batches = map<Token, Batch>

  function Purged(m: Batches, now: Time): Batches {
    map t | t in m && now <= m[t].expires :: m[t]
  }

  function Put(m: Batches, token: Token, b: Batch, now: Time): Batches {
    (if |m| > 1000 then Purged(m, now) else m)[token := b]
  }

  function Take(m: Batches, token: Token, now: Time): (Batches, Option<Batch>) {
    (m - {token}, if token !in m || now > m[token].expires then None else Some(m[token]))
  }

  class ImportStore {
    var batches: Batches

    constructor ()
      ensures batches == map[]
    {
      batches := map[];
    }

    method put(b: Batch, token: Token, now: Time)
      modifies this
      ensures batches == Put(old(batches), token, b, now)
      ensures token in batches && batches[token] == b
      ensures forall t :: t != token ==>
        (t in batches <==> t in old(batches) && (|old(batches)| > 1000 ==> now <= old(batches)[t].expires))
      ensures forall t :: t in batches && t != token ==> batches[t] == old(batches)[t]
    {
      if |batches| > 1000 {
        var todo := batches.Keys;
        while todo != {}
          invariant todo <= old(batches).Keys
          invariant batches == map t | t in old(batches) && (t in todo || now <= old(batches)[t].expires) :: old(batches)[t]
          decreases |todo|
        {
          var k :| k in todo;
          if now > batches[k].expires { batches := batches - {k}; }
          todo := todo - {k};
        }
      }
      batches := batches[token := b];
    }

    method take(token: Token, now: Time) returns (b: Option<Batch>)
      modifies this
      ensures (batches, b) == Take(old(batches), token, now)
      ensures b.Some? <==> token in old(batches) && now <= old(batches)[token].expires
      ensures b.Some? ==> b.value == old(batches)[token]
      ensures batches == map t | t in old(batches) && t != token :: old(batches)[t]
    {
      if token !in batches || now > batches[token].expires {
        batches := batches - {token};
        return None;
      }
      b := Some(batches[token]);
      batches := batches - {token};
    }

    method Stage(rows: seq<ImportRow>, creator: Id, coordinator: bool, token: Token, now: Time)
      modifies this
      ensures token in batches && batches[token] == Batch(rows, creator, coordinator, now + 900_000_000_000)
      ensures forall t :: t in batches && t != token ==> t in old(batches) && batches[t] == old(batches)[t]
      ensures forall t :: t in old(batches) && now <= old(batches)[t].expires ==> t in batches
    {
      put(Batch(rows, creator, coordinator, now + TOKEN_TTL), token, now);
    }
  }

  // ---- the store against one that never purges ----

  datatype Op = PutOp(token: Token, batch: Batch, now: Time) | TakeOp(token: Token, now: Time)

  function Step(m: Batches, op: Op, purges: bool): (Batches, Option<Batch>) {
    match op
    case PutOp(token, b, now) => (if purges then Put(m, token, b, now) else m[token := b], None)
    case TakeOp(token, now) => Take(m, token, now)
  }

  function Run(ops: seq<Op>, purges: bool): Batches {
    if ops == [] then map[] else Step(Run(ops[..|ops| - 1], purges), ops[|ops| - 1], purges).0
  }

  /** What the k-th operation answered. */
  function Answer(ops: seq<Op>, k: nat, purges: bool): Option<Batch>
    requires k < |ops|
  {
    Step(Run(ops[..k], purges), ops[k], purges).1
  }

  ghost predicate ClockAdvances(ops: seq<Op>) {
    forall i, j :: 0 <= i < j < |ops| ==> ops[i].now <= ops[j].now
  }

  /** Every difference between the two stores is an entry that has expired. */
  ghost predicate DifferByExpired(m: Batches, ref: Batches, clock: Time) {
    && (forall t :: t in m ==> t in ref && ref[t] == m[t])
    && (forall t :: t in ref && t !in m ==> clock > ref[t].expires)
  }

  lemma {:induction false} StoresDifferByExpired(ops: seq<Op>, clock: Time)
    requires ClockAdvances(ops) && (ops != [] ==> ops[|ops| - 1].now <= clock)
    ensures DifferByExpired(Run(ops, true), Run(ops, false), clock)
  {
    if ops != [] {
      var n := |ops| - 1;
      StoresDifferByExpired(ops[..n], ops[n].now);
    }
  }

  /** Every take answers as the store that never purges would. */
  lemma PurgingUnnoticed(ops: seq<Op>, k: nat)
    requires ClockAdvances(ops) && k < |ops|
    ensures Answer(ops, k, true) == Answer(ops, k, false)
  {
    if k > 0 { assert ops[..k][k - 1].now <= ops[k].now; }
    StoresDifferByExpired(ops[..k], ops[k].now);
  }

  // ---- a token is taken at most once, and yields what was staged ----

  ghost predicate Staged(ops: seq<Op>, i: nat, token: Token, b: Batch) {
    i < |ops| && ops[i] == PutOp(token, b, ops[i].now)
  }

  /** Between i and the end the token is neither staged again nor presented. */
  ghost predicate Untouched(ops: seq<Op>, i: nat, token: Token) {
    forall j :: i < j < |ops| ==> ops[j].token != token
  }

  lemma {:induction false} HeldMeansStaged(ops: seq<Op>, token: Token)
    ensures token in Run(ops, false) ==>
      exists i: nat :: Staged(ops, i, token, Run(ops, false)[token]) && Untouched(ops, i, token)
    ensures forall i: nat, b :: Staged(ops, i, token, b) && Untouched(ops, i, token) ==>
      token in Run(ops, false) && Run(ops, false)[token] == b
  {
    if ops != [] {
      var n := |ops| - 1;
      HeldMeansStaged(ops[..n], token);
      if token in Run(ops, false) {
        var b := Run(ops, false)[token];
        if ops[n].token == token {
          assert Staged(ops, n, token, b) && Untouched(ops, n, token);
        } else {
          var i: nat :| Staged(ops[..n], i, token, b) && Untouched(ops[..n], i, token);
          assert Staged(ops, i, token, b) && Untouched(ops, i, token);
        }
      }
      forall i: nat, b | Staged(ops, i, token, b) && Untouched(ops, i, token)
        ensures token in Run(ops, false) && Run(ops, false)[token] == b
      {
        if i < n {
          assert ops[n].token != token;
          assert Staged(ops[..n], i, token, b) && Untouched(ops[..n], i, token);
        }
      }
    }
  }

  /** Presenting a token succeeds exactly when it was staged earlier, has not been
      presented or staged since, and has not expired; the answer is the snapshot
      that was staged. */
  lemma TakeExactly(ops: seq<Op>, k: nat, b: Batch)
    requires ClockAdvances(ops) && k < |ops| && ops[k].TakeOp?
    ensures Answer(ops, k, true) == Some(b) <==>
      && ops[k].now <= b.expires
      && exists i: nat :: Staged(ops[..k], i, ops[k].token, b) && Untouched(ops[..k], i, ops[k].token)
  {
    PurgingUnnoticed(ops, k);
    HeldMeansStaged(ops[..k], ops[k].token);
  }

  /** With fresh tokens, a token commits at most once. */
  lemma TokenTakenOnce(ops: seq<Op>, j: nat, k: nat)
    requires ClockAdvances(ops) && j < k < |ops| && ops[j].TakeOp? && ops[k].TakeOp? && ops[j].token == ops[k].token
    requires forall a, b :: 0 <= a < b < |ops| && ops[a].PutOp? && ops[b].PutOp? ==> ops[a].token != ops[b].token
    requires Answer(ops, j, true).Some?
    ensures Answer(ops, k, true).None?
  {
    var token := ops[j].token;
    TakeExactly(ops, j, Answer(ops, j, true).value);
    var a: nat :| Staged(ops[..j], a, token, Answer(ops, j, true).value);
    forall i: nat, b | Staged(ops[..k], i, token, b) ensures !Untouched(ops[..k], i, token) {
      assert ops[a].PutOp? && ops[i].PutOp? && ops[a].token == ops[i].token && i == a;
      assert ops[..k][j].token == token;
    }
    forall b ensures Answer(ops, k, true) != Some(b) {
      TakeExactly(ops, k, b);
    }
  }
}
