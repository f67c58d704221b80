/** Exactly which calls the rate limiter admits, told from the calls and their answers:
    the bucket's level never appears. */
module Admissions {
  import opened RateLimiter

  /** The key has used all it was allowed since call `from`. */
  ghost predicate Exhausts(p: Policy, cs: seq<Call>, from: nat, key: string, t: Time) {
    && from < |cs|
    && Admitted(p, cs, from, key) * p.interval + LevelOf(p, BucketsAfter(p, cs), key, t) == p.cap + t - cs[from].takeAt
  }

  /** The key's bucket is full, or some span of calls explains what it lacks. */
  ghost predicate Explained(p: Policy, cs: seq<Call>, key: string, t: Time) {
    LevelOf(p, BucketsAfter(p, cs), key, t) == p.cap || exists from: nat :: Exhausts(p, cs, from, key, t)
  }

  predicate Settled(p: Policy, cs: seq<Call>, key: string, t: Time) {
    key in BucketsAfter(p, cs) ==> BucketsAfter(p, cs)[key].at <= t
  }

  lemma ExplainedLater(p: Policy, cs: seq<Call>, key: string, t: Time, u: Time)
    requires t <= u && Explained(p, cs, key, t) && Settled(p, cs, key, t)
    ensures Explained(p, cs, key, u)
  {
    if LevelOf(p, BucketsAfter(p, cs), key, u) != p.cap {
      var from: nat :| Exhausts(p, cs, from, key, t);
      assert Exhausts(p, cs, from, key, u);
    }
  }

  lemma OneMoreAdmission(p: Policy, cs: seq<Call>, from: nat, key: string)
    requires from < |cs|
    ensures var n := |cs| - 1;
            var one := if cs[n].key == key && Answer(p, cs) then 1 else 0;
      && Admitted(p, cs, from, key) == (if from < n then Admitted(p, cs[..n], from, key) else 0) + one
      && (from < n ==> Admitted(p, cs, from, key) * p.interval == Admitted(p, cs[..n], from, key) * p.interval + one * p.interval)
      && (from == n ==> Admitted(p, cs, from, key) * p.interval == one * p.interval)
  {
    var n := |cs| - 1;
    var one := if cs[n].key == key && Answer(p, cs) then 1 else 0;
    AdmittedNext(p, cs, from, key, if from < n then Admitted(p, cs[..n], from, key) else 0, one);
    OneMore(if from < n then Admitted(p, cs[..n], from, key) else 0, one, p.interval);
  }

  /** What the last call does to the key's level at its own time. */
  lemma LevelAfterCall(p: Policy, cs: seq<Call>, key: string)
    requires Sane(p) && p.interval > 0 && cs != [] && Answer(p, cs) == ReferenceAnswer(p, cs)
    requires Settled(p, cs[..|cs| - 1], key, cs[|cs| - 1].takeAt)
    ensures var n := |cs| - 1;
            var t := cs[n].takeAt;
            var level := LevelOf(p, BucketsAfter(p, cs[..n]), key, t);
      && LevelOf(p, BucketsAfter(p, cs), key, t) == level - (if cs[n].key == key && Answer(p, cs) then p.interval else 0)
      && (cs[n].key == key ==> (Answer(p, cs) <==> level >= p.interval))
      && Settled(p, cs, key, t)
  {
  }

  lemma ExplainedAfterCall(p: Policy, cs: seq<Call>, key: string)
    requires Sane(p) && p.interval > 0 && cs != [] && Answer(p, cs) == ReferenceAnswer(p, cs)
    requires var n := |cs| - 1; Settled(p, cs[..n], key, cs[n].takeAt) && Explained(p, cs[..n], key, cs[n].takeAt)
    ensures Explained(p, cs, key, cs[|cs| - 1].takeAt)
  {
    var n := |cs| - 1;
    var t := cs[n].takeAt;
    LevelAfterCall(p, cs, key);
    if LevelOf(p, BucketsAfter(p, cs[..n]), key, t) == p.cap {
      OneMoreAdmission(p, cs, n, key);
      assert cs[n].key == key ==> Exhausts(p, cs, n, key, t);
    } else {
      var from: nat :| Exhausts(p, cs[..n], from, key, t);
      OneMoreAdmission(p, cs, from, key);
      assert Exhausts(p, cs, from, key, t);
    }
  }

  lemma {:induction false} AlwaysExplained(p: Policy, cs: seq<Call>, key: string, pause: int, t: Time)
    requires Sane(p) && p.interval > 0 && pause <= PauseBound(p) && WellTimed(cs, pause)
    requires cs != [] ==> cs[|cs| - 1].takeAt <= t
    ensures Explained(p, cs, key, t) && Settled(p, cs, key, t)
  {
    if cs != [] {
      var n := |cs| - 1;
      assert forall i :: 0 <= i < n ==> cs[..n][i] == cs[i];
      AlwaysExplained(p, cs[..n], key, pause, cs[n].takeAt);
      StaysMirrored(p, cs, pause);
      LevelAfterCall(p, cs, key);
      ExplainedAfterCall(p, cs, key);
      ExplainedLater(p, cs, key, cs[n].takeAt, t);
    }
  }

  /** No span is ever overdrawn, at any later time. */
  lemma PaidLater(p: Policy, cs: seq<Call>, from: nat, key: string, pause: int, t: Time)
    requires Sane(p) && p.interval > 0 && pause <= PauseBound(p) && WellTimed(cs, pause)
    requires from < |cs| && cs[|cs| - 1].takeAt <= t
    ensures Admitted(p, cs, from, key) * p.interval + LevelOf(p, BucketsAfter(p, cs), key, t) <= p.cap + t - cs[from].takeAt
  {
    AdmissionsPaidFor(p, cs, from, key, pause);
  }

  /** Call c may be admitted after cs without exceeding, over the span from any earlier
      call, the burst plus what the span refills. */
  ghost predicate Affordable(interval: int, burst: int, p: Policy, cs: seq<Call>, c: Call) {
    forall from: nat :: from < |cs| ==> Fits(interval, burst, Admitted(p, cs, from, c.key), c.takeAt - cs[from].takeAt)
  }

  predicate Fits(interval: int, burst: int, admitted: nat, span: int) { (admitted + 1) * interval <= burst * interval + span }

  /** With max events per window (one per minute when they are not positive), a call is
      admitted exactly when that keeps its key, over the span from every earlier call,
      within the burst plus one admission per refill interval of the span. */
  lemma AdmittedExactly(max: int, window: int, cs: seq<Call>, c: Call, pause: int)
    requires WellTimed(cs + [c], pause)
    requires var w, m := if window <= 0 then 60_000_000_000 else window, if max <= 0 then 1 else max;
      w / m > 0 ==> pause <= 4 * w + 1 - w / m
    ensures var w, m := if window <= 0 then 60_000_000_000 else window, if max <= 0 then 1 else max;
      Answer(New(max, window), cs + [c]) <==> Affordable(w / m, m, New(max, window), cs, c)
  {
    var p := New(max, window);
    NewIsSane(max, window);
    assert (cs + [c])[..|cs|] == cs && forall i :: 0 <= i < |cs| ==> (cs + [c])[i] == cs[i];
    forall from: nat | from < |cs| ensures cs[from].takeAt <= cs[|cs| - 1].takeAt <= c.takeAt {
      TimesAscend(cs, from, pause);
      assert (cs + [c])[|cs| - 1].takeAt <= (cs + [c])[|cs|].purgeAt;
    }
    if p.interval == 0 {
      UnlimitedIsAffordable(p, cs, c);
    } else {
      LimitedIsAffordable(p, cs, c, pause);
    }
  }

  lemma UnlimitedIsAffordable(p: Policy, cs: seq<Call>, c: Call)
    requires p.interval == 0 && forall from: nat :: from < |cs| ==> cs[from].takeAt <= c.takeAt
    ensures Answer(p, cs + [c]) && Affordable(0, p.burst, p, cs, c)
  {
  }

  lemma LimitedIsAffordable(p: Policy, cs: seq<Call>, c: Call, pause: int)
    requires Sane(p) && CapIsBurst(p) && p.interval > 0 && pause <= PauseBound(p) && WellTimed(cs + [c], pause) && WellTimed(cs, pause)
    requires cs != [] ==> cs[|cs| - 1].takeAt <= c.takeAt
    ensures Answer(p, cs + [c]) <==> Affordable(p.interval, p.burst, p, cs, c)
  {
    var level := LevelOf(p, BucketsAfter(p, cs), c.key, c.takeAt);
    AlwaysExplained(p, cs, c.key, pause, c.takeAt);
    StaysMirrored(p, cs + [c], pause);
    AnswerIsLevel(p, cs, c);
    forall from: nat | from < |cs| && level >= p.interval
      ensures Fits(p.interval, p.burst, Admitted(p, cs, from, c.key), c.takeAt - cs[from].takeAt)
    {
      PaidLater(p, cs, from, c.key, pause, c.takeAt);
      MulSucc(Admitted(p, cs, from, c.key), p.interval);
    }
    if level < p.interval {
      var from: nat :| Exhausts(p, cs, from, c.key, c.takeAt);
      MulSucc(Admitted(p, cs, from, c.key), p.interval);
      assert !Fits(p.interval, p.burst, Admitted(p, cs, from, c.key), c.takeAt - cs[from].takeAt);
    }
  }

  lemma AnswerIsLevel(p: Policy, cs: seq<Call>, c: Call)
    requires Sane(p) && p.interval > 0 && Answer(p, cs + [c]) == ReferenceAnswer(p, cs + [c])
    ensures Answer(p, cs + [c]) <==> LevelOf(p, BucketsAfter(p, cs), c.key, c.takeAt) >= p.interval
  {
    AfterCall(p, cs, c);
  }
}
