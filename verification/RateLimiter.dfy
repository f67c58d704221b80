/** The per-key token bucket with lazy eviction of platform/ratelimit.

    A bucket's level is kept in nanoseconds of refill: tokens times the refill
    interval, so a full bucket is burst * interval and an admission costs one
    interval. rate.Limiter is taken at its contract: it starts full, refills
    linearly, is capped at its burst, and a refusal leaves it unchanged; a zero
    interval is an unlimited rate. */
module RateLimiter {
  import opened Common

  type Time = int

  const MINUTE := 60_000_000_000
  const PURGE_ABOVE := 10000

  /** cap is a full bucket's level, interval * burst. */
  datatype Policy = Policy(interval: nat, burst: nat, cap: nat, ttl: nat)

  /** New: non-positive arguments fall back to 1 and a minute; the interval is an
      integer division of nanoseconds. */
  function New(max: int, window: int): Policy {
    var m := if max <= 0 then 1 else max;
    var w := if window <= 0 then MINUTE else window;
    Policy(w / m, m, w / m * m, w * 4)
  }

  /** A bucket refills within one window, and a stale entry is four windows old. */
  predicate Sane(p: Policy) {
    p.burst >= 1 && p.interval <= p.cap && p.cap + p.interval <= p.ttl
  }

  predicate CapIsBurst(p: Policy) { p.cap == p.burst * p.interval }

  lemma WholeIntervals(w: nat, m: nat)
    requires w > 0 && m > 0
    ensures var q := w / m; 0 <= q <= q * m <= w && q * m == m * q
  {
    var q := w / m;
    assert q >= 0 && w == m * q + w % m;
    GrowsByFactor(q, m);
  }

  lemma {:induction false} GrowsByFactor(q: nat, m: nat)
    requires m > 0
    ensures q <= q * m && q * m == m * q
  {
    if m > 1 {
      GrowsByFactor(q, m - 1);
      assert q * m == q * (m - 1) + q;
    }
  }

  lemma NewIsSane(max: int, window: int)
    ensures Sane(New(max, window)) && CapIsBurst(New(max, window))
  {
    WholeIntervals(if window <= 0 then MINUTE else window, if max <= 0 then 1 else max);
  }

  datatype Bucket = Bucket(level: int, at: Time)

  datatype Entry = Entry(bucket: Bucket, lastSeen: Time)

  function LevelAt(p: Policy, b: Bucket, t: Time): int { Min(p.cap, b.level + Max(t - b.at, 0)) }

  function Full(p: Policy, t: Time): Bucket { Bucket(p.cap, t) }

  predicate Admits(p: Policy, b: Bucket, t: Time) { p.interval == 0 || LevelAt(p, b, t) >= p.interval }

  function Take(p: Policy, b: Bucket, t: Time): Bucket {
    if p.interval == 0 then Full(p, t)
    else if Admits(p, b, t) then Bucket(LevelAt(p, b, t) - p.interval, t)
    else b
  }

  /** One call of allow. It reads the clock up to three times under its mutex: for
      the purge cutoff, for lastSeen, and inside the token bucket. */
  datatype Call = Call(key: string, purgeAt: Time, seenAt: Time, takeAt: Time)

  function Stale(p: Policy, entries: map<string, Entry>, now: Time): set<string> {
    set k | k in entries && entries[k].lastSeen < now - p.ttl
  }

  function Purge(p: Policy, entries: map<string, Entry>, now: Time): map<string, Entry> {
    if |entries| > PURGE_ABOVE then entries - Stale(p, entries, now) else entries
  }

  function AllowEntries(p: Policy, entries: map<string, Entry>, c: Call): map<string, Entry> {
    var kept := Purge(p, entries, c.purgeAt);
    var b := if c.key in kept then kept[c.key].bucket else Full(p, c.takeAt);
    kept[c.key := Entry(Take(p, b, c.takeAt), c.seenAt)]
  }

  function Allows(p: Policy, entries: map<string, Entry>, c: Call): bool {
    var kept := Purge(p, entries, c.purgeAt);
    Admits(p, if c.key in kept then kept[c.key].bucket else Full(p, c.takeAt), c.takeAt)
  }

  class Limiter {
    const policy: Policy
    var entries: map<string, Entry>

    constructor (max: int, window: int)
      ensures policy == New(max, window) && entries == map[]
    {
      policy := New(max, window);
      entries := map[];
    }

    /** The lazy cleanup at the head of allow. */
    method DropStale(now: Time)
      modifies this
      ensures entries == Purge(policy, old(entries), now)
      ensures |old(entries)| <= 10000 ==> entries == old(entries)
      ensures |old(entries)| > 10000 ==> forall k :: k in entries <==> k in old(entries) && old(entries)[k].lastSeen >= now - policy.ttl
      ensures forall k :: k in entries ==> entries[k] == old(entries)[k]
    {
      if |entries| > PURGE_ABOVE {
        var all := entries;
        var keys := all.Keys;
        while keys != {}
          invariant keys <= all.Keys
          invariant forall k :: k in entries <==> k in all && (k in keys || k !in Stale(policy, all, now))
          invariant forall k :: k in entries ==> entries[k] == all[k]
          decreases keys
        {
          var k :| k in keys;
          if all[k].lastSeen < now - policy.ttl {
            entries := entries - {k};
          }
          keys := keys - {k};
        }
        assert entries == all - Stale(policy, all, now);
      }
    }

    method Allow(c: Call) returns (ok: bool)
      modifies this
      ensures ok == Allows(policy, old(entries), c)
      ensures entries == AllowEntries(policy, old(entries), c)
      ensures c.key in entries && entries[c.key].lastSeen == c.seenAt
      ensures forall k :: k in entries && k != c.key ==> k in old(entries) && entries[k] == old(entries)[k]
    {
      DropStale(c.purgeAt);
      if c.key !in entries {
        entries := entries[c.key := Entry(Full(policy, c.takeAt), c.seenAt)];
      }
      var b := entries[c.key].bucket;
      ok := Admits(policy, b, c.takeAt);
      entries := entries[c.key := Entry(Take(policy, b, c.takeAt), c.seenAt)];
    }
  }

  // ---- The reference: a limiter that never evicts ----

  function KeepBuckets(p: Policy, buckets: map<string, Bucket>, c: Call): map<string, Bucket> {
    buckets[c.key := Take(p, BucketOf(p, buckets, c), c.takeAt)]
  }

  function BucketOf(p: Policy, buckets: map<string, Bucket>, c: Call): Bucket {
    if c.key in buckets then buckets[c.key] else Full(p, c.takeAt)
  }

  function EntriesAfter(p: Policy, cs: seq<Call>): map<string, Entry> {
    if cs == [] then map[] else AllowEntries(p, EntriesAfter(p, cs[..|cs| - 1]), cs[|cs| - 1])
  }

  function BucketsAfter(p: Policy, cs: seq<Call>): map<string, Bucket> {
    if cs == [] then map[] else KeepBuckets(p, BucketsAfter(p, cs[..|cs| - 1]), cs[|cs| - 1])
  }

  /** The answer to the last call of cs, by the limiter and by the reference. */
  function Answer(p: Policy, cs: seq<Call>): bool
    requires cs != []
  {
    Allows(p, EntriesAfter(p, cs[..|cs| - 1]), cs[|cs| - 1])
  }

  function ReferenceAnswer(p: Policy, cs: seq<Call>): bool
    requires cs != []
  {
    var c := cs[|cs| - 1];
    Admits(p, BucketOf(p, BucketsAfter(p, cs[..|cs| - 1]), c), c.takeAt)
  }

  /** Calls hold the mutex in turn and the clock never goes back; between noting
      lastSeen and asking the bucket a call is delayed by at most `pause`. */
  predicate WellTimed(cs: seq<Call>, pause: int) {
    && (forall i :: 0 <= i < |cs| ==> cs[i].purgeAt <= cs[i].seenAt <= cs[i].takeAt <= cs[i].seenAt + pause)
    && (forall i :: 0 < i < |cs| ==> cs[i - 1].takeAt <= cs[i].purgeAt)
  }

  /** Nobody can tell that the limiter evicts. */
  ghost predicate EvictionUnnoticed(p: Policy, pause: int) {
    forall cs :: cs != [] && WellTimed(cs, pause) ==> Answer(p, cs) == ReferenceAnswer(p, cs)
  }

  // ---- Unnoticed within the pause bound ----

  /** The longest delay that keeps eviction unnoticed. */
  function PauseBound(p: Policy): int { p.ttl + 1 - p.interval }

  /** The limiter and the reference after the same calls, the last of which took its
      token at `now`: kept buckets are the same and full again before they can go
      stale; evicted ones are already full. */
  ghost predicate Mirrors(p: Policy, entries: map<string, Entry>, buckets: map<string, Bucket>, now: Time) {
    && entries.Keys <= buckets.Keys
    && (forall k :: k in entries ==>
          && entries[k].bucket == buckets[k]
          && buckets[k].at + p.cap - buckets[k].level <= entries[k].lastSeen + p.ttl + 1
          && entries[k].lastSeen <= now)
    && (forall k :: k in buckets ==> 0 <= buckets[k].level <= p.cap && buckets[k].at <= now)
    && (forall k :: k in buckets && k !in entries ==> LevelAt(p, buckets[k], now) == p.cap)
  }

  lemma PurgeMirrors(p: Policy, entries: map<string, Entry>, buckets: map<string, Bucket>, now: Time, t: Time)
    requires Mirrors(p, entries, buckets, now) && now <= t
    ensures Mirrors(p, Purge(p, entries, t), buckets, t)
  {
    var kept := Purge(p, entries, t);
    forall k | k in buckets && k !in kept ensures LevelAt(p, buckets[k], t) == p.cap {
      if k in entries {
        assert entries[k].lastSeen + p.ttl < t;
      }
    }
  }

  lemma TakeMirrors(p: Policy, kept: map<string, Entry>, buckets: map<string, Bucket>, c: Call, pause: int)
    requires Sane(p) && pause <= PauseBound(p) && Mirrors(p, kept, buckets, c.purgeAt)
    requires c.purgeAt <= c.seenAt <= c.takeAt <= c.seenAt + pause
    ensures var b := if c.key in kept then kept[c.key].bucket else Full(p, c.takeAt);
            && Admits(p, b, c.takeAt) == Admits(p, BucketOf(p, buckets, c), c.takeAt)
            && Mirrors(p, kept[c.key := Entry(Take(p, b, c.takeAt), c.seenAt)], KeepBuckets(p, buckets, c), c.takeAt)
  {
    var b := if c.key in kept then kept[c.key].bucket else Full(p, c.takeAt);
    var r := BucketOf(p, buckets, c);
    SameTake(p, b, r, c.takeAt);
    TakeRefillsInTime(p, r, if c.key in kept then kept[c.key].lastSeen else c.seenAt, c, pause, c.key in kept);
    UpdateMirrors(p, kept, buckets, c, Take(p, r, c.takeAt));
  }

  lemma SameTake(p: Policy, b: Bucket, r: Bucket, t: Time)
    requires Sane(p) && (b == r || (LevelAt(p, b, t) == LevelAt(p, r, t) == p.cap))
    ensures Admits(p, b, t) == Admits(p, r, t) && Take(p, b, t) == Take(p, r, t)
  {
  }

  lemma UpdateMirrors(p: Policy, kept: map<string, Entry>, buckets: map<string, Bucket>, c: Call, t: Bucket)
    requires Mirrors(p, kept, buckets, c.purgeAt) && c.purgeAt <= c.seenAt <= c.takeAt
    requires 0 <= t.level <= p.cap && t.at <= c.takeAt && t.at + p.cap - t.level <= c.seenAt + p.ttl + 1
    ensures Mirrors(p, kept[c.key := Entry(t, c.seenAt)], buckets[c.key := t], c.takeAt)
  {
  }

  /** After a call, the key's bucket is full again no later than the instant it can
      first be found stale. */
  lemma TakeRefillsInTime(p: Policy, r: Bucket, lastSeen: Time, c: Call, pause: int, kept: bool)
    requires Sane(p) && pause <= PauseBound(p) && 0 <= r.level <= p.cap && r.at <= c.takeAt
    requires c.seenAt <= c.takeAt <= c.seenAt + pause
    requires if kept then r.at <= c.seenAt && r.at + p.cap - r.level <= lastSeen + p.ttl + 1 && lastSeen <= c.seenAt
             else LevelAt(p, r, c.takeAt) == p.cap
    ensures var t := Take(p, r, c.takeAt);
            0 <= t.level <= p.cap && t.at <= c.takeAt && t.at + p.cap - t.level <= c.seenAt + p.ttl + 1
  {
  }

  lemma {:induction false} StaysMirrored(p: Policy, cs: seq<Call>, pause: int)
    requires Sane(p) && pause <= PauseBound(p) && cs != [] && WellTimed(cs, pause)
    ensures Mirrors(p, EntriesAfter(p, cs), BucketsAfter(p, cs), cs[|cs| - 1].takeAt)
    ensures Answer(p, cs) == ReferenceAnswer(p, cs)
  {
    var n := |cs| - 1;
    var c := cs[n];
    var entries, buckets := EntriesAfter(p, cs[..n]), BucketsAfter(p, cs[..n]);
    if n > 0 {
      assert forall i :: 0 <= i < n ==> cs[..n][i] == cs[i];
      StaysMirrored(p, cs[..n], pause);
      assert cs[n - 1].takeAt <= c.purgeAt;
      PurgeMirrors(p, entries, buckets, cs[n - 1].takeAt, c.purgeAt);
    }
    TakeMirrors(p, Purge(p, entries, c.purgeAt), buckets, c, pause);
  }

  // ---- Noticed beyond the pause bound ----

  function Name(m: nat): string { seq(m, _ => 'x') }

  /** A slow first call of the victim key, then m other keys while it waits. */
  function Crowd(p: Policy, m: nat): seq<Call> {
    var t := PauseBound(p) + 1;
    if m == 0 then [Call(Name(0), 0, 0, t)] else Crowd(p, m - 1) + [Call(Name(m), t, t, t)]
  }

  ghost predicate Crowded(p: Policy, entries: map<string, Entry>, buckets: map<string, Bucket>, m: nat) {
    var t := PauseBound(p) + 1;
    && Name(0) in buckets && buckets[Name(0)] == Bucket(p.cap - p.interval, t)
    && |entries| == m + 1 && Name(0) in entries
    && entries[Name(0)] == Entry(Bucket(p.cap - p.interval, t), 0)
    && forall k :: k in entries ==> |k| <= m && (k != Name(0) ==> entries[k].lastSeen == t)
  }

  lemma AfterCall(p: Policy, cs: seq<Call>, c: Call)
    ensures EntriesAfter(p, cs + [c]) == AllowEntries(p, EntriesAfter(p, cs), c)
    ensures BucketsAfter(p, cs + [c]) == KeepBuckets(p, BucketsAfter(p, cs), c)
    ensures Answer(p, cs + [c]) == Allows(p, EntriesAfter(p, cs), c)
    ensures ReferenceAnswer(p, cs + [c]) == Admits(p, BucketOf(p, BucketsAfter(p, cs), c), c.takeAt)
  {
    assert (cs + [c])[..|cs|] == cs;
  }

  lemma FirstKey(p: Policy)
    requires Sane(p) && p.interval > 0
    ensures var c := Call(Name(0), 0, 0, PauseBound(p) + 1);
            Crowded(p, AllowEntries(p, map[], c), KeepBuckets(p, map[], c), 0)
  {
  }

  lemma OneMoreKey(p: Policy, entries: map<string, Entry>, buckets: map<string, Bucket>, m: nat)
    requires m > 0 && m <= PURGE_ABOVE && Crowded(p, entries, buckets, m - 1)
    ensures var t := PauseBound(p) + 1;
            var c := Call(Name(m), t, t, t);
            Crowded(p, AllowEntries(p, entries, c), KeepBuckets(p, buckets, c), m)
  {
    assert Name(m) !in entries && Name(m) != Name(0) && |Name(m)| == m;
  }

  lemma CrowdGrows(p: Policy, cs: seq<Call>, m: nat)
    requires m > 0 && m <= PURGE_ABOVE && Crowded(p, EntriesAfter(p, cs), BucketsAfter(p, cs), m - 1)
    ensures var t := PauseBound(p) + 1;
            var ds := cs + [Call(Name(m), t, t, t)];
            Crowded(p, EntriesAfter(p, ds), BucketsAfter(p, ds), m)
  {
    var t := PauseBound(p) + 1;
    var c := Call(Name(m), t, t, t);
    AfterCall(p, cs, c);
    OneMoreKey(p, EntriesAfter(p, cs), BucketsAfter(p, cs), m);
  }

  lemma CrowdStarts(p: Policy, c: Call)
    requires Sane(p) && p.interval > 0 && c == Call(Name(0), 0, 0, PauseBound(p) + 1)
    ensures Crowded(p, EntriesAfter(p, [c]), BucketsAfter(p, [c]), 0)
  {
    AfterCall(p, [], c);
    FirstKey(p);
    assert [c] == [] + [c];
  }

  lemma {:induction false} CrowdFills(p: Policy, m: nat)
    requires Sane(p) && p.interval > 0 && m <= PURGE_ABOVE
    ensures Crowded(p, EntriesAfter(p, Crowd(p, m)), BucketsAfter(p, Crowd(p, m)), m)
  {
    if m == 0 {
      CrowdStarts(p, Call(Name(0), 0, 0, PauseBound(p) + 1));
    } else {
      CrowdFills(p, m - 1);
      CrowdGrows(p, Crowd(p, m - 1), m);
    }
  }

  /** After j calls of the burst, spending `spent`, the limiter is one nanosecond of
      refill ahead of the reference. */
  ghost predicate Drained(p: Policy, entries: map<string, Entry>, buckets: map<string, Bucket>, spent: int) {
    && (forall k :: k in entries ==> entries[k].lastSeen > 0)
    && Name(0) in entries && entries[Name(0)].bucket == Bucket(p.cap - spent, p.ttl + 1)
    && Name(0) in buckets && buckets[Name(0)] == Bucket(p.cap - 1 - spent, p.ttl + 1)
  }

  lemma FirstOfBurst(p: Policy, entries: map<string, Entry>, buckets: map<string, Bucket>, m: nat)
    requires Sane(p) && p.interval > 0 && m == PURGE_ABOVE && Crowded(p, entries, buckets, m)
    ensures var t := p.ttl + 1;
            var c := Call(Name(0), t, t, t);
            && Allows(p, entries, c) && Admits(p, BucketOf(p, buckets, c), t) == (p.cap - 1 >= p.interval)
            && (p.cap - 1 >= p.interval ==> Drained(p, AllowEntries(p, entries, c), KeepBuckets(p, buckets, c), p.interval))
  {
    assert Name(0) in Stale(p, entries, p.ttl + 1);
  }

  lemma NextOfBurst(p: Policy, entries: map<string, Entry>, buckets: map<string, Bucket>, spent: int)
    requires Sane(p) && p.interval > 0 && Drained(p, entries, buckets, spent) && p.cap - spent >= p.interval && spent >= 0
    ensures var t := p.ttl + 1;
            var c := Call(Name(0), t, t, t);
            && Allows(p, entries, c) && Admits(p, BucketOf(p, buckets, c), t) == (p.cap - spent - 1 >= p.interval)
            && (p.cap - spent - 1 >= p.interval ==>
                  Drained(p, AllowEntries(p, entries, c), KeepBuckets(p, buckets, c), spent + p.interval))
  {
    assert Stale(p, entries, p.ttl + 1) == {};
    assert Purge(p, entries, p.ttl + 1) == entries;
  }

  ghost predicate BurstAt(p: Policy, cs: seq<Call>, j: nat) {
    Drained(p, EntriesAfter(p, cs), BucketsAfter(p, cs), Spent(p.interval, j))
  }

  function Victim(p: Policy): Call { Call(Name(0), p.ttl + 1, p.ttl + 1, p.ttl + 1) }

  /** What the next call of the burst does to both limiters: both admit it, or the
      evicting one alone does when it is the last of the burst. */
  ghost predicate Splits(p: Policy, entries: map<string, Entry>, buckets: map<string, Bucket>, j: nat) {
    var c := Victim(p);
    && Allows(p, entries, c)
    && Admits(p, BucketOf(p, buckets, c), c.takeAt) == (j < p.burst)
    && (j < p.burst ==> Drained(p, AllowEntries(p, entries, c), KeepBuckets(p, buckets, c), Spent(p.interval, j)))
  }

  lemma FirstSplits(p: Policy, entries: map<string, Entry>, buckets: map<string, Bucket>, m: nat)
    requires Sane(p) && p.cap == Spent(p.interval, p.burst) && p.interval > 0 && m == PURGE_ABOVE
    requires Crowded(p, entries, buckets, m)
    ensures Splits(p, entries, buckets, 1)
  {
    BurstLevels(p.interval, p.burst, 1);
    FirstOfBurst(p, entries, buckets, m);
  }

  lemma NextSplits(p: Policy, entries: map<string, Entry>, buckets: map<string, Bucket>, j: nat)
    requires Sane(p) && p.cap == Spent(p.interval, p.burst) && p.interval > 0 && 1 <= j < p.burst
    requires Drained(p, entries, buckets, Spent(p.interval, j))
    ensures Splits(p, entries, buckets, j + 1)
  {
    BurstLevels(p.interval, p.burst, j + 1);
    NextOfBurst(p, entries, buckets, Spent(p.interval, j));
  }

  lemma BurstStarts(p: Policy, cs: seq<Call>, m: nat)
    requires Sane(p) && p.cap == Spent(p.interval, p.burst) && p.interval > 0 && m == PURGE_ABOVE
    requires Crowded(p, EntriesAfter(p, cs), BucketsAfter(p, cs), m)
    ensures if p.burst > 1 then BurstAt(p, cs + [Victim(p)], 1)
            else Answer(p, cs + [Victim(p)]) != ReferenceAnswer(p, cs + [Victim(p)])
  {
    FirstSplits(p, EntriesAfter(p, cs), BucketsAfter(p, cs), m);
    AfterCall(p, cs, Victim(p));
  }

  lemma BurstGoesOn(p: Policy, cs: seq<Call>, j: nat)
    requires Sane(p) && p.cap == Spent(p.interval, p.burst) && p.interval > 0
    requires 1 <= j < p.burst && BurstAt(p, cs, j)
    ensures if j + 1 < p.burst then BurstAt(p, cs + [Victim(p)], j + 1)
            else Answer(p, cs + [Victim(p)]) != ReferenceAnswer(p, cs + [Victim(p)])
  {
    NextSplits(p, EntriesAfter(p, cs), BucketsAfter(p, cs), j);
    AfterCall(p, cs, Victim(p));
  }

  /** From j admissions on, further calls at the same instant reach one that the two
      answer differently. */
  lemma {:induction false} BurstTells(p: Policy, cs: seq<Call>, j: nat)
    requires Sane(p) && p.cap == Spent(p.interval, p.burst) && p.interval > 0
    requires 1 <= j < p.burst && BurstAt(p, cs, j) && TimedUpTo(p, cs, p.ttl + 1)
    ensures exists ds :: TimedUpTo(p, ds, p.ttl + 1) && Answer(p, ds) != ReferenceAnswer(p, ds)
    decreases p.burst - j
  {
    BurstGoesOn(p, cs, j);
    VictimTimed(p, cs);
    if j + 1 < p.burst { BurstTells(p, cs + [Victim(p)], j + 1); }
  }

  lemma VictimTimed(p: Policy, cs: seq<Call>)
    requires Sane(p) && TimedUpTo(p, cs, p.ttl + 1)
    ensures TimedUpTo(p, cs + [Victim(p)], p.ttl + 1)
  {
  }

  /** The level j admissions cost. */
  function Spent(interval: nat, j: nat): nat { if j == 0 then 0 else Spent(interval, j - 1) + interval }

  lemma {:induction false} SpentIsProduct(interval: nat, j: nat)
    ensures Spent(interval, j) == j * interval
  {
    if j > 0 {
      SpentIsProduct(interval, j - 1);
      MulSucc(j - 1, interval);
    }
  }

  lemma {:induction false} BurstLevels(interval: nat, burst: nat, j: nat)
    requires 1 <= j <= burst
    ensures Spent(interval, j) == Spent(interval, j - 1) + interval
    ensures j < burst ==> Spent(interval, burst) >= Spent(interval, j) + interval
    decreases burst
  {
    if j < burst - 1 { BurstLevels(interval, burst - 1, j); }
  }

  ghost predicate TimedUpTo(p: Policy, cs: seq<Call>, t: Time) {
    cs != [] && WellTimed(cs, PauseBound(p) + 1) && cs[|cs| - 1].takeAt <= t
  }

  lemma {:induction false} CrowdWellTimed(p: Policy, m: nat)
    requires Sane(p) && p.interval > 0
    ensures TimedUpTo(p, Crowd(p, m), PauseBound(p) + 1)
  {
    if m > 0 { CrowdWellTimed(p, m - 1); }
  }

  lemma LongPauseIsNoticed(p: Policy, pause: int, m: nat)
    requires Sane(p) && CapIsBurst(p) && p.interval > 0 && pause > PauseBound(p) && m == PURGE_ABOVE
    ensures !EvictionUnnoticed(p, pause)
  {
    CrowdFills(p, m);
    CrowdWellTimed(p, m);
    SpentIsProduct(p.interval, p.burst);
    CrowdTells(p, Crowd(p, m), m);
    var ds :| TimedUpTo(p, ds, p.ttl + 1) && Answer(p, ds) != ReferenceAnswer(p, ds);
    assert WellTimed(ds, pause);
  }

  lemma CrowdTells(p: Policy, cs: seq<Call>, m: nat)
    requires Sane(p) && p.cap == Spent(p.interval, p.burst) && p.interval > 0 && m == PURGE_ABOVE
    requires Crowded(p, EntriesAfter(p, cs), BucketsAfter(p, cs), m) && TimedUpTo(p, cs, PauseBound(p) + 1)
    ensures exists ds :: TimedUpTo(p, ds, p.ttl + 1) && Answer(p, ds) != ReferenceAnswer(p, ds)
  {
    BurstStarts(p, cs, m);
    FirstVictimTimed(p, cs);
    if p.burst > 1 { BurstTells(p, cs + [Victim(p)], 1); }
  }

  lemma FirstVictimTimed(p: Policy, cs: seq<Call>)
    requires Sane(p) && p.interval > 0 && TimedUpTo(p, cs, PauseBound(p) + 1)
    ensures TimedUpTo(p, cs + [Victim(p)], p.ttl + 1)
  {
  }

  /** Eviction is unobservable exactly when no call is delayed, between noting
      lastSeen and taking its token, by more than four windows less one refill
      interval (plus the nanosecond of the strict comparison). */
  lemma EvictionUnnoticedExactly(max: int, window: int, pause: int)
    ensures var p := New(max, window);
            p.interval > 0 ==> (EvictionUnnoticed(p, pause) <==> pause <= PauseBound(p))
    ensures var p := New(max, window);
            p.interval == 0 ==> EvictionUnnoticed(p, pause)
  {
    var p := New(max, window);
    NewIsSane(max, window);
    if p.interval == 0 {
      forall cs | cs != [] && WellTimed(cs, pause) ensures Answer(p, cs) == ReferenceAnswer(p, cs) { }
    } else if pause <= PauseBound(p) {
      forall cs | cs != [] && WellTimed(cs, pause) ensures Answer(p, cs) == ReferenceAnswer(p, cs) {
        StaysMirrored(p, cs, pause);
      }
    } else {
      LongPauseIsNoticed(p, pause, PURGE_ABOVE);
    }
  }

  // ---- How much a key can get ----

  /** Admissions of key among the calls from position `from` on. */
  function Admitted(p: Policy, cs: seq<Call>, from: nat, key: string): nat {
    if |cs| <= from then 0
    else
      Admitted(p, cs[..|cs| - 1], from, key) + if cs[|cs| - 1].key == key && Answer(p, cs) then 1 else 0
  }

  function LevelOf(p: Policy, buckets: map<string, Bucket>, key: string, t: Time): int {
    if key in buckets then LevelAt(p, buckets[key], t) else p.cap
  }

  lemma {:induction false} AdmissionsPaidFor(p: Policy, cs: seq<Call>, from: nat, key: string, pause: int)
    requires Sane(p) && p.interval > 0 && pause <= PauseBound(p) && WellTimed(cs, pause) && from < |cs|
    ensures Paid(p, cs, from, key)
  {
    var n := |cs| - 1;
    if n > from {
      assert forall i :: 0 <= i < n ==> cs[..n][i] == cs[i];
      AdmissionsPaidFor(p, cs[..n], from, key, pause);
    }
    StaysMirrored(p, cs, pause);
    LastCallPaid(p, cs, from, key);
  }

  ghost predicate Paid(p: Policy, cs: seq<Call>, from: nat, key: string)
    requires from < |cs|
  {
    var now := cs[|cs| - 1].takeAt;
    Admitted(p, cs, from, key) * p.interval + LevelOf(p, BucketsAfter(p, cs), key, now) <= p.cap + now - cs[from].takeAt
  }

  lemma LastCallPaid(p: Policy, cs: seq<Call>, from: nat, key: string)
    requires Sane(p) && p.interval > 0 && from < |cs| && Answer(p, cs) == ReferenceAnswer(p, cs)
    requires var n := |cs| - 1; from < n ==> Paid(p, cs[..n], from, key) && cs[n - 1].takeAt <= cs[n].takeAt
    ensures Paid(p, cs, from, key)
  {
    var n := |cs| - 1;
    var before := if n > from then Admitted(p, cs[..n], from, key) else 0;
    var one := if cs[n].key == key && Answer(p, cs) then 1 else 0;
    OneCallPays(p, BucketsAfter(p, cs[..n]), cs[n], key, if n > from then cs[n - 1].takeAt else cs[n].takeAt);
    AdmittedNext(p, cs, from, key, before, one);
    OneMore(before, one, p.interval);
  }

  lemma AdmittedNext(p: Policy, cs: seq<Call>, from: nat, key: string, before: nat, one: nat)
    requires from < |cs| && before == (if |cs| - 1 > from then Admitted(p, cs[..|cs| - 1], from, key) else 0)
    requires one == if cs[|cs| - 1].key == key && Answer(p, cs) then 1 else 0
    ensures Admitted(p, cs, from, key) == before + one
  {
  }

  lemma OneMore(a: nat, one: nat, d: nat)
    requires one <= 1
    ensures (a + one) * d == a * d + if one == 1 then d else 0
    ensures 0 * d == 0
  {
    MulSucc(a, d);
  }

  lemma MulSucc(a: int, d: int)
    ensures (a + 1) * d == a * d + d
  {
  }

  /** A call pays one interval of level for an admission, and elapsed time refills at
      most its own length. */
  lemma OneCallPays(p: Policy, buckets: map<string, Bucket>, c: Call, key: string, before: Time)
    requires Sane(p) && p.interval > 0 && before <= c.takeAt
    ensures var paid := if key == c.key && Admits(p, BucketOf(p, buckets, c), c.takeAt) then p.interval else 0;
            LevelOf(p, KeepBuckets(p, buckets, c), key, c.takeAt) + paid <= LevelOf(p, buckets, key, before) + c.takeAt - before
    ensures LevelOf(p, buckets, key, before) <= p.cap
  {
  }

  /** Over any span between two calls, one key is admitted at most its burst plus one
      per refill interval of the span. */
  lemma AdmissionBound(p: Policy, cs: seq<Call>, from: nat, key: string, pause: int)
    requires Sane(p) && CapIsBurst(p) && p.interval > 0 && pause <= PauseBound(p) && WellTimed(cs, pause) && from < |cs|
    ensures var span := cs[|cs| - 1].takeAt - cs[from].takeAt;
            span >= 0 && Admitted(p, cs, from, key) <= p.burst + span / p.interval
  {
    AdmissionsPaidFor(p, cs, from, key, pause);
    StaysMirrored(p, cs, pause);
    TimesAscend(cs, from, pause);
    QuotientBound(Admitted(p, cs, from, key), p.burst, p.interval, cs[|cs| - 1].takeAt - cs[from].takeAt);
  }

  lemma QuotientBound(a: nat, burst: nat, interval: nat, span: nat)
    requires interval > 0 && a * interval <= burst * interval + span
    ensures a <= burst + span / interval
  {
    var q := span / interval;
    assert span < (q + 1) * interval;
    if a >= burst + q + 1 {
      MulMonotone(burst + q + 1, a, interval);
    }
  }

  lemma {:induction false} TimesAscend(cs: seq<Call>, from: nat, pause: int)
    requires WellTimed(cs, pause) && from < |cs|
    ensures cs[from].takeAt <= cs[|cs| - 1].takeAt
  {
    var n := |cs| - 1;
    if from < n {
      assert forall i :: 0 <= i < n ==> cs[..n][i] == cs[i];
      TimesAscend(cs[..n], from, pause);
    }
  }
}
