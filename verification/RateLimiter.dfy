/**
 The two limiters: a request counter per key and a lockout after failed logins. Both
 evict old entries now and then; the model without eviction decides alike. Times are
 nanoseconds of a clock that starts at or after 0 and never runs back, periods are
 given in seconds.
 */
module RateLimiter {
  const NANOS := 1_000_000_000

  // ------------------------------------------------------------------
  // Request counter
  // ------------------------------------------------------------------

  datatype Bucket = Bucket(start: int, count: nat)

  datatype Quota = Quota(max: nat, window: int)

  datatype Decision = Decision(allowed: bool, observed: nat, limit: nat, retryAfter: int)

  type Buckets = map<string, Bucket>

  function BucketOf(m: Buckets, key: string): Bucket {
    if key in m then m[key] else Bucket(0, 0)
  }

  predicate Live(q: Quota, b: Bucket, now: int) {
    now - b.start < q.window * NANOS
  }

  /** The bucket after one more request. */
  function Counted(q: Quota, b: Bucket, now: int): Bucket {
    if Live(q, b, now) then b.(count := b.count + 1) else Bucket(now, 1)
  }

  /** `duration_cast` drops the fraction, towards zero. */
  function Seconds(nanos: int): int {
    if nanos >= 0 then nanos / NANOS else -((-nanos) / NANOS)
  }

  function Decide(q: Quota, b: Bucket, now: int): Decision {
    var allowed := b.count <= q.max;
    var retry := if allowed then 0 else q.window - Seconds(now - b.start);
    Decision(allowed, b.count, q.max, if retry > 0 then retry else 1)
  }

  predicate Evicted(q: Quota, b: Bucket, now: int) {
    now - b.start >= 2 * (q.window * NANOS)
  }

  function Sweep(q: Quota, m: Buckets, now: int): Buckets {
    map k | k in m && !Evicted(q, m[k], now) :: m[k]
  }

  class SlidingWindowLimiter {
    const quota: Quota
    var lastSweep: int
    var buckets: Buckets

    constructor (max: nat, window: int, now: int)
      ensures quota == Quota(max, window) && lastSweep == now && buckets == map[]
    {
      quota, lastSweep, buckets := Quota(max, window), now, map[];
    }

    method MaybeSweep(now: int)
      modifies this
      ensures now - old(lastSweep) < quota.window * NANOS ==> lastSweep == old(lastSweep) && buckets == old(buckets)
      ensures now - old(lastSweep) >= quota.window * NANOS ==>
                lastSweep == now && buckets == Sweep(quota, old(buckets), now)
    {
      if now - lastSweep < quota.window * NANOS {
        return;
      }
      lastSweep := now;
      var todo := buckets.Keys;
      while todo != {}
        invariant lastSweep == now && todo <= buckets.Keys <= old(buckets).Keys
        invariant forall k | k in old(buckets) ::
          k in buckets <==> k in todo || !Evicted(quota, old(buckets)[k], now)
        invariant forall k | k in buckets :: buckets[k] == old(buckets)[k]
        decreases |todo|
      {
        var k :| k in todo;
        if now - buckets[k].start >= 2 * (quota.window * NANOS) {
          buckets := buckets - {k};
        }
        todo := todo - {k};
      }
    }

    method Allow(key: string, now: int) returns (d: Decision)
      modifies this
      ensures var swept := now - old(lastSweep) >= quota.window * NANOS;
              var m := if swept then Sweep(quota, old(buckets), now) else old(buckets);
              var b := Counted(quota, BucketOf(m, key), now);
              && lastSweep == (if swept then now else old(lastSweep))
              && buckets == m[key := b] && d == Decide(quota, b, now)
    {
      MaybeSweep(now);
      var b := Count(key, now);
      var allowed := b.count <= quota.max;
      var elapsed := Seconds(now - b.start);
      var retry := if allowed then 0 else quota.window - elapsed;
      d := Decision(allowed, b.count, quota.max, if retry > 0 then retry else 1);
    }

    method Count(key: string, now: int) returns (b: Bucket)
      modifies this`buckets
      ensures b == Counted(quota, BucketOf(old(buckets), key), now) && buckets == old(buckets)[key := b]
    {
      b := if key in buckets then buckets[key] else Bucket(0, 0);
      if now - b.start >= quota.window * NANOS {
        b := Bucket(now, 0);
      }
      b := b.(count := b.count + 1);
      buckets := buckets[key := b];
    }
  }

  datatype Request = Request(key: string, now: int)

  ghost predicate Ordered(rs: seq<Request>, from: int) {
    rs != [] ==> from <= rs[0].now && Ordered(rs[1..], rs[0].now)
  }

  /** No bucket starts before the clock or in the future. */
  ghost predicate Started(m: Buckets, now: int) {
    forall k | k in m :: 0 <= m[k].start <= now
  }

  function After(q: Quota, m: Buckets, r: Request): Buckets {
    m[r.key := Counted(q, BucketOf(m, r.key), r.now)]
  }

  function MaybeSwept(q: Quota, m: Buckets, last: int, now: int): Buckets {
    if now - last >= q.window * NANOS then Sweep(q, m, now) else m
  }

  function SweptAt(q: Quota, last: int, now: int): int {
    if now - last >= q.window * NANOS then now else last
  }

  lemma AfterStarted(q: Quota, m: Buckets, r: Request, from: int)
    requires Started(m, from) && 0 <= from <= r.now
    ensures Started(After(q, m, r), r.now) && Counted(q, BucketOf(m, r.key), r.now).start <= r.now
  {
  }

  /** The answers of the limiter, one per request. */
  ghost function Answers(q: Quota, m: Buckets, last: int, rs: seq<Request>, from: int): seq<Decision>
    requires 0 <= from && Started(m, from) && Ordered(rs, from)
    decreases |rs|
  {
    if rs == [] then [] else
    var r := rs[0];
    var m' := MaybeSwept(q, m, last, r.now);
    AfterStarted(q, m', r, from);
    [Decide(q, Counted(q, BucketOf(m', r.key), r.now), r.now)]
    + Answers(q, After(q, m', r), SweptAt(q, last, r.now), rs[1..], r.now)
  }

  /** The answers without eviction. */
  ghost function PlainAnswers(q: Quota, m: Buckets, rs: seq<Request>, from: int): seq<Decision>
    requires 0 <= from && Started(m, from) && Ordered(rs, from)
    decreases |rs|
  {
    if rs == [] then [] else
    var r := rs[0];
    AfterStarted(q, m, r, from);
    [Decide(q, Counted(q, BucketOf(m, r.key), r.now), r.now)] + PlainAnswers(q, After(q, m, r), rs[1..], r.now)
  }

  /** Two buckets no request can tell apart any more. */
  predicate Alike(q: Quota, b: Bucket, c: Bucket, now: int) {
    b == c || (!Live(q, b, now) && !Live(q, c, now))
  }

  ghost predicate AllAlike(q: Quota, m: Buckets, f: Buckets, now: int) {
    forall k :: Alike(q, BucketOf(m, k), BucketOf(f, k), now)
  }

  lemma SweepAlike(q: Quota, m: Buckets, f: Buckets, now: int)
    requires 0 <= now && Started(m, now) && Started(f, now) && AllAlike(q, m, f, now)
    ensures AllAlike(q, Sweep(q, m, now), f, now)
  {
  }

  lemma AfterAlike(q: Quota, m: Buckets, f: Buckets, r: Request)
    requires AllAlike(q, m, f, r.now)
    ensures Counted(q, BucketOf(m, r.key), r.now) == Counted(q, BucketOf(f, r.key), r.now)
    ensures AllAlike(q, After(q, m, r), After(q, f, r), r.now)
  {
    assert Alike(q, BucketOf(m, r.key), BucketOf(f, r.key), r.now);
    forall k ensures Alike(q, BucketOf(After(q, m, r), k), BucketOf(After(q, f, r), k), r.now) {
      assert Alike(q, BucketOf(m, k), BucketOf(f, k), r.now);
    }
  }

  /** Eviction is invisible. */
  lemma {:induction false} SweepsInvisible(q: Quota, m: Buckets, f: Buckets, last: int, rs: seq<Request>, from: int)
    requires 0 <= from && Started(m, from) && Started(f, from) && Ordered(rs, from) && AllAlike(q, m, f, from)
    ensures Answers(q, m, last, rs, from) == PlainAnswers(q, f, rs, from)
    decreases |rs|
  {
    if rs != [] {
      var r := rs[0];
      var m' := MaybeSwept(q, m, last, r.now);
      assert AllAlike(q, m, f, r.now);
      SweepAlike(q, m, f, r.now);
      AfterAlike(q, m', f, r);
      AfterStarted(q, m', r, from);
      AfterStarted(q, f, r, from);
      SweepsInvisible(q, After(q, m', r), After(q, f, r), SweptAt(q, last, r.now), rs[1..], r.now);
    }
  }

  // ------------------------------------------------------------------
  // How much gets through
  // ------------------------------------------------------------------

  /** Allowed requests of `key` in [lo, hi). */
  ghost function Allowed(q: Quota, m: Buckets, rs: seq<Request>, key: string, lo: int, hi: int): nat
    decreases |rs|
  {
    if rs == [] then 0 else
    var r := rs[0];
    var passes := Counted(q, BucketOf(m, r.key), r.now).count <= q.max;
    (if r.key == key && lo <= r.now < hi && passes then 1 else 0) + Allowed(q, After(q, m, r), rs[1..], key, lo, hi)
  }

  function Left(q: Quota, b: Bucket): nat {
    if b.count < q.max then q.max - b.count else 0
  }

  lemma {:induction false} NothingLater(
    q: Quota, m: Buckets, rs: seq<Request>, from: int, key: string, lo: int, hi: int)
    requires Ordered(rs, from) && hi <= from
    ensures Allowed(q, m, rs, key, lo, hi) == 0
    decreases |rs|
  {
    if rs != [] {
      NothingLater(q, After(q, m, rs[0]), rs[1..], rs[0].now, key, lo, hi);
    }
  }

  /** Until the window of the bucket ends, only what its quota leaves gets through. */
  lemma {:induction false} SameWindow(q: Quota, m: Buckets, rs: seq<Request>, from: int, key: string, lo: int, hi: int)
    requires Ordered(rs, from) && hi <= BucketOf(m, key).start + q.window * NANOS
    ensures Allowed(q, m, rs, key, lo, hi) <= Left(q, BucketOf(m, key))
    decreases |rs|
  {
    if rs != [] {
      var r := rs[0];
      if r.now >= hi {
        NothingLater(q, After(q, m, r), rs[1..], r.now, key, lo, hi);
      } else {
        SameWindow(q, After(q, m, r), rs[1..], r.now, key, lo, hi);
      }
    }
  }

  /** From inside the interval: what is left of the running window, and one more window. */
  lemma {:induction false} TwoWindows(q: Quota, m: Buckets, rs: seq<Request>, from: int, key: string, lo: int)
    requires Ordered(rs, from) && lo <= from
    ensures Allowed(q, m, rs, key, lo, lo + q.window * NANOS) <= Left(q, BucketOf(m, key)) + q.max
    decreases |rs|
  {
    if rs != [] {
      var r, hi := rs[0], lo + q.window * NANOS;
      if r.now >= hi {
        NothingLater(q, After(q, m, r), rs[1..], r.now, key, lo, hi);
      } else if r.key == key && !Live(q, BucketOf(m, key), r.now) {
        SameWindow(q, After(q, m, r), rs[1..], r.now, key, lo, hi);
      } else {
        TwoWindows(q, After(q, m, r), rs[1..], r.now, key, lo);
      }
    }
  }

  /** In any interval as long as the window at most twice the quota gets through. */
  lemma {:induction false} TwiceTheQuota(q: Quota, m: Buckets, rs: seq<Request>, from: int, key: string, lo: int)
    requires Ordered(rs, from)
    ensures Allowed(q, m, rs, key, lo, lo + q.window * NANOS) <= 2 * q.max
    decreases |rs|
  {
    if rs != [] {
      if rs[0].now < lo {
        TwiceTheQuota(q, After(q, m, rs[0]), rs[1..], rs[0].now, key, lo);
      } else {
        assert Ordered(rs, rs[0].now);
        TwoWindows(q, m, rs, rs[0].now, key, lo);
      }
    }
  }

  /** What the limiter itself lets through, counted in its answers. */
  ghost function Granted(ds: seq<Decision>, rs: seq<Request>, key: string, lo: int, hi: int): nat
    requires |ds| == |rs|
    decreases |rs|
  {
    if rs == [] then 0
    else
      var counts := rs[0].key == key && lo <= rs[0].now < hi && ds[0].allowed;
      (if counts then 1 else 0) + Granted(ds[1..], rs[1..], key, lo, hi)
  }

  lemma {:induction false} PlainGrants(q: Quota, m: Buckets, rs: seq<Request>, from: int, key: string, lo: int, hi: int)
    requires 0 <= from && Started(m, from) && Ordered(rs, from)
    ensures |PlainAnswers(q, m, rs, from)| == |rs|
    ensures Granted(PlainAnswers(q, m, rs, from), rs, key, lo, hi) == Allowed(q, m, rs, key, lo, hi)
    decreases |rs|
  {
    if rs != [] {
      AfterStarted(q, m, rs[0], from);
      PlainGrants(q, After(q, m, rs[0]), rs[1..], rs[0].now, key, lo, hi);
      assert PlainAnswers(q, m, rs, from)[1..] == PlainAnswers(q, After(q, m, rs[0]), rs[1..], rs[0].now);
    }
  }

  /** A new limiter, whenever it was created: at most twice the quota in any interval as long as the window. */
  lemma LimiterBound(q: Quota, created: int, rs: seq<Request>, key: string, lo: int)
    requires Ordered(rs, 0)
    ensures |Answers(q, map[], created, rs, 0)| == |rs|
    ensures Granted(Answers(q, map[], created, rs, 0), rs, key, lo, lo + q.window * NANOS) <= 2 * q.max
  {
    SweepsInvisible(q, map[], map[], created, rs, 0);
    PlainGrants(q, map[], rs, 0, key, lo, lo + q.window * NANOS);
    TwiceTheQuota(q, map[], rs, 0, key, lo);
  }

  /** Twice the quota does get through: at the end of the window a new bucket starts at 0, and in the next one. */
  lemma TwiceIsReached()
    ensures var q, rs := Quota(1, 1), [Request("a", NANOS - 1), Request("a", NANOS)];
            Ordered(rs, 0) && Allowed(q, map[], rs, "a", NANOS - 1, NANOS - 1 + q.window * NANOS) == 2 * q.max
  {
    var q, a, b := Quota(1, 1), Request("a", NANOS - 1), Request("a", NANOS);
    assert [a, b][1..] == [b] && [b][1..] == [];
    var m1 := After(q, map[], a);
    assert BucketOf(m1, "a") == Bucket(0, 1) && Counted(q, Bucket(0, 1), b.now) == Bucket(NANOS, 1);
    assert Allowed(q, m1, [b], "a", NANOS - 1, NANOS - 1 + q.window * NANOS) == 1;
  }

  /** A blocked client that waits as long as it is told to is let in, if any request is. */
  lemma RetryAfterSuffices(q: Quota, b: Bucket, now: int)
    requires b.start <= now && q.max >= 1 && !Decide(q, Counted(q, b, now), now).allowed
    ensures var c, wait := Counted(q, b, now), Decide(q, Counted(q, b, now), now).retryAfter * NANOS;
            Counted(q, c, now + wait).count == 1 && Decide(q, Counted(q, c, now + wait), now + wait).allowed
  {
  }

  // ------------------------------------------------------------------
  // Login lockout
  // ------------------------------------------------------------------

  datatype Entry = Entry(first: int, failures: nat, lockedUntil: int)

  datatype Policy = Policy(maxFailures: nat, window: int, lockout: int)

  type Entries = map<string, Entry>

  const NEW_ENTRY := Entry(0, 0, 0)

  function EntryOf(m: Entries, key: string): Entry {
    if key in m then m[key] else NEW_ENTRY
  }

  predicate Streak(p: Policy, e: Entry, now: int) {
    e.failures > 0 && now - e.first < p.window * NANOS
  }

  predicate Idle(p: Policy, e: Entry, now: int) {
    e.lockedUntil <= now && !Streak(p, e, now)
  }

  /** The whole seconds that remain. */
  function Remaining(e: Entry, now: int): (r: int)
    ensures r >= 0
  {
    if e.lockedUntil > now then (e.lockedUntil - now) / NANOS else 0
  }

  function LockedIn(m: Entries, key: string, now: int): int {
    if key in m then Remaining(m[key], now) else 0
  }

  function Failed(p: Policy, e: Entry, now: int): (Entry, bool) {
    var first, n := if Streak(p, e, now) then e.first else now, if Streak(p, e, now) then e.failures + 1 else 1;
    if n >= p.maxFailures then (Entry(first, 0, now + p.lockout * NANOS), true)
    else (Entry(first, n, e.lockedUntil), false)
  }

  function SweepEntries(p: Policy, m: Entries, now: int): Entries {
    map k | k in m && !Idle(p, m[k], now) :: m[k]
  }

  class LoginThrottler {
    const policy: Policy
    var lastSweep: int
    var entries: Entries

    constructor (maxFailures: nat, window: int, lockout: int, now: int)
      ensures policy == Policy(maxFailures, window, lockout) && lastSweep == now && entries == map[]
    {
      policy, lastSweep, entries := Policy(maxFailures, window, lockout), now, map[];
    }

    method LockedFor(key: string, now: int) returns (seconds: int)
      ensures seconds == LockedIn(entries, key, now)
    {
      if key !in entries {
        return 0;
      }
      if entries[key].lockedUntil > now {
        return (entries[key].lockedUntil - now) / NANOS;
      }
      return 0;
    }

    method MaybeSweep(now: int)
      modifies this
      ensures now - old(lastSweep) < policy.window * NANOS ==> lastSweep == old(lastSweep) && entries == old(entries)
      ensures now - old(lastSweep) >= policy.window * NANOS ==>
                lastSweep == now && entries == SweepEntries(policy, old(entries), now)
    {
      if now - lastSweep < policy.window * NANOS {
        return;
      }
      lastSweep := now;
      var todo := entries.Keys;
      while todo != {}
        invariant lastSweep == now && todo <= entries.Keys <= old(entries).Keys
        invariant forall k | k in old(entries) :: k in entries <==> k in todo || !Idle(policy, old(entries)[k], now)
        invariant forall k | k in entries :: entries[k] == old(entries)[k]
        decreases |todo|
      {
        var k :| k in todo;
        var locked := entries[k].lockedUntil > now;
        var active := entries[k].failures > 0 && now - entries[k].first < policy.window * NANOS;
        if !locked && !active {
          entries := entries - {k};
        }
        todo := todo - {k};
      }
    }

    method RecordFailure(key: string, now: int) returns (tripped: bool)
      modifies this
      ensures var swept := now - old(lastSweep) >= policy.window * NANOS;
              var m := if swept then SweepEntries(policy, old(entries), now) else old(entries);
              var r := Failed(policy, EntryOf(m, key), now);
              lastSweep == (if swept then now else old(lastSweep)) && entries == m[key := r.0] && tripped == r.1
    {
      MaybeSweep(now);
      var e := if key in entries then entries[key] else NEW_ENTRY;
      if e.failures == 0 || now - e.first >= policy.window * NANOS {
        e := e.(first := now, failures := 0);
      }
      e := e.(failures := e.failures + 1);
      tripped := e.failures >= policy.maxFailures;
      if tripped {
        e := e.(lockedUntil := now + policy.lockout * NANOS, failures := 0);
      }
      entries := entries[key := e];
    }

    method RecordSuccess(key: string)
      modifies this
      ensures entries == old(entries) - {key} && lastSweep == old(lastSweep)
    {
      entries := entries - {key};
    }
  }

  datatype Call =
    | Check(key: string, now: int)
    | Failure(key: string, now: int)
    | Success(key: string, now: int)

  /** What the caller gets: seconds locked, or whether the failure tripped the lock. */
  datatype Answer = Locked(value: int) | Tripped(value_: bool) | Nothing

  ghost predicate InOrder(cs: seq<Call>, from: int) {
    cs != [] ==> from <= cs[0].now && InOrder(cs[1..], cs[0].now)
  }

  function AnswerTo(p: Policy, m: Entries, c: Call): Answer {
    match c
    case Check(key, now) => Locked(LockedIn(m, key, now))
    case Failure(key, now) => Tripped(Failed(p, EntryOf(m, key), now).1)
    case Success(_, _) => Nothing
  }

  function AfterCall(p: Policy, m: Entries, c: Call): Entries {
    match c
    case Check(_, _) => m
    case Failure(key, now) => m[key := Failed(p, EntryOf(m, key), now).0]
    case Success(key, _) => m - {key}
  }

  /** Only a failure sweeps. */
  function BeforeCall(p: Policy, m: Entries, last: int, c: Call): Entries {
    if c.Failure? && c.now - last >= p.window * NANOS then SweepEntries(p, m, c.now) else m
  }

  function LastSweep(p: Policy, last: int, c: Call): int {
    if c.Failure? && c.now - last >= p.window * NANOS then c.now else last
  }

  function Replies(p: Policy, m: Entries, last: int, cs: seq<Call>): seq<Answer>
    decreases |cs|
  {
    if cs == [] then [] else
    var m' := BeforeCall(p, m, last, cs[0]);
    [AnswerTo(p, m', cs[0])] + Replies(p, AfterCall(p, m', cs[0]), LastSweep(p, last, cs[0]), cs[1..])
  }

  function PlainReplies(p: Policy, m: Entries, cs: seq<Call>): seq<Answer>
    decreases |cs|
  {
    if cs == [] then [] else [AnswerTo(p, m, cs[0])] + PlainReplies(p, AfterCall(p, m, cs[0]), cs[1..])
  }

  /** Two entries no call can tell apart any more. */
  predicate SameEntry(p: Policy, e: Entry, f: Entry, now: int) {
    && (e.lockedUntil == f.lockedUntil || (e.lockedUntil <= now && f.lockedUntil <= now))
    && ((e.first == f.first && e.failures == f.failures) || (!Streak(p, e, now) && !Streak(p, f, now)))
  }

  ghost predicate SameEntries(p: Policy, m: Entries, f: Entries, now: int) {
    forall k :: SameEntry(p, EntryOf(m, k), EntryOf(f, k), now)
  }

  lemma SweepSame(p: Policy, m: Entries, f: Entries, now: int)
    requires 0 <= now && SameEntries(p, m, f, now)
    ensures SameEntries(p, SweepEntries(p, m, now), f, now)
  {
  }

  lemma CallSame(p: Policy, m: Entries, f: Entries, c: Call)
    requires 0 <= c.now && SameEntries(p, m, f, c.now)
    ensures AnswerTo(p, m, c) == AnswerTo(p, f, c) && SameEntries(p, AfterCall(p, m, c), AfterCall(p, f, c), c.now)
  {
    assert SameEntry(p, EntryOf(m, c.key), EntryOf(f, c.key), c.now);
    forall k ensures SameEntry(p, EntryOf(AfterCall(p, m, c), k), EntryOf(AfterCall(p, f, c), k), c.now) {
      assert SameEntry(p, EntryOf(m, k), EntryOf(f, k), c.now);
    }
  }

  /** Eviction is invisible to every caller. */
  lemma {:induction false} LoginSweepsInvisible(p: Policy, m: Entries, f: Entries, last: int, cs: seq<Call>, from: int)
    requires 0 <= from && InOrder(cs, from) && SameEntries(p, m, f, from)
    ensures Replies(p, m, last, cs) == PlainReplies(p, f, cs)
    decreases |cs|
  {
    if cs != [] {
      var c := cs[0];
      assert SameEntries(p, m, f, c.now);
      SweepSame(p, m, f, c.now);
      var m' := BeforeCall(p, m, last, c);
      CallSame(p, m', f, c);
      LoginSweepsInvisible(p, AfterCall(p, m', c), AfterCall(p, f, c), LastSweep(p, last, c), cs[1..], c.now);
    }
  }

  /** A locked key reports 0 in its last second: the answer is positive exactly if a whole second remains. */
  lemma LockedReport(e: Entry, now: int)
    ensures Remaining(e, now) > 0 <==> e.lockedUntil - now >= NANOS
  {
  }

  lemma LockedButZero()
    ensures var e := Failed(Policy(1, 1, 1), NEW_ENTRY, 0).0;
            e.lockedUntil > 1 && Remaining(e, 1) == 0
  {
  }
}
