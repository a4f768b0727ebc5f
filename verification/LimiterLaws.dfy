/** What the answers of the two limiters say about the requests before them. */
module LimiterLaws {
  import opened RateLimiter

  // ------------------------------------------------------------------
  // Request counter
  // ------------------------------------------------------------------

  function BucketsFrom(q: Quota, m: Buckets, rs: seq<Request>): Buckets
    decreases |rs|
  {
    if rs == [] then m else After(q, BucketsFrom(q, m, rs[..|rs| - 1]), rs[|rs| - 1])
  }

  lemma {:induction false} FromFirst(q: Quota, m: Buckets, rs: seq<Request>)
    requires rs != []
    ensures BucketsFrom(q, m, rs) == BucketsFrom(q, After(q, m, rs[0]), rs[1..])
    decreases |rs|
  {
    if |rs| == 1 {
      assert rs[..0] == [] && rs[1..] == [];
    } else {
      FromFirst(q, m, rs[..|rs| - 1]);
      assert rs[..|rs| - 1][1..] == rs[1..][..|rs| - 2];
    }
  }

  /** The answer to request `i` comes from the buckets after the requests before it. */
  lemma {:induction false} PlainAt(q: Quota, m: Buckets, rs: seq<Request>, from: int, i: nat)
    requires 0 <= from && Started(m, from) && Ordered(rs, from) && i < |rs|
    ensures |PlainAnswers(q, m, rs, from)| == |rs|
    ensures PlainAnswers(q, m, rs, from)[i]
         == Decide(q, Counted(q, BucketOf(BucketsFrom(q, m, rs[..i]), rs[i].key), rs[i].now), rs[i].now)
    decreases i
  {
    PlainGrants(q, m, rs, from, "", 0, 0);
    AfterStarted(q, m, rs[0], from);
    if i == 0 {
      assert rs[..0] == [];
    } else {
      FromFirst(q, m, rs[..i]);
      assert rs[..i][1..] == rs[1..][..i - 1];
      PlainAt(q, After(q, m, rs[0]), rs[1..], rs[0].now, i - 1);
    }
  }

  lemma {:induction false} OrderedTimes(rs: seq<Request>, from: int, i: nat, j: nat)
    requires Ordered(rs, from) && i <= j < |rs|
    ensures from <= rs[i].now <= rs[j].now
    decreases |rs|
  {
    if i > 0 {
      OrderedTimes(rs[1..], rs[0].now, i - 1, j - 1);
    } else if j > 0 {
      OrderedTimes(rs[1..], rs[0].now, 0, j - 1);
    }
  }

  /** Requests of `key` from position `st` on. */
  function Number(rs: seq<Request>, st: nat, key: string): nat
    decreases |rs|
  {
    if |rs| <= st then 0
    else Number(rs[..|rs| - 1], st, key) + if rs[|rs| - 1].key == key then 1 else 0
  }

  /** The bucket counts the requests from position `st` on, which all came after its start. */
  ghost predicate Counts(b: Bucket, rs: seq<Request>, st: nat, key: string) {
    && st <= |rs| && b.count == Number(rs, st, key)
    && forall j | st <= j < |rs| && rs[j].key == key :: b.start <= rs[j].now
  }

  lemma {:induction false} BucketCounts(q: Quota, rs: seq<Request>, n: nat, key: string) returns (st: nat)
    requires Ordered(rs, 0) && n <= |rs|
    ensures Counts(BucketOf(BucketsFrom(q, map[], rs[..n]), key), rs[..n], st, key)
    ensures n < |rs| ==> BucketOf(BucketsFrom(q, map[], rs[..n]), key).start <= rs[n].now
    decreases n
  {
    if n == 0 {
      st := 0;
      if rs != [] {
        OrderedTimes(rs, 0, 0, 0);
      }
    } else {
      st := BucketCounts(q, rs, n - 1, key);
      var r, m := rs[n - 1], BucketsFrom(q, map[], rs[..n - 1]);
      assert rs[..n][..n - 1] == rs[..n - 1];
      if r.key == key && !Live(q, BucketOf(m, key), r.now) {
        st := n - 1;
        assert Number(rs[..n], n - 1, key) == Number(rs[..n - 1], n - 1, key) + 1;
      }
      if n < |rs| {
        OrderedTimes(rs, 0, n - 1, n);
      }
    }
  }

  /**
   What a request is told is the number of requests of its key, itself included, since a
   position from which on all of them lie in one window; it is refused exactly if that is more
   than the quota.
   */
  lemma ObservedIsNumber(q: Quota, created: int, rs: seq<Request>, i: nat) returns (st: nat)
    requires Ordered(rs, 0) && i < |rs|
    ensures |Answers(q, map[], created, rs, 0)| == |rs| && st <= i
    ensures var d := Answers(q, map[], created, rs, 0)[i];
            && d.observed == Number(rs[..i + 1], st, rs[i].key) && (d.allowed <==> d.observed <= q.max)
            && d.limit == q.max && d.retryAfter >= 1 && (d.allowed ==> d.retryAfter == 1)
    ensures forall j | st <= j < i && rs[j].key == rs[i].key :: rs[i].now - rs[j].now < q.window * NANOS
  {
    SweepsInvisible(q, map[], map[], created, rs, 0);
    PlainAt(q, map[], rs, 0, i);
    st := BucketCounts(q, rs, i, rs[i].key);
    assert rs[..i + 1][..i] == rs[..i];
    if !Live(q, BucketOf(BucketsFrom(q, map[], rs[..i]), rs[i].key), rs[i].now) {
      st := i;
    }
    forall j | st <= j < i && rs[j].key == rs[i].key ensures rs[i].now - rs[j].now < q.window * NANOS {
      assert rs[..i][j] == rs[j];
    }
  }

  /** Requests of `key` less than a window before `now`. */
  function Recent(q: Quota, rs: seq<Request>, key: string, now: int): nat
    decreases |rs|
  {
    if rs == [] then 0
    else
      var r := rs[|rs| - 1];
      Recent(q, rs[..|rs| - 1], key, now) + if r.key == key && now - r.now < q.window * NANOS then 1 else 0
  }

  lemma {:induction false} NumberIsRecent(q: Quota, rs: seq<Request>, st: nat, key: string, now: int)
    requires forall j | st <= j < |rs| && rs[j].key == key :: now - rs[j].now < q.window * NANOS
    ensures Number(rs, st, key) <= Recent(q, rs, key, now)
    decreases |rs|
  {
    if |rs| > st {
      NumberIsRecent(q, rs[..|rs| - 1], st, key, now);
    }
  }

  /** Nobody is refused early: at least the quota of earlier requests of the key came less than a window before. */
  lemma RefusedOnlyIfFull(q: Quota, created: int, rs: seq<Request>, i: nat)
    requires Ordered(rs, 0) && i < |rs|
    ensures |Answers(q, map[], created, rs, 0)| == |rs|
    ensures !Answers(q, map[], created, rs, 0)[i].allowed ==> Recent(q, rs[..i], rs[i].key, rs[i].now) >= q.max
  {
    var st := ObservedIsNumber(q, created, rs, i);
    assert rs[..i + 1][..i] == rs[..i];
    NumberIsRecent(q, rs[..i], st, rs[i].key, rs[i].now);
  }

  /** No longer than needed: a second earlier the same window still runs, and the key is refused again. */
  lemma RetryAfterNeeded(q: Quota, b: Bucket, now: int)
    requires b.start <= now && !Decide(q, Counted(q, b, now), now).allowed
    requires Decide(q, Counted(q, b, now), now).retryAfter > 1
    ensures var c, wait := Counted(q, b, now), (Decide(q, Counted(q, b, now), now).retryAfter - 1) * NANOS;
            !Decide(q, Counted(q, c, now + wait), now + wait).allowed
  {
  }

  // ------------------------------------------------------------------
  // Login lockout
  // ------------------------------------------------------------------

  function EntriesFrom(p: Policy, m: Entries, cs: seq<Call>): Entries
    decreases |cs|
  {
    if cs == [] then m else AfterCall(p, EntriesFrom(p, m, cs[..|cs| - 1]), cs[|cs| - 1])
  }

  lemma {:induction false} EntriesFirst(p: Policy, m: Entries, cs: seq<Call>)
    requires cs != []
    ensures EntriesFrom(p, m, cs) == EntriesFrom(p, AfterCall(p, m, cs[0]), cs[1..])
    decreases |cs|
  {
    if |cs| == 1 {
      assert cs[..0] == [] && cs[1..] == [];
    } else {
      EntriesFirst(p, m, cs[..|cs| - 1]);
      assert cs[..|cs| - 1][1..] == cs[1..][..|cs| - 2];
    }
  }

  /** `as_` are the answers to `cs`, each from the entries after the calls before. */
  ghost predicate Answered(p: Policy, cs: seq<Call>, as_: seq<Answer>) {
    |as_| == |cs| && forall i | 0 <= i < |cs| :: AnsweredAt(p, cs, as_, i)
  }

  ghost predicate AnsweredAt(p: Policy, cs: seq<Call>, as_: seq<Answer>, i: nat)
    requires i < |cs| == |as_|
  {
    as_[i] == AnswerTo(p, EntriesFrom(p, map[], cs[..i]), cs[i])
  }

  lemma {:induction false} PlainRepliesAt(p: Policy, m: Entries, cs: seq<Call>, i: nat)
    requires i < |cs|
    ensures |PlainReplies(p, m, cs)| == |cs|
    ensures PlainReplies(p, m, cs)[i] == AnswerTo(p, EntriesFrom(p, m, cs[..i]), cs[i])
    decreases |cs|
  {
    if i > 0 {
      EntriesFirst(p, m, cs[..i]);
      assert cs[..i][1..] == cs[1..][..i - 1];
      PlainRepliesAt(p, AfterCall(p, m, cs[0]), cs[1..], i - 1);
    } else {
      assert cs[..0] == [];
      if |cs| > 1 {
        PlainRepliesAt(p, AfterCall(p, m, cs[0]), cs[1..], 0);
      }
    }
  }

  lemma RepliesAnswered(p: Policy, last: int, cs: seq<Call>)
    requires InOrder(cs, 0)
    ensures Answered(p, cs, Replies(p, map[], last, cs))
  {
    LoginSweepsInvisible(p, map[], map[], last, cs, 0);
    if cs != [] {
      PlainRepliesAt(p, map[], cs, 0);
    }
    forall i | 0 <= i < |cs| ensures AnsweredAt(p, cs, PlainReplies(p, map[], cs), i) {
      PlainRepliesAt(p, map[], cs, i);
    }
  }

  lemma {:induction false} InOrderTimes(cs: seq<Call>, from: int, i: nat, j: nat)
    requires InOrder(cs, from) && i <= j < |cs|
    ensures from <= cs[i].now <= cs[j].now
    decreases |cs|
  {
    if i > 0 {
      InOrderTimes(cs[1..], cs[0].now, i - 1, j - 1);
    } else if j > 0 {
      InOrderTimes(cs[1..], cs[0].now, 0, j - 1);
    }
  }

  predicate FailureOf(c: Call, key: string) {
    c.Failure? && c.key == key
  }

  /** Failures of `key` from position `st` on. */
  function Failures(cs: seq<Call>, st: nat, key: string): nat
    decreases |cs|
  {
    if |cs| <= st then 0
    else Failures(cs[..|cs| - 1], st, key) + if FailureOf(cs[|cs| - 1], key) then 1 else 0
  }

  /** Call `i` ends a streak of `key`: a success, or a failure that tripped the lock. */
  predicate Ends(cs: seq<Call>, as_: seq<Answer>, i: nat, key: string)
    requires i < |cs| == |as_|
  {
    cs[i].key == key && (cs[i].Success? || as_[i] == Tripped(true))
  }

  ghost predicate Clean(cs: seq<Call>, as_: seq<Answer>, st: nat, n: nat, key: string)
    requires n <= |cs| == |as_|
  {
    forall i | st <= i < n :: !Ends(cs, as_, i, key)
  }

  /** No failure of `key` before position `n` counts any more. */
  ghost predicate Fresh(cs: seq<Call>, as_: seq<Answer>, n: nat, key: string)
    requires n <= |cs| == |as_|
  {
    exists r: nat :: FreshSince(cs, as_, r, n, key)
  }

  ghost predicate FreshSince(cs: seq<Call>, as_: seq<Answer>, r: nat, n: nat, key: string)
    requires n <= |cs| == |as_|
  {
    r <= n && (r == 0 || Ends(cs, as_, r - 1, key)) && forall i | r <= i < n :: !FailureOf(cs[i], key)
  }

  /** The failure at `st` is the first of a streak: none counted before it, or the last streak was over. */
  ghost predicate Begins(p: Policy, cs: seq<Call>, as_: seq<Answer>, st: nat, key: string)
    requires |cs| == |as_|
    decreases st
  {
    && st < |cs| && FailureOf(cs[st], key)
    && (Fresh(cs, as_, st, key)
        || exists s0: nat ::
             s0 < st && Begins(p, cs, as_, s0, key) && Runs(p, cs, as_, s0, st, key)
             && cs[st].now - cs[s0].now >= p.window * NANOS)
  }

  /** From `st` to `n` nothing ended the streak, and its failures lie in the window of its first. */
  ghost predicate Runs(p: Policy, cs: seq<Call>, as_: seq<Answer>, st: nat, n: nat, key: string)
    requires |cs| == |as_|
  {
    && st < n <= |cs| && Clean(cs, as_, st, n, key)
    && forall i | st < i < n && FailureOf(cs[i], key) :: cs[i].now - cs[st].now < p.window * NANOS
  }

  /** What the entry of `key` says about the calls before `n`. */
  ghost predicate Tells(p: Policy, e: Entry, cs: seq<Call>, as_: seq<Answer>, st: nat, n: nat, key: string)
    requires n <= |cs| == |as_|
  {
    if e.failures == 0 then Fresh(cs, as_, n, key)
    else
      && st < n && Begins(p, cs, as_, st, key) && Runs(p, cs, as_, st, n, key) && cs[st].now == e.first
      && e.failures == Failures(cs[..n], st, key)
  }

  lemma FreshOn(cs: seq<Call>, as_: seq<Answer>, n: nat, key: string)
    requires n < |cs| == |as_| && Fresh(cs, as_, n, key) && !FailureOf(cs[n], key)
    ensures Fresh(cs, as_, n + 1, key)
  {
    var r: nat :| FreshSince(cs, as_, r, n, key);
    assert FreshSince(cs, as_, r, n + 1, key);
  }

  lemma FreshAfter(cs: seq<Call>, as_: seq<Answer>, n: nat, key: string)
    requires n < |cs| == |as_| && Ends(cs, as_, n, key)
    ensures Fresh(cs, as_, n + 1, key)
  {
    assert FreshSince(cs, as_, n + 1, n + 1, key);
  }

  /** A call that leaves the entry of `key` alone. */
  lemma PassedTells(p: Policy, e: Entry, cs: seq<Call>, as_: seq<Answer>, st: nat, n: nat, key: string)
    requires n < |cs| == |as_| && Tells(p, e, cs, as_, st, n, key)
    requires !FailureOf(cs[n], key) && !Ends(cs, as_, n, key)
    ensures Tells(p, e, cs, as_, st, n + 1, key)
  {
    if e.failures == 0 {
      FreshOn(cs, as_, n, key);
    } else {
      assert cs[..n + 1][..n] == cs[..n];
    }
  }

  /** One more failure in a running streak, or the first of a new one. */
  lemma FailedTells(p: Policy, e: Entry, cs: seq<Call>, as_: seq<Answer>, st: nat, n: nat, key: string)
    returns (st': nat)
    requires n < |cs| == |as_| && Tells(p, e, cs, as_, st, n, key) && FailureOf(cs[n], key)
    requires as_[n] == Tripped(Failed(p, e, cs[n].now).1)
    ensures st' <= n && Begins(p, cs, as_, st', key) && (st' == n || Runs(p, cs, as_, st', n, key))
    ensures st' == n || cs[n].now - cs[st'].now < p.window * NANOS
    ensures as_[n] == Tripped(Failures(cs[..n + 1], st', key) >= p.maxFailures)
    ensures Tells(p, Failed(p, e, cs[n].now).0, cs, as_, st', n + 1, key)
  {
    assert cs[..n + 1][..n] == cs[..n];
    st' := if Streak(p, e, cs[n].now) then st else n;
    if st' == n {
      assert Begins(p, cs, as_, n, key);
      assert Failures(cs[..n], n, key) == 0;
    }
    if Failed(p, e, cs[n].now).1 {
      FreshAfter(cs, as_, n, key);
    }
  }

  /** One more call, whatever it is. */
  lemma CallTells(p: Policy, m: Entries, cs: seq<Call>, as_: seq<Answer>, st: nat, n: nat, key: string)
    returns (st': nat)
    requires n < |cs| == |as_| && Tells(p, EntryOf(m, key), cs, as_, st, n, key) && as_[n] == AnswerTo(p, m, cs[n])
    ensures Tells(p, EntryOf(AfterCall(p, m, cs[n]), key), cs, as_, st', n + 1, key)
  {
    st' := st;
    if FailureOf(cs[n], key) {
      st' := FailedTells(p, EntryOf(m, key), cs, as_, st, n, key);
    } else if cs[n].Success? && cs[n].key == key {
      FreshAfter(cs, as_, n, key);
    } else {
      PassedTells(p, EntryOf(m, key), cs, as_, st, n, key);
    }
  }

  lemma OneMoreCall(p: Policy, cs: seq<Call>, as_: seq<Answer>, n: nat)
    requires Answered(p, cs, as_) && n < |cs|
    ensures EntriesFrom(p, map[], cs[..n + 1]) == AfterCall(p, EntriesFrom(p, map[], cs[..n]), cs[n])
    ensures as_[n] == AnswerTo(p, EntriesFrom(p, map[], cs[..n]), cs[n])
  {
    assert AnsweredAt(p, cs, as_, n);
    assert cs[..n + 1][..n] == cs[..n];
  }

  lemma {:induction false} EntryTells(p: Policy, cs: seq<Call>, as_: seq<Answer>, n: nat, key: string) returns (st: nat)
    requires Answered(p, cs, as_) && n <= |cs|
    ensures Tells(p, EntryOf(EntriesFrom(p, map[], cs[..n]), key), cs, as_, st, n, key)
    decreases n
  {
    if n == 0 {
      st := 0;
      assert FreshSince(cs, as_, 0, 0, key);
    } else {
      st := EntryTells(p, cs, as_, n - 1, key);
      OneMoreCall(p, cs, as_, n - 1);
      st := CallTells(p, EntriesFrom(p, map[], cs[..n - 1]), cs, as_, st, n - 1, key);
    }
  }

  /**
   A failure trips the lock exactly if it is at least failure number `maxFailures` of its
   streak: the streak begins with a failure before which none counted or the last streak was
   over, nothing ended it since, and all its failures lie within the window of its first.
   */
  lemma TripsExactly(p: Policy, last: int, cs: seq<Call>, i: nat) returns (st: nat)
    requires InOrder(cs, 0) && i < |cs| && cs[i].Failure?
    ensures |Replies(p, map[], last, cs)| == |cs| && st <= i
    ensures var as_ := Replies(p, map[], last, cs);
            && Begins(p, cs, as_, st, cs[i].key)
            && (st == i || (Runs(p, cs, as_, st, i, cs[i].key) && cs[i].now - cs[st].now < p.window * NANOS))
            && as_[i] == Tripped(Failures(cs[..i + 1], st, cs[i].key) >= p.maxFailures)
  {
    var as_ := Replies(p, map[], last, cs);
    RepliesAnswered(p, last, cs);
    st := EntryTells(p, cs, as_, i, cs[i].key);
    OneMoreCall(p, cs, as_, i);
    st := FailedTells(p, EntryOf(EntriesFrom(p, map[], cs[..i]), cs[i].key), cs, as_, st, i, cs[i].key);
  }

  // How long a lock lasts

  /** Call `i` is the last before `n` that tripped the lock of `key`, and no success came after it. */
  ghost predicate LastTrip(cs: seq<Call>, as_: seq<Answer>, i: nat, n: nat, key: string)
    requires n <= |cs| == |as_|
  {
    i < n && FailureOf(cs[i], key) && as_[i] == Tripped(true) && Clean(cs, as_, i + 1, n, key)
  }

  ghost predicate LockTells(p: Policy, e: Entry, cs: seq<Call>, as_: seq<Answer>, n: nat, key: string)
    requires n <= |cs| == |as_|
  {
    && (forall i: nat | LastTrip(cs, as_, i, n, key) :: e.lockedUntil == cs[i].now + p.lockout * NANOS)
    && ((forall i: nat :: !LastTrip(cs, as_, i, n, key)) ==> e.lockedUntil == 0)
  }

  lemma TripBefore(cs: seq<Call>, as_: seq<Answer>, i: nat, n: nat, key: string)
    requires n < |cs| == |as_|
    ensures LastTrip(cs, as_, i, n + 1, key)
       <==> if Ends(cs, as_, n, key) then i == n && FailureOf(cs[n], key) && as_[n] == Tripped(true)
            else LastTrip(cs, as_, i, n, key) || (i == n && FailureOf(cs[n], key) && as_[n] == Tripped(true))
  {
  }

  lemma CallLocks(p: Policy, m: Entries, cs: seq<Call>, as_: seq<Answer>, n: nat, key: string)
    requires n < |cs| == |as_| && LockTells(p, EntryOf(m, key), cs, as_, n, key) && as_[n] == AnswerTo(p, m, cs[n])
    ensures LockTells(p, EntryOf(AfterCall(p, m, cs[n]), key), cs, as_, n + 1, key)
  {
    var e, e', n' := EntryOf(m, key), EntryOf(AfterCall(p, m, cs[n]), key), n + 1;
    forall i: nat | LastTrip(cs, as_, i, n', key) ensures e'.lockedUntil == cs[i].now + p.lockout * NANOS {
      TripBefore(cs, as_, i, n, key);
    }
    if forall i: nat :: !LastTrip(cs, as_, i, n', key) {
      TripBefore(cs, as_, n, n, key);
      forall i: nat ensures LastTrip(cs, as_, i, n, key) ==> Ends(cs, as_, n, key) {
        TripBefore(cs, as_, i, n, key);
      }
    }
  }

  lemma {:induction false} EntryLocks(p: Policy, cs: seq<Call>, as_: seq<Answer>, n: nat, key: string)
    requires Answered(p, cs, as_) && n <= |cs|
    ensures LockTells(p, EntryOf(EntriesFrom(p, map[], cs[..n]), key), cs, as_, n, key)
    decreases n
  {
    if n > 0 {
      EntryLocks(p, cs, as_, n - 1, key);
      OneMoreCall(p, cs, as_, n - 1);
      CallLocks(p, EntriesFrom(p, map[], cs[..n - 1]), cs, as_, n - 1, key);
    }
  }

  /** The whole seconds in a time, none if it is over. */
  function Whole(nanos: int): int {
    if nanos > 0 then nanos / NANOS else 0
  }

  /** A check is told what is left of the lockout after the last trip, or 0 if there is none since the last success. */
  lemma LockReported(p: Policy, last: int, cs: seq<Call>, j: nat)
    requires InOrder(cs, 0) && j < |cs| && cs[j].Check?
    ensures |Replies(p, map[], last, cs)| == |cs|
    ensures var as_ := Replies(p, map[], last, cs);
            && as_[j].Locked?
            && (forall i: nat | LastTrip(cs, as_, i, j, cs[j].key) ::
                  as_[j].value == Whole(cs[i].now + p.lockout * NANOS - cs[j].now))
            && ((forall i: nat :: !LastTrip(cs, as_, i, j, cs[j].key)) ==> as_[j].value == 0)
  {
    var as_ := Replies(p, map[], last, cs);
    RepliesAnswered(p, last, cs);
    EntryLocks(p, cs, as_, j, cs[j].key);
    OneMoreCall(p, cs, as_, j);
    InOrderTimes(cs, 0, j, j);
  }
}
