/**
 The fixed-window rate limiter: a counter per key that starts over when its window
 has ended. The in-memory form keeps buckets in a map that a sweep thins out; the
 Redis form is INCR with PEXPIRE on the first hit. A Redis key given `windowMs` at
 time `t` is still served at `t + windowMs` and gone after.
 */
module RateLimiter {
  import opened Options

  datatype Bucket = Bucket(count: nat, resetAt: nat)

  type Buckets = map<string, Bucket>

  datatype Request = Request(key: string, now: nat)

  datatype Event = Hit(request: Request) | Sweep(now: nat)

  // ---------------------------------------------------------------------
  // The in-memory counter
  // ---------------------------------------------------------------------

  function Increment(b: Option<Bucket>, now: nat, windowMs: nat): Bucket {
    if b.None? || b.value.resetAt <= now then Bucket(1, now + windowMs)
    else b.value.(count := b.value.count + 1)
  }

  function Find(m: Buckets, key: string): Option<Bucket> {
    if key in m then Some(m[key]) else None
  }

  function HitMemory(m: Buckets, r: Request, windowMs: nat): (Buckets, nat) {
    var b := Increment(Find(m, r.key), r.now, windowMs);
    (m[r.key := b], b.count)
  }

  function SweepMemory(m: Buckets, now: nat): Buckets {
    map k | k in m && m[k].resetAt > now :: m[k]
  }

  /** The buckets after a sequence of hits and sweeps, and the count each hit saw. */
  function RunMemory(es: seq<Event>, windowMs: nat): (Buckets, seq<nat>) {
    if es == [] then (map[], [])
    else
      var (m, counts) := RunMemory(es[..|es| - 1], windowMs);
      match es[|es| - 1]
      case Hit(r) => var (m', count) := HitMemory(m, r, windowMs); (m', counts + [count])
      case Sweep(now) => (SweepMemory(m, now), counts)
  }

  // ---------------------------------------------------------------------
  // The Redis counter
  // ---------------------------------------------------------------------

  datatype RedisValue = RedisValue(value: nat, expireAt: Option<nat>)

  type Redis = map<string, RedisValue>

  predicate Alive(v: RedisValue, now: nat) {
    v.expireAt.None? || now <= v.expireAt.value
  }

  /** The script: INCR, which starts from 0 when the key is gone, then PEXPIRE on 1; PEXPIRE 0 removes the key. */
  function HitRedis(m: Redis, r: Request, windowMs: nat): (Redis, nat) {
    var before := if r.key in m && Alive(m[r.key], r.now) then m[r.key] else RedisValue(0, None);
    var current := before.value + 1;
    var v := RedisValue(current, if current == 1 then Some(r.now + windowMs) else before.expireAt);
    (if current == 1 && windowMs == 0 then m - {r.key} else m[r.key := v], current)
  }

  function RunRedis(es: seq<Event>, windowMs: nat): (Redis, seq<nat>) {
    if es == [] then (map[], [])
    else
      var (m, counts) := RunRedis(es[..|es| - 1], windowMs);
      match es[|es| - 1]
      case Hit(r) => var (m', count) := HitRedis(m, r, windowMs); (m', counts + [count])
      case Sweep(_) => (m, counts)
  }

  // ---------------------------------------------------------------------
  // Sweeps never show, and both forms count alike
  // ---------------------------------------------------------------------

  function TimeOf(e: Event): nat {
    match e
    case Hit(r) => r.now
    case Sweep(now) => now
  }

  ghost predicate InOrder(es: seq<Event>) {
    forall i, j | 0 <= i < j < |es| :: TimeOf(es[i]) <= TimeOf(es[j])
  }

  function WithoutSweeps(es: seq<Event>): seq<Event> {
    if es == [] then []
    else WithoutSweeps(es[..|es| - 1]) + (if es[|es| - 1].Hit? then [es[|es| - 1]] else [])
  }

  /** The same live buckets at any time from `now` on. */
  ghost predicate SameLive(a: Buckets, b: Buckets, now: nat) {
    && (forall k | k in a && a[k].resetAt > now :: k in b && b[k] == a[k])
    && (forall k | k in b && b[k].resetAt > now :: k in a && a[k] == b[k])
  }

  /** The same windows are open, with the same counts, strictly before their end. */
  ghost predicate RedisMatches(m: Buckets, r: Redis, now: nat) {
    && (forall k | k in m && m[k].resetAt > now :: k in r && r[k] == RedisValue(m[k].count, Some(m[k].resetAt)))
    && (forall k | k in r :: r[k].expireAt.Some? && r[k].value > 0)
    && (forall k | k in r && r[k].expireAt.value > now :: k in m && m[k].resetAt > now)
    && (forall k | k in m :: m[k].count > 0)
  }

  function Clock(es: seq<Event>): nat {
    if es == [] then 0 else TimeOf(es[|es| - 1])
  }

  lemma LastInOrder(es: seq<Event>)
    requires InOrder(es) && es != []
    ensures InOrder(es[..|es| - 1]) && Clock(es[..|es| - 1]) <= Clock(es)
  {
  }

  /** A sweep removes exactly the buckets that a hit at that moment would start over. */
  lemma SweepRemovesTheEnded(m: Buckets, now: nat, windowMs: nat, key: string)
    requires key in m && m[key].count > 0
    ensures key !in SweepMemory(m, now) <==> HitMemory(m, Request(key, now), windowMs).1 == 1
    ensures key in SweepMemory(m, now) ==> SweepMemory(m, now)[key] == m[key]
  {
  }

  /** Dropping every sweep from a run in time order changes no count. */
  lemma {:induction false} SweepsNeverShow(es: seq<Event>, windowMs: nat)
    requires InOrder(es)
    ensures RunMemory(es, windowMs).1 == RunMemory(WithoutSweeps(es), windowMs).1
    ensures SameLive(RunMemory(es, windowMs).0, RunMemory(WithoutSweeps(es), windowMs).0, Clock(es))
  {
    if es != [] {
      var n := |es| - 1;
      LastInOrder(es);
      SweepsNeverShow(es[..n], windowMs);
      var ws := WithoutSweeps(es[..n]);
      if es[n].Hit? {
        assert (ws + [es[n]])[..|ws|] == ws;
      } else {
        assert ws + [] == ws;
      }
    }
  }

  /** The hit falls on the very instant its window ends: Redis still counts it in, the process does not. */
  predicate OnTheDot(v: Redis, e: Event) {
    e.Hit? && e.request.key in v && v[e.request.key].expireAt == Some(e.request.now)
  }

  predicate OnTheDotAt(es: seq<Event>, windowMs: nat, i: nat)
    requires i < |es|
  {
    OnTheDot(RunRedis(es[..i], windowMs).0, es[i])
  }

  lemma HitMatches(m: Buckets, v: Redis, now: nat, r: Request, windowMs: nat)
    requires RedisMatches(m, v, now) && now <= r.now
    ensures HitRedis(v, r, windowMs).1 == HitMemory(m, r, windowMs).1 <==> !OnTheDot(v, Hit(r))
    ensures !OnTheDot(v, Hit(r)) ==> RedisMatches(HitMemory(m, r, windowMs).0, HitRedis(v, r, windowMs).0, r.now)
  {
  }

  lemma SweepMatches(m: Buckets, v: Redis, now: nat, at: nat)
    requires RedisMatches(m, v, now) && now <= at
    ensures RedisMatches(SweepMemory(m, at), v, at)
  {
  }

  /** Up to the first hit on the dot both forms see the same counts. */
  lemma {:induction false} CountsAlikeSoFar(es: seq<Event>, windowMs: nat)
    requires InOrder(es) && forall i | 0 <= i < |es| :: !OnTheDotAt(es, windowMs, i)
    ensures RunRedis(es, windowMs).1 == RunMemory(es, windowMs).1
    ensures RedisMatches(RunMemory(es, windowMs).0, RunRedis(es, windowMs).0, Clock(es))
  {
    if es != [] {
      var n := |es| - 1;
      var init := es[..n];
      LastInOrder(es);
      forall i | 0 <= i < n ensures !OnTheDotAt(init, windowMs, i) {
        assert init[..i] == es[..i] && !OnTheDotAt(es, windowMs, i);
      }
      CountsAlikeSoFar(init, windowMs);
      assert !OnTheDotAt(es, windowMs, n);
      var m, r := RunMemory(init, windowMs).0, RunRedis(init, windowMs).0;
      match es[n]
      case Hit(request) => HitMatches(m, r, Clock(init), request, windowMs);
      case Sweep(now) => SweepMatches(m, r, Clock(init), now);
    }
  }

  /** The counts of a run begin with those of its beginning. */
  lemma {:induction false} CountsGrow(es: seq<Event>, windowMs: nat, n: nat)
    requires n <= |es|
    ensures RunMemory(es[..n], windowMs).1 <= RunMemory(es, windowMs).1
    ensures RunRedis(es[..n], windowMs).1 <= RunRedis(es, windowMs).1
  {
    if n == |es| {
      assert es[..n] == es;
    } else {
      var init := es[..|es| - 1];
      assert init[..n] == es[..n];
      CountsGrow(init, windowMs, n);
    }
  }

  lemma {:induction false} SameNumberOfCounts(es: seq<Event>, windowMs: nat)
    ensures |RunMemory(es, windowMs).1| == |RunRedis(es, windowMs).1|
  {
    if es != [] {
      SameNumberOfCounts(es[..|es| - 1], windowMs);
    }
  }

  /** The first hit on the dot is counted differently. */
  lemma CountsDiffer(es: seq<Event>, windowMs: nat, i: nat)
    requires InOrder(es) && i < |es| && OnTheDotAt(es, windowMs, i)
    requires forall j | 0 <= j < i :: !OnTheDotAt(es, windowMs, j)
    ensures RunRedis(es, windowMs).1 != RunMemory(es, windowMs).1
  {
    var init, next := es[..i], es[..i + 1];
    forall j | 0 <= j < i ensures !OnTheDotAt(init, windowMs, j) {
      assert init[..j] == es[..j] && !OnTheDotAt(es, windowMs, j);
    }
    CountsAlikeSoFar(init, windowMs);
    assert i > 0 ==> TimeOf(init[i - 1]) <= TimeOf(es[i]);
    HitMatches(RunMemory(init, windowMs).0, RunRedis(init, windowMs).0, Clock(init), es[i].request, windowMs);
    assert next[..i] == init && next[i] == es[i];
    var a, b := RunRedis(next, windowMs).1, RunMemory(next, windowMs).1;
    assert a[|a| - 1] != b[|b| - 1];
    SameNumberOfCounts(next, windowMs);
    CountsGrow(es, windowMs, i + 1);
  }

  lemma FirstOnTheDot(es: seq<Event>, windowMs: nat, n: nat) returns (i: nat)
    requires n < |es| && OnTheDotAt(es, windowMs, n)
    ensures i < |es| && OnTheDotAt(es, windowMs, i) && forall j | 0 <= j < i :: !OnTheDotAt(es, windowMs, j)
  {
    i := 0;
    while !OnTheDotAt(es, windowMs, i)
      invariant i <= n && forall j | 0 <= j < i :: !OnTheDotAt(es, windowMs, j)
      decreases n - i
    {
      i := i + 1;
    }
  }

  /**
   On one shared key store and clock the Redis form sees the same counts in a run if
   and only if no hit falls on the very instant at which its window ends.
   */
  lemma {:induction false} RedisCountsAlikeIff(es: seq<Event>, windowMs: nat)
    requires InOrder(es)
    ensures RunRedis(es, windowMs).1 == RunMemory(es, windowMs).1
       <==> forall i | 0 <= i < |es| :: !OnTheDotAt(es, windowMs, i)
  {
    if forall i | 0 <= i < |es| :: !OnTheDotAt(es, windowMs, i) {
      CountsAlikeSoFar(es, windowMs);
    } else {
      var n: nat :| n < |es| && OnTheDotAt(es, windowMs, n);
      var i := FirstOnTheDot(es, windowMs, n);
      CountsDiffer(es, windowMs, i);
    }
  }

  /** The difference is real: a second hit 10 after the first, in windows of 10. */
  lemma OnTheDotIsCountedTwice()
    ensures RunRedis([Hit(Request("a", 0)), Hit(Request("a", 10))], 10).1 == [1, 2]
    ensures RunMemory([Hit(Request("a", 0)), Hit(Request("a", 10))], 10).1 == [1, 1]
  {
    var first, second := Request("a", 0), Request("a", 10);
    var es := [Hit(first), Hit(second)];
    assert es[..1] == [Hit(first)] && es[..1][..0] == [];
    assert RunRedis([], 10) == (map[], []) && RunMemory([], 10) == (map[], []);
    assert HitRedis(map[], first, 10) == (map["a" := RedisValue(1, Some(10))], 1);
    assert HitMemory(map[], first, 10) == (map["a" := Bucket(1, 10)], 1);
    assert RunRedis(es[..1], 10) == (map["a" := RedisValue(1, Some(10))], [] + [1]);
    assert RunMemory(es[..1], 10) == (map["a" := Bucket(1, 10)], [] + [1]);
    assert HitRedis(map["a" := RedisValue(1, Some(10))], second, 10).1 == 2;
    assert HitMemory(map["a" := Bucket(1, 10)], second, 10).1 == 1;
  }

  // ---------------------------------------------------------------------
  // How many requests are admitted
  // ---------------------------------------------------------------------

  ghost predicate Sorted(times: seq<nat>) {
    forall i, j | 0 <= i < j < |times| :: times[i] <= times[j]
  }

  /** Requests of one key admitted from time `from` to `from + windowMs`, both included. */
  function Admitted(b: Option<Bucket>, times: seq<nat>, windowMs: nat, max: nat, from: nat): nat
    decreases |times|
  {
    if times == [] then 0
    else
      var b' := Increment(b, times[0], windowMs);
      (if b'.count <= max && from <= times[0] <= from + windowMs then 1 else 0)
      + Admitted(Some(b'), times[1..], windowMs, max, from)
  }

  function Room(b: Bucket, max: nat): nat {
    if b.count < max then max - b.count else 0
  }

  /** How many more the interval can still admit, given the current bucket. */
  function Allowance(b: Option<Bucket>, windowMs: nat, max: nat, from: nat): nat {
    if b.None? || b.value.resetAt <= from then 2 * max
    else if b.value.resetAt <= from + windowMs then Room(b.value, max) + max
    else Room(b.value, max)
  }

  lemma {:induction false} AdmittedWithinAllowance(
    b: Option<Bucket>, times: seq<nat>, windowMs: nat, max: nat, from: nat)
    requires Sorted(times) && windowMs > 0
    ensures Admitted(b, times, windowMs, max, from) <= Allowance(b, windowMs, max, from)
    decreases |times|
  {
    if times != [] {
      var t := times[0];
      var b' := Increment(b, t, windowMs);
      if t > from + windowMs {
        NoneAfter(Some(b'), times[1..], windowMs, max, from);
      } else {
        AdmittedWithinAllowance(Some(b'), times[1..], windowMs, max, from);
      }
    }
  }

  lemma {:induction false} NoneAfter(b: Option<Bucket>, times: seq<nat>, windowMs: nat, max: nat, from: nat)
    requires forall i | 0 <= i < |times| :: times[i] > from + windowMs
    ensures Admitted(b, times, windowMs, max, from) == 0
    decreases |times|
  {
    if times != [] {
      NoneAfter(Some(Increment(b, times[0], windowMs)), times[1..], windowMs, max, from);
    }
  }

  /** The count within one bucket after `n` hits that all fall before it ends. */
  function Hits(b: Option<Bucket>, times: seq<nat>, windowMs: nat): Option<Bucket> {
    if times == [] then b
    else Some(Increment(Hits(b, times[..|times| - 1], windowMs), times[|times| - 1], windowMs))
  }

  /** A window opened at `start` counts its hits one by one. */
  lemma {:induction false} WindowCountsEachHit(start: nat, times: seq<nat>, windowMs: nat)
    requires windowMs > 0 && forall i | 0 <= i < |times| :: start <= times[i] < start + windowMs
    ensures Hits(None, [start] + times, windowMs) == Some(Bucket(|times| + 1, start + windowMs))
  {
    var all := [start] + times;
    if times == [] {
      assert all[..0] == [];
    } else {
      var n := |times| - 1;
      assert all[..|all| - 1] == [start] + times[..n];
      WindowCountsEachHit(start, times[..n], windowMs);
    }
  }

  /** The hit number `i` of a run of hits on one key is let through. */
  predicate AdmittedAt(times: seq<nat>, windowMs: nat, max: nat, i: nat)
    requires i < |times|
  {
    Increment(Hits(None, times[..i], windowMs), times[i], windowMs).count <= max
  }

  /** Of the hits inside a window, with the one that opened it, exactly the first `max` are admitted. */
  lemma WindowAdmitsExactlyTheFirst(start: nat, times: seq<nat>, windowMs: nat, max: nat, i: nat)
    requires windowMs > 0 && forall j | 0 <= j < |times| :: start <= times[j] < start + windowMs
    requires i <= |times|
    ensures AdmittedAt([start] + times, windowMs, max, i) <==> i < max
  {
    var all := [start] + times;
    if i > 0 {
      assert all[..i] == [start] + times[..i - 1];
      WindowCountsEachHit(start, times[..i - 1], windowMs);
    }
  }

  // ---------------------------------------------------------------------
  // Whole runs: other keys and sweeps in between change nothing
  // ---------------------------------------------------------------------

  function TimesOf(es: seq<Event>, key: string): seq<nat> {
    if es == [] then []
    else
      var e := es[|es| - 1];
      TimesOf(es[..|es| - 1], key) + (if e.Hit? && e.request.key == key then [e.request.now] else [])
  }

  /** How many hits on `key` between `from` and `from + windowMs` the run admits. */
  function Admissions(es: seq<Event>, windowMs: nat, max: nat, key: string, from: nat): nat {
    if es == [] then 0
    else
      var init, e := es[..|es| - 1], es[|es| - 1];
      Admissions(init, windowMs, max, key, from)
      + (if e.Hit? && e.request.key == key && from <= e.request.now <= from + windowMs
            && HitMemory(RunMemory(init, windowMs).0, e.request, windowMs).1 <= max then 1 else 0)
  }

  ghost predicate Live(b: Option<Bucket>, now: nat) {
    b.Some? && b.value.resetAt > now
  }

  ghost predicate LiveAlike(a: Option<Bucket>, b: Option<Bucket>, now: nat) {
    (Live(a, now) <==> Live(b, now)) && (Live(a, now) ==> a == b)
  }

  lemma {:induction false} KeyFollowsItsHits(es: seq<Event>, key: string, windowMs: nat)
    requires InOrder(es)
    ensures LiveAlike(Find(RunMemory(es, windowMs).0, key), Hits(None, TimesOf(es, key), windowMs), Clock(es))
  {
    if es != [] {
      var init, e := es[..|es| - 1], es[|es| - 1];
      LastInOrder(es);
      KeyFollowsItsHits(init, key, windowMs);
      var times := TimesOf(init, key);
      if e.Hit? && e.request.key == key {
        assert (times + [e.request.now])[..|times|] == times;
      } else {
        assert times + [] == times;
      }
    }
  }

  lemma {:induction false} AdmittedLast(
    b: Option<Bucket>, times: seq<nat>, t: nat, windowMs: nat, max: nat, from: nat)
    ensures Admitted(b, times + [t], windowMs, max, from)
         == Admitted(b, times, windowMs, max, from)
          + (if Increment(HitsFrom(b, times, windowMs), t, windowMs).count <= max && from <= t <= from + windowMs
             then 1 else 0)
    decreases |times|
  {
    if times == [] {
      assert [] + [t] == [t];
    } else {
      assert (times + [t])[0] == times[0] && (times + [t])[1..] == times[1..] + [t];
      AdmittedLast(Some(Increment(b, times[0], windowMs)), times[1..], t, windowMs, max, from);
    }
  }

  /** The same bucket, taking the hits from the front. */
  function HitsFrom(b: Option<Bucket>, times: seq<nat>, windowMs: nat): Option<Bucket>
    decreases |times|
  {
    if times == [] then b else HitsFrom(Some(Increment(b, times[0], windowMs)), times[1..], windowMs)
  }

  lemma {:induction false} HitsFromFront(b: Option<Bucket>, times: seq<nat>, windowMs: nat)
    ensures HitsFrom(b, times, windowMs) == Hits(b, times, windowMs)
    decreases |times|
  {
    if times != [] {
      HitsFromFront(Some(Increment(b, times[0], windowMs)), times[1..], windowMs);
      HitsShift(b, times, windowMs);
    }
  }

  lemma {:induction false} HitsShift(b: Option<Bucket>, times: seq<nat>, windowMs: nat)
    requires times != []
    ensures Hits(b, times, windowMs) == Hits(Some(Increment(b, times[0], windowMs)), times[1..], windowMs)
    decreases |times|
  {
    var n := |times| - 1;
    if n == 0 {
      assert times[..0] == [] && times[1..] == [];
    } else {
      HitsShift(b, times[..n], windowMs);
      assert times[..n][1..] == times[1..][..n - 1];
    }
  }

  lemma {:induction false} AdmissionsAreAdmitted(es: seq<Event>, windowMs: nat, max: nat, key: string, from: nat)
    requires InOrder(es)
    ensures Admissions(es, windowMs, max, key, from) == Admitted(None, TimesOf(es, key), windowMs, max, from)
  {
    if es != [] {
      var init, e := es[..|es| - 1], es[|es| - 1];
      LastInOrder(es);
      AdmissionsAreAdmitted(init, windowMs, max, key, from);
      var times := TimesOf(init, key);
      if e.Hit? && e.request.key == key {
        KeyFollowsItsHits(init, key, windowMs);
        HitsFromFront(None, times, windowMs);
        AdmittedLast(None, times, e.request.now, windowMs, max, from);
        assert e.request.now == Clock(es);
      } else {
        assert times + [] == times;
      }
    }
  }

  lemma {:induction false} TimesAreSorted(es: seq<Event>, key: string)
    requires InOrder(es)
    ensures Sorted(TimesOf(es, key)) && forall t <- TimesOf(es, key) :: t <= Clock(es)
  {
    if es != [] {
      LastInOrder(es);
      TimesAreSorted(es[..|es| - 1], key);
      var times := TimesOf(es[..|es| - 1], key);
      assert forall i | 0 <= i < |times| :: times[i] in times;
    }
  }

  /**
   In every run with a clock that does not go back, with any other keys and any
   sweeps in between, a stretch of one window length admits at most twice the limit.
   */
  lemma AtMostTwiceMax(es: seq<Event>, windowMs: nat, max: nat, key: string, from: nat)
    requires InOrder(es) && windowMs > 0
    ensures Admissions(es, windowMs, max, key, from) <= 2 * max
  {
    AdmissionsAreAdmitted(es, windowMs, max, key, from);
    TimesAreSorted(es, key);
    AdmittedWithinAllowance(None, TimesOf(es, key), windowMs, max, from);
  }

  /** `n` hits on one key at one time. */
  function Burst(key: string, now: nat, n: nat): (es: seq<Event>)
    ensures |es| == n && forall e <- es :: e == Hit(Request(key, now))
  {
    if n == 0 then [] else Burst(key, now, n - 1) + [Hit(Request(key, now))]
  }

  /** A full burst as a window opens, and the next as soon as it ends. */
  function TwoBursts(key: string, windowMs: nat, max: nat, n: nat): seq<Event> {
    Burst(key, 0, max) + Burst(key, windowMs, n)
  }

  lemma BurstsInOrder(key: string, windowMs: nat, max: nat, n: nat)
    ensures InOrder(TwoBursts(key, windowMs, max, n))
  {
    var a, b := Burst(key, 0, max), Burst(key, windowMs, n);
    forall i, j | 0 <= i < j < |a + b|
      ensures TimeOf((a + b)[i]) <= TimeOf((a + b)[j])
    {
      assert (a + b)[i] in a + b && (a + b)[j] in a + b;
      assert if i < |a| then (a + b)[i] in a else (a + b)[i] in b;
      assert if j < |a| then (a + b)[j] in a else (a + b)[j] in b;
    }
  }

  /** One more hit on the key, from its bucket alone. */
  lemma OneMoreHit(es: seq<Event>, key: string, now: nat, windowMs: nat, max: nat, from: nat)
    requires from <= now <= from + windowMs
    ensures var es' := es + [Hit(Request(key, now))];
            var b := Increment(Find(RunMemory(es, windowMs).0, key), now, windowMs);
            && Find(RunMemory(es', windowMs).0, key) == Some(b)
            && Admissions(es', windowMs, max, key, from)
               == Admissions(es, windowMs, max, key, from) + (if b.count <= max then 1 else 0)
  {
    var e := Hit(Request(key, now));
    assert (es + [e])[..|es|] == es && (es + [e])[|es|] == e;
  }

  lemma {:induction false} FirstBurst(key: string, windowMs: nat, max: nat, n: nat)
    requires windowMs > 0 && n <= max
    ensures var es := Burst(key, 0, n);
            && Find(RunMemory(es, windowMs).0, key) == (if n == 0 then None else Some(Bucket(n, windowMs)))
            && Admissions(es, windowMs, max, key, 0) == n
  {
    if n > 0 {
      FirstBurst(key, windowMs, max, n - 1);
      FirstBurstStep(Burst(key, 0, n - 1), key, windowMs, max, n - 1);
    }
  }

  lemma FirstBurstStep(es: seq<Event>, key: string, windowMs: nat, max: nat, n: nat)
    requires windowMs > 0 && n < max && Admissions(es, windowMs, max, key, 0) == n
    requires Find(RunMemory(es, windowMs).0, key) == (if n == 0 then None else Some(Bucket(n, windowMs)))
    ensures var es' := es + [Hit(Request(key, 0))];
            && Find(RunMemory(es', windowMs).0, key) == Some(Bucket(n + 1, windowMs))
            && Admissions(es', windowMs, max, key, 0) == n + 1
  {
    OneMoreHit(es, key, 0, windowMs, max, 0);
  }

  lemma BurstGrows(key: string, windowMs: nat, max: nat, n: nat)
    ensures TwoBursts(key, windowMs, max, 0) == Burst(key, 0, max)
    ensures n > 0 ==>
              TwoBursts(key, windowMs, max, n) == TwoBursts(key, windowMs, max, n - 1) + [Hit(Request(key, windowMs))]
  {
  }

  lemma {:induction false} SecondBurst(key: string, windowMs: nat, max: nat, n: nat)
    requires windowMs > 0 && n <= max
    ensures var es := TwoBursts(key, windowMs, max, n); var b := Find(RunMemory(es, windowMs).0, key);
            && (if n > 0 then b == Some(Bucket(n, windowMs + windowMs)) else b.None? || b.value.resetAt == windowMs)
            && Admissions(es, windowMs, max, key, 0) == max + n
  {
    BurstGrows(key, windowMs, max, n);
    if n == 0 {
      FirstBurst(key, windowMs, max, max);
    } else {
      SecondBurst(key, windowMs, max, n - 1);
      SecondBurstStep(TwoBursts(key, windowMs, max, n - 1), key, windowMs, max, n - 1);
    }
  }

  lemma SecondBurstStep(es: seq<Event>, key: string, windowMs: nat, max: nat, n: nat)
    requires windowMs > 0 && n < max && Admissions(es, windowMs, max, key, 0) == max + n
    requires var b := Find(RunMemory(es, windowMs).0, key);
             if n > 0 then b == Some(Bucket(n, windowMs + windowMs)) else b.None? || b.value.resetAt == windowMs
    ensures var es' := es + [Hit(Request(key, windowMs))];
            && Find(RunMemory(es', windowMs).0, key) == Some(Bucket(n + 1, windowMs + windowMs))
            && Admissions(es', windowMs, max, key, 0) == max + n + 1
  {
    OneMoreHit(es, key, windowMs, windowMs, max, 0);
  }

  /** The bound is tight: for every limit and window there is a run with twice the limit in one window length. */
  lemma TwiceMaxIsReached(key: string, windowMs: nat, max: nat)
    requires windowMs > 0
    ensures var es := TwoBursts(key, windowMs, max, max);
            InOrder(es) && Admissions(es, windowMs, max, key, 0) == 2 * max
  {
    BurstsInOrder(key, windowMs, max, max);
    SecondBurst(key, windowMs, max, max);
  }

  // ---------------------------------------------------------------------
  // The same for the Redis form
  // ---------------------------------------------------------------------

  /** A window of the Redis form lasts one instant longer. */
  function Longer(windowMs: nat): nat {
    if windowMs == 0 then 0 else windowMs + 1
  }

  ghost predicate LongerMatches(m: Buckets, r: Redis, now: nat) {
    && (forall k | k in m && m[k].resetAt > now :: k in r && r[k] == RedisValue(m[k].count, Some(m[k].resetAt - 1)))
    && (forall k | k in r && Alive(r[k], now) :: k in m && m[k].resetAt > now)
    && (forall k | k in m :: m[k].count > 0)
  }

  lemma LongerHitMatches(m: Buckets, v: Redis, now: nat, r: Request, windowMs: nat)
    requires LongerMatches(m, v, now) && now <= r.now
    ensures HitRedis(v, r, windowMs).1 == HitMemory(m, r, Longer(windowMs)).1
    ensures LongerMatches(HitMemory(m, r, Longer(windowMs)).0, HitRedis(v, r, windowMs).0, r.now)
  {
  }

  /** Exactly, for all runs in time order: the Redis form counts like the form in memory with a window one longer. */
  lemma {:induction false} RedisCountsLikeLonger(es: seq<Event>, windowMs: nat)
    requires InOrder(es)
    ensures RunRedis(es, windowMs).1 == RunMemory(es, Longer(windowMs)).1
    ensures LongerMatches(RunMemory(es, Longer(windowMs)).0, RunRedis(es, windowMs).0, Clock(es))
  {
    if es != [] {
      var n := |es| - 1;
      LastInOrder(es);
      RedisCountsLikeLonger(es[..n], windowMs);
      var m, r := RunMemory(es[..n], Longer(windowMs)).0, RunRedis(es[..n], windowMs).0;
      if es[n].Hit? {
        LongerHitMatches(m, r, Clock(es[..n]), es[n].request, windowMs);
      }
    }
  }

  /** How many hits on `key` between `from` and `from + span` the Redis form admits. */
  function RedisAdmissions(es: seq<Event>, windowMs: nat, max: nat, key: string, from: nat, span: nat): nat {
    if es == [] then 0
    else
      var init, e := es[..|es| - 1], es[|es| - 1];
      RedisAdmissions(init, windowMs, max, key, from, span)
      + (if e.Hit? && e.request.key == key && from <= e.request.now <= from + span
            && HitRedis(RunRedis(init, windowMs).0, e.request, windowMs).1 <= max then 1 else 0)
  }

  lemma {:induction false} RedisAdmitsLikeLonger(
    es: seq<Event>, windowMs: nat, max: nat, key: string, from: nat, span: nat)
    requires InOrder(es) && windowMs > 0 && span <= windowMs + 1
    ensures RedisAdmissions(es, windowMs, max, key, from, span) <= Admissions(es, windowMs + 1, max, key, from)
    ensures span == windowMs + 1 ==>
              RedisAdmissions(es, windowMs, max, key, from, span) == Admissions(es, windowMs + 1, max, key, from)
  {
    if es != [] {
      var init, e := es[..|es| - 1], es[|es| - 1];
      LastInOrder(es);
      RedisAdmitsLikeLonger(init, windowMs, max, key, from, span);
      RedisCountsLikeLonger(init, windowMs);
      if e.Hit? {
        LongerHitMatches(
          RunMemory(init, windowMs + 1).0, RunRedis(init, windowMs).0, Clock(init), e.request, windowMs);
      }
    }
  }

  /** The Redis form too admits at most twice the limit in one window length, and even in one instant more. */
  lemma RedisAtMostTwiceMax(es: seq<Event>, windowMs: nat, max: nat, key: string, from: nat, span: nat)
    requires InOrder(es) && windowMs > 0 && span <= windowMs + 1
    ensures RedisAdmissions(es, windowMs, max, key, from, span) <= 2 * max
  {
    RedisAdmitsLikeLonger(es, windowMs, max, key, from, span);
    AtMostTwiceMax(es, windowMs + 1, max, key, from);
  }

  /** There the bound is tight, for every limit and window. */
  lemma RedisTwiceMaxIsReached(key: string, windowMs: nat, max: nat)
    requires windowMs > 0
    ensures var es := TwoBursts(key, windowMs + 1, max, max);
            InOrder(es) && RedisAdmissions(es, windowMs, max, key, 0, windowMs + 1) == 2 * max
  {
    TwiceMaxIsReached(key, windowMs + 1, max);
    RedisAdmitsLikeLonger(TwoBursts(key, windowMs + 1, max, max), windowMs, max, key, 0, windowMs + 1);
  }

  // ---------------------------------------------------------------------
  // The limiter, updated in place
  // ---------------------------------------------------------------------

  class MemoryLimiter {
    var buckets: Buckets

    constructor ()
      ensures buckets == map[]
    {
      buckets := map[];
    }

    method IncrementMemoryCounter(key: string, now: nat, windowMs: nat) returns (count: nat)
      modifies this
      ensures (buckets, count) == HitMemory(old(buckets), Request(key, now), windowMs)
    {
      var bucket := Bucket(0, now + windowMs);
      if key in buckets && buckets[key].resetAt > now {
        bucket := buckets[key];
      }
      bucket := bucket.(count := bucket.count + 1);
      buckets := buckets[key := bucket];
      count := bucket.count;
    }

    /** The periodic sweep visits the keys in any order. */
    method CleanUp(now: nat)
      modifies this
      ensures buckets == SweepMemory(old(buckets), now)
    {
      var todo := buckets.Keys;
      while todo != {}
        invariant todo <= buckets.Keys <= old(buckets).Keys
        invariant forall k | k in buckets :: buckets[k] == old(buckets)[k]
        invariant forall k | k in old(buckets) && k !in todo :: k in buckets <==> old(buckets)[k].resetAt > now
        decreases |todo|
      {
        var key :| key in todo;
        if buckets[key].resetAt <= now {
          buckets := buckets - {key};
        }
        todo := todo - {key};
      }
    }

    method Limit(key: string, now: nat, windowMs: nat, max: nat) returns (admitted: bool, remaining: nat)
      modifies this
      ensures buckets == HitMemory(old(buckets), Request(key, now), windowMs).0
      ensures var count := HitMemory(old(buckets), Request(key, now), windowMs).1;
              admitted == (count <= max) && remaining == if count < max then max - count else 0
    {
      var count := IncrementMemoryCounter(key, now, windowMs);
      remaining := if count < max then max - count else 0;
      admitted := count <= max;
    }
  }
}
