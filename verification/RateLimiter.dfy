/**
 The fixed-window rate limiter. The stale-key sweep cannot be observed while the readings
 come in order, and no sliding window admits as many as two full windows.
*/
module RateLimiter {
  import opened Options

  datatype Bucket = Bucket(count: int, resetAt: int)

  datatype Verdict = Allowed | Refused(retryAfterMs: int)

  datatype Limits = Limits(maxRequests: int, windowMs: int)

  // ---------------------------------------------------------------- the shared limiter

  /** What the sweep leaves: live buckets and the caller's own. */
  function Swept(buckets: map<string, Bucket>, key: string, now: int): map<string, Bucket> {
    map k | k in buckets && (buckets[k].resetAt > now || k == key) :: buckets[k]
  }

  /** One limiter for one key: the bucket after a request, and the verdict. */
  function Serve(l: Limits, bucket: Option<Bucket>, now: int): (Bucket, Verdict) {
    if bucket.None? || bucket.value.resetAt <= now then (Bucket(1, now + l.windowMs), Allowed)
    else if bucket.value.count >= l.maxRequests then (bucket.value, Refused(bucket.value.resetAt - now))
    else (bucket.value.(count := bucket.value.count + 1), Allowed)
  }

  function ConsumeIn(l: Limits, buckets: map<string, Bucket>, key: string, now: int): (map<string, Bucket>, Verdict) {
    var swept := Swept(buckets, key, now);
    var (bucket, verdict) := Serve(l, Lookup(swept, key), now);
    (swept[key := bucket], verdict)
  }

  class Limiter {
    const limits: Limits
    var buckets: map<string, Bucket>

    constructor (limits: Limits)
      ensures this.limits == limits && buckets == map[]
    {
      this.limits := limits;
      buckets := map[];
    }

    /** `now` is read before the lock is taken. */
    method Consume(key: string, now: int) returns (verdict: Verdict)
      modifies this
      ensures (buckets, verdict) == ConsumeIn(limits, old(buckets), key, now)
    {
      var left := buckets.Keys;
      while left != {}
        invariant left <= old(buckets).Keys
        invariant buckets == map k | k in old(buckets) && (k in left || old(buckets)[k].resetAt > now || k == key) ::
            old(buckets)[k]
      {
        var k :| k in left;
        left := left - {k};
        if buckets[k].resetAt <= now && k != key {
          buckets := buckets - {k};
        }
      }
      assert buckets == Swept(old(buckets), key, now);
      if key !in buckets || buckets[key].resetAt <= now {
        buckets := buckets[key := Bucket(1, now + limits.windowMs)];
        return Allowed;
      }
      if buckets[key].count >= limits.maxRequests {
        assert buckets == buckets[key := buckets[key]];
        return Refused(buckets[key].resetAt - now);
      }
      buckets := buckets[key := buckets[key].(count := buckets[key].count + 1)];
      return Allowed;
    }
  }

  // ---------------------------------------------------------------- runs

  datatype Arrival = Arrival(key: string, now: int)

  /** The readings come in the order the lock is taken. */
  predicate InOrder(arrivals: seq<Arrival>, clock: int) {
    arrivals == [] || (clock <= arrivals[0].now && InOrder(arrivals[1..], arrivals[0].now))
  }

  /** The verdicts the shared limiter gives to one key. */
  function VerdictsFor(l: Limits, buckets: map<string, Bucket>, arrivals: seq<Arrival>, key: string)
    : (verdicts: seq<Verdict>)
    ensures |verdicts| == |TimesOf(arrivals, key)|
    decreases arrivals
  {
    if arrivals == [] then []
    else
      var a := arrivals[0];
      var (after, verdict) := ConsumeIn(l, buckets, a.key, a.now);
      (if a.key == key then [verdict] else []) + VerdictsFor(l, after, arrivals[1..], key)
  }

  function TimesOf(arrivals: seq<Arrival>, key: string): seq<int> {
    if arrivals == [] then []
    else (if arrivals[0].key == key then [arrivals[0].now] else []) + TimesOf(arrivals[1..], key)
  }

  /** The verdicts of a limiter that serves one key only and never sweeps. */
  function PrivateVerdicts(l: Limits, bucket: Option<Bucket>, times: seq<int>): seq<Verdict>
    decreases times
  {
    if times == [] then []
    else
      var (after, verdict) := Serve(l, bucket, times[0]);
      [verdict] + PrivateVerdicts(l, Some(after), times[1..])
  }

  /** One step of another key, one step of this one: the other key's sweep changes the verdict if
      and only if it read at or past the end of this key's window, this key reads before that
      end, and the window is full. */
  lemma SweepChangesAVerdictExactly(l: Limits, buckets: map<string, Bucket>, key: string, other: string, t1: int,
                                    t2: int)
    requires key in buckets && other != key
    ensures ConsumeIn(l, ConsumeIn(l, buckets, other, t1).0, key, t2).1 != ConsumeIn(l, buckets, key, t2).1
       <==> t2 < buckets[key].resetAt <= t1 && buckets[key].count >= l.maxRequests
  {
  }

  /** No request of `key` reads before the end of its window after another key has read at or
      past that end. `bucket` is the one a private limiter would hold, `swept` whether another
      key has passed its end. */
  predicate NoneReadsBehindASweep(l: Limits, bucket: Option<Bucket>, swept: bool, arrivals: seq<Arrival>, key: string)
    decreases arrivals
  {
    if arrivals == [] then true
    else
      var a, rest := arrivals[0], arrivals[1..];
      if a.key != key then
        NoneReadsBehindASweep(l, bucket, swept || (bucket.Some? && bucket.value.resetAt <= a.now), rest, key)
      else
        && !(swept && bucket.Some? && a.now < bucket.value.resetAt)
        && NoneReadsBehindASweep(l, Some(Serve(l, bucket, a.now).0), false, rest, key)
  }

  /** What the shared limiter holds of a key whose private bucket is `bucket`. */
  ghost predicate HoldsUnlessSwept(buckets: map<string, Bucket>, key: string, bucket: Option<Bucket>, swept: bool) {
    Lookup(buckets, key) == if swept then None else bucket
  }

  lemma {:induction false} SharedServesLikePrivate(l: Limits, buckets: map<string, Bucket>, bucket: Option<Bucket>,
                                                   swept: bool, arrivals: seq<Arrival>, key: string)
    requires HoldsUnlessSwept(buckets, key, bucket, swept)
    requires NoneReadsBehindASweep(l, bucket, swept, arrivals, key)
    ensures VerdictsFor(l, buckets, arrivals, key) == PrivateVerdicts(l, bucket, TimesOf(arrivals, key))
    decreases arrivals
  {
    if arrivals != [] {
      var a, rest := arrivals[0], arrivals[1..];
      var after := ConsumeIn(l, buckets, a.key, a.now).0;
      if a.key == key {
        var served := Serve(l, bucket, a.now).0;
        SharedServesLikePrivate(l, after, Some(served), false, rest, key);
        assert TimesOf(arrivals, key)[1..] == TimesOf(rest, key);
      } else {
        SharedServesLikePrivate(l, after, bucket, swept || (bucket.Some? && bucket.value.resetAt <= a.now), rest, key);
        assert TimesOf(arrivals, key) == TimesOf(rest, key);
      }
    }
  }

  // ---------------------------------------------------------------- exactly when the sweep shows

  function Repeat<T>(x: T, n: nat): (r: seq<T>)
    ensures |r| == n && forall i :: 0 <= i < n ==> r[i] == x
  {
    if n == 0 then [] else [x] + Repeat(x, n - 1)
  }

  /** The last arrival, `n` more times. */
  function Again(arrivals: seq<Arrival>, n: nat): seq<Arrival>
    requires arrivals != []
  {
    arrivals + Repeat(arrivals[|arrivals| - 1], n)
  }

  /** After `p` of the arrivals, the last of them is repeated `n` times: the key is served as if it
      had a limiter of its own that never forgets. */
  predicate ServedAlike(l: Limits, arrivals: seq<Arrival>, key: string, p: nat, n: nat)
    requires 0 < p <= |arrivals|
  {
    var seen := Again(arrivals[..p], n);
    VerdictsFor(l, map[], seen, key) == PrivateVerdicts(l, None, TimesOf(seen, key))
  }

  lemma {:induction false} RepeatsAreHarmless(l: Limits, bucket: Option<Bucket>, swept: bool, a: Arrival, n: nat,
                                              key: string)
    requires a.key == key ==> !swept
    ensures NoneReadsBehindASweep(l, bucket, swept, Repeat(a, n), key)
    decreases n
  {
    var arrivals := Repeat(a, n);
    if n > 0 {
      assert arrivals[1..] == Repeat(a, n - 1);
      if a.key == key {
        RepeatsAreHarmless(l, Some(Serve(l, bucket, a.now).0), false, a, n - 1, key);
      } else {
        RepeatsAreHarmless(l, bucket, swept || (bucket.Some? && bucket.value.resetAt <= a.now), a, n - 1, key);
      }
    }
  }

  lemma {:induction false} PrefixAgainIsHarmless(l: Limits, bucket: Option<Bucket>, swept: bool, arrivals: seq<Arrival>,
                                                 key: string, p: nat, n: nat)
    requires 0 < p <= |arrivals| && NoneReadsBehindASweep(l, bucket, swept, arrivals, key)
    ensures NoneReadsBehindASweep(l, bucket, swept, Again(arrivals[..p], n), key)
    decreases p
  {
    var a, rest, seen := arrivals[0], arrivals[1..], Again(arrivals[..p], n);
    var bucket', swept' :=
      if a.key == key then Some(Serve(l, bucket, a.now).0) else bucket,
      if a.key == key then false else swept || (bucket.Some? && bucket.value.resetAt <= a.now);
    if p == 1 {
      assert seen[1..] == Repeat(a, n);
      RepeatsAreHarmless(l, bucket', swept', a, n, key);
    } else {
      assert seen[1..] == Again(rest[..p - 1], n);
      PrefixAgainIsHarmless(l, bucket', swept', rest, key, p - 1, n);
    }
  }

  /** Repeating a request fills a window, and is then refused. */
  lemma {:induction false} BurstVerdicts(l: Limits, bucket: Bucket, t: int, n: nat)
    requires t < bucket.resetAt
    ensures |PrivateVerdicts(l, Some(bucket), Repeat(t, n))| == n
    ensures n > 0 ==>
              (PrivateVerdicts(l, Some(bucket), Repeat(t, n))[n - 1].Allowed? <==> bucket.count + n <= l.maxRequests)
    decreases n
  {
    var times := Repeat(t, n);
    if n > 0 {
      assert times[1..] == Repeat(t, n - 1);
      BurstVerdicts(l, Serve(l, Some(bucket), t).0, t, n - 1);
    }
  }

  /** In a window that is over at once every request is allowed. */
  lemma {:induction false} EmptyWindowVerdicts(l: Limits, bucket: Bucket, t: int, n: nat)
    requires bucket.resetAt <= t && l.windowMs <= 0
    ensures |PrivateVerdicts(l, Some(bucket), Repeat(t, n))| == n
    ensures n > 0 ==> PrivateVerdicts(l, Some(bucket), Repeat(t, n))[n - 1].Allowed?
    decreases n
  {
    var times := Repeat(t, n);
    if n > 0 {
      assert times[1..] == Repeat(t, n - 1);
      EmptyWindowVerdicts(l, Serve(l, Some(bucket), t).0, t, n - 1);
    }
  }

  /** A window opened afresh outlasts the running one under a burst at one instant. */
  lemma FreshWindowOutlasts(l: Limits, bucket: Bucket, t: int) returns (n: nat)
    requires bucket.count >= 1 && t < bucket.resetAt
    ensures PrivateVerdicts(l, None, [t] + Repeat(t, n)) != PrivateVerdicts(l, Some(bucket), [t] + Repeat(t, n))
  {
    n := if bucket.count >= l.maxRequests then 0 else l.maxRequests - bucket.count;
    var times, burst := [t] + Repeat(t, n), Repeat(t, n);
    var anew := Bucket(1, t + l.windowMs);
    assert times[1..] == burst;
    var ours, theirs := PrivateVerdicts(l, None, times), PrivateVerdicts(l, Some(bucket), times);
    assert ours == [Allowed] + PrivateVerdicts(l, Some(anew), burst);
    var (after, verdict) := Serve(l, Some(bucket), t);
    assert theirs == [verdict] + PrivateVerdicts(l, Some(after), burst);
    if n > 0 {
      if l.windowMs > 0 { BurstVerdicts(l, anew, t, n); } else { EmptyWindowVerdicts(l, anew, t, n); }
      BurstVerdicts(l, after, t, n);
      assert ours[n].Allowed? && !theirs[n].Allowed?;
    } else {
      assert ours[0] != theirs[0];
    }
  }

  /** Repeats of one key are served by its bucket alone. */
  lemma {:induction false} RepeatsServePrivately(l: Limits, buckets: map<string, Bucket>, a: Arrival, n: nat)
    ensures VerdictsFor(l, buckets, Repeat(a, n), a.key)
         == PrivateVerdicts(l, Lookup(buckets, a.key), Repeat(a.now, n))
    ensures TimesOf(Repeat(a, n), a.key) == Repeat(a.now, n)
    decreases n
  {
    var arrivals, times := Repeat(a, n), Repeat(a.now, n);
    if n > 0 {
      assert arrivals[1..] == Repeat(a, n - 1) && times[1..] == Repeat(a.now, n - 1);
      RepeatsServePrivately(l, ConsumeIn(l, buckets, a.key, a.now).0, a, n - 1);
    }
  }

  /** At a request behind a sweep the shared limiter starts a window, the private one does not. */
  lemma BehindASweepTheyDiffer(l: Limits, buckets: map<string, Bucket>, bucket: Bucket, a: Arrival) returns (n: nat)
    requires a.key !in buckets && bucket.count >= 1 && a.now < bucket.resetAt
    ensures VerdictsFor(l, buckets, Again([a], n), a.key)
         != PrivateVerdicts(l, Some(bucket), TimesOf(Again([a], n), a.key))
  {
    n := FreshWindowOutlasts(l, bucket, a.now);
    assert Again([a], n) == Repeat(a, n + 1);
    assert [a.now] + Repeat(a.now, n) == Repeat(a.now, n + 1);
    RepeatsServePrivately(l, buckets, a, n + 1);
  }

  lemma {:induction false} SweepShows(l: Limits, buckets: map<string, Bucket>, bucket: Option<Bucket>, swept: bool,
                                      arrivals: seq<Arrival>, key: string) returns (p: nat, n: nat)
    requires HoldsUnlessSwept(buckets, key, bucket, swept) && (bucket.Some? ==> bucket.value.count >= 1)
    requires !NoneReadsBehindASweep(l, bucket, swept, arrivals, key)
    ensures 0 < p <= |arrivals|
    ensures var seen := Again(arrivals[..p], n);
            VerdictsFor(l, buckets, seen, key) != PrivateVerdicts(l, bucket, TimesOf(seen, key))
    decreases arrivals
  {
    var a, rest := arrivals[0], arrivals[1..];
    if a.key == key && swept && bucket.Some? && a.now < bucket.value.resetAt {
      n := BehindASweepTheyDiffer(l, buckets, bucket.value, a);
      p := 1;
      assert arrivals[..1] == [a];
    } else {
      var after := ConsumeIn(l, buckets, a.key, a.now).0;
      var bucket', swept' :=
        if a.key == key then Some(Serve(l, bucket, a.now).0) else bucket,
        if a.key == key then false else swept || (bucket.Some? && bucket.value.resetAt <= a.now);
      var q;
      q, n := SweepShows(l, after, bucket', swept', rest, key);
      p := q + 1;
      var seen := Again(arrivals[..p], n);
      assert seen[0] == a && seen[1..] == Again(rest[..q], n);
      OneArrivalOnward(l, buckets, bucket, seen, key);
    }
  }

  /** A difference after one arrival is a difference from before it. */
  lemma OneArrivalOnward(l: Limits, buckets: map<string, Bucket>, bucket: Option<Bucket>, arrivals: seq<Arrival>,
                         key: string)
    requires arrivals != []
    ensures var a, rest := arrivals[0], arrivals[1..];
            var after := ConsumeIn(l, buckets, a.key, a.now).0;
            var bucket' := if a.key == key then Some(Serve(l, bucket, a.now).0) else bucket;
            VerdictsFor(l, buckets, arrivals, key) == PrivateVerdicts(l, bucket, TimesOf(arrivals, key)) ==>
            VerdictsFor(l, after, rest, key) == PrivateVerdicts(l, bucket', TimesOf(rest, key))
  {
    var a, rest := arrivals[0], arrivals[1..];
    var shared, times := VerdictsFor(l, buckets, arrivals, key), TimesOf(arrivals, key);
    if a.key == key {
      assert times[0] == a.now && times[1..] == TimesOf(rest, key);
      assert shared[1..] == VerdictsFor(l, ConsumeIn(l, buckets, a.key, a.now).0, rest, key);
      assert PrivateVerdicts(l, bucket, times)[1..]
          == PrivateVerdicts(l, Some(Serve(l, bucket, a.now).0), TimesOf(rest, key));
    } else {
      assert times == TimesOf(rest, key);
      assert shared == VerdictsFor(l, ConsumeIn(l, buckets, a.key, a.now).0, rest, key);
    }
  }

  /** Main result. Whatever other keys do, a key is served as if it had a limiter of its own that
      never forgets, at every point of a run and however often its last request is then repeated,
      if and only if none of its requests reads before the end of its window after another key
      has read at or past that end. */
  lemma SweepIsUnobservableExactly(l: Limits, arrivals: seq<Arrival>, key: string)
    ensures (forall p: nat, n: nat :: 0 < p <= |arrivals| ==> ServedAlike(l, arrivals, key, p, n))
       <==> NoneReadsBehindASweep(l, None, false, arrivals, key)
  {
    if NoneReadsBehindASweep(l, None, false, arrivals, key) {
      forall p: nat, n: nat | 0 < p <= |arrivals| ensures ServedAlike(l, arrivals, key, p, n) {
        PrefixAgainIsHarmless(l, None, false, arrivals, key, p, n);
        SharedServesLikePrivate(l, map[], None, false, Again(arrivals[..p], n), key);
      }
    } else {
      var p, n := SweepShows(l, map[], None, false, arrivals, key);
      assert !ServedAlike(l, arrivals, key, p, n);
    }
  }

  /** Main result. Under that condition the verdicts of the whole run are those of the private
      limiter. */
  lemma SweepIsUnobservable(l: Limits, arrivals: seq<Arrival>, key: string)
    requires NoneReadsBehindASweep(l, None, false, arrivals, key)
    ensures VerdictsFor(l, map[], arrivals, key) == PrivateVerdicts(l, None, TimesOf(arrivals, key))
  {
    SharedServesLikePrivate(l, map[], None, false, arrivals, key);
  }

  /** Readings that come in the order the lock is taken meet the condition. */
  lemma {:induction false} InOrderReadsBehindNoSweep(l: Limits, bucket: Option<Bucket>, swept: bool,
                                                     arrivals: seq<Arrival>, clock: int, key: string)
    requires InOrder(arrivals, clock) && (swept && bucket.Some? ==> bucket.value.resetAt <= clock)
    ensures NoneReadsBehindASweep(l, bucket, swept, arrivals, key)
    decreases arrivals
  {
    if arrivals != [] {
      var a, rest := arrivals[0], arrivals[1..];
      if a.key == key {
        InOrderReadsBehindNoSweep(l, Some(Serve(l, bucket, a.now).0), false, rest, a.now, key);
      } else {
        var swept' := swept || (bucket.Some? && bucket.value.resetAt <= a.now);
        InOrderReadsBehindNoSweep(l, bucket, swept', rest, a.now, key);
      }
    }
  }

  // ---------------------------------------------------------------- the sliding bound

  predicate Ascending(times: seq<int>) {
    forall i, j :: 0 <= i < j < |times| ==> times[i] <= times[j]
  }

  /** How many requests a private limiter admits at instants from `lo` to before `hi`. */
  function AdmittedWithin(l: Limits, bucket: Option<Bucket>, times: seq<int>, lo: int, hi: int): nat
    decreases times
  {
    if times == [] then 0
    else
      var (after, verdict) := Serve(l, bucket, times[0]);
      (if verdict.Allowed? && lo <= times[0] < hi then 1 else 0) + AdmittedWithin(l, Some(after), times[1..], lo, hi)
  }

  /** A window always admits the request that opens it. */
  function Capacity(l: Limits): int {
    if l.maxRequests >= 1 then l.maxRequests else 1
  }

  function Room(l: Limits, bucket: Bucket): nat {
    if bucket.count < Capacity(l) then Capacity(l) - bucket.count else 0
  }

  /** No admitted request reads the clock before the start of the window that serves it. */
  predicate AdmitsInItsWindow(l: Limits, bucket: Option<Bucket>, times: seq<int>)
    decreases times
  {
    if times == [] then true
    else
      var (after, verdict) := Serve(l, bucket, times[0]);
      && (verdict.Allowed? ==> after.resetAt - l.windowMs <= times[0])
      && AdmitsInItsWindow(l, Some(after), times[1..])
  }

  /** Readings in order are never before the window that serves them. */
  lemma {:induction false} AscendingAdmitsInItsWindow(l: Limits, bucket: Option<Bucket>, times: seq<int>)
    requires Ascending(times)
    requires bucket.Some? && times != [] ==> bucket.value.resetAt - l.windowMs <= times[0]
    ensures AdmitsInItsWindow(l, bucket, times)
    decreases |times|
  {
    if times != [] { AscendingAdmitsInItsWindow(l, Some(Serve(l, bucket, times[0]).0), times[1..]); }
  }

  lemma {:induction false} NothingInAnEmptyInterval(l: Limits, bucket: Option<Bucket>, times: seq<int>,
                                                    lo: int, hi: int)
    requires hi <= lo
    ensures AdmittedWithin(l, bucket, times, lo, hi) == 0
    decreases |times|
  {
    if times != [] { NothingInAnEmptyInterval(l, Some(Serve(l, bucket, times[0]).0), times[1..], lo, hi); }
  }

  /** Once a window has started at or past the end of the interval, nothing in it is admitted. */
  lemma {:induction false} NothingBeforeTheWindow(l: Limits, bucket: Bucket, times: seq<int>, lo: int, hi: int)
    requires AdmitsInItsWindow(l, Some(bucket), times) && l.windowMs > 0 && hi <= bucket.resetAt - l.windowMs
    ensures AdmittedWithin(l, Some(bucket), times, lo, hi) == 0
    decreases |times|
  {
    if times != [] { NothingBeforeTheWindow(l, Serve(l, Some(bucket), times[0]).0, times[1..], lo, hi); }
  }

  /** While the current window covers the interval only its remaining room can be used. */
  lemma {:induction false} CoveredInterval(l: Limits, bucket: Bucket, times: seq<int>, lo: int, hi: int)
    requires AdmitsInItsWindow(l, Some(bucket), times) && l.windowMs > 0
    requires bucket.count >= 1 && hi <= bucket.resetAt
    ensures AdmittedWithin(l, Some(bucket), times, lo, hi) <= Room(l, bucket)
    decreases |times|
  {
    if times != [] {
      var after := Serve(l, Some(bucket), times[0]).0;
      if bucket.resetAt <= times[0] {
        NothingBeforeTheWindow(l, after, times[1..], lo, hi);
      } else {
        CoveredInterval(l, after, times[1..], lo, hi);
      }
    }
  }

  /** A window running when the interval starts leaves its room, and then one full window. */
  lemma {:induction false} RunningAtTheStart(l: Limits, bucket: Bucket, times: seq<int>, lo: int, hi: int)
    requires AdmitsInItsWindow(l, Some(bucket), times) && l.windowMs > 0 && hi <= lo + l.windowMs
    requires bucket.count >= 1 && lo < bucket.resetAt
    ensures AdmittedWithin(l, Some(bucket), times, lo, hi) <= Room(l, bucket) + Capacity(l)
    decreases |times|
  {
    if times != [] {
      var after := Serve(l, Some(bucket), times[0]).0;
      if bucket.resetAt <= times[0] {
        CoveredInterval(l, after, times[1..], lo, hi);
      } else {
        RunningAtTheStart(l, after, times[1..], lo, hi);
      }
    }
  }

  /** Main result. In any interval no longer than the window, a key none of whose admitted requests
      reads before its window is admitted fewer than twice its capacity, `max(1, max_requests)`. */
  lemma {:induction false} SlidingBound(l: Limits, bucket: Option<Bucket>, times: seq<int>, lo: int, hi: int)
    requires AdmitsInItsWindow(l, bucket, times) && hi <= lo + l.windowMs
    requires bucket.Some? ==> bucket.value.count >= 1
    ensures AdmittedWithin(l, bucket, times, lo, hi) <= 2 * Capacity(l) - 1
    decreases |times|
  {
    if hi <= lo {
      NothingInAnEmptyInterval(l, bucket, times, lo, hi);
    } else if bucket.Some? && lo < bucket.value.resetAt {
      RunningAtTheStart(l, bucket.value, times, lo, hi);
    } else if times != [] {
      var after := Serve(l, bucket, times[0]).0;
      if times[0] < lo {
        SlidingBound(l, Some(after), times[1..], lo, hi);
      } else {
        CoveredInterval(l, after, times[1..], lo, hi);
      }
    }
  }

  /** The bound cannot be lowered: one early request, the rest of its window at the very end of
      it, and a full window right after. */
  lemma SlidingBoundIsAttained(l: Limits)
    requires l.maxRequests >= 1 && l.windowMs >= 2
    ensures var n, w := l.maxRequests, l.windowMs; var times := [0] + (Repeat(w - 1, n - 1) + Repeat(w, n));
            && Ascending(times)
            && AdmittedWithin(l, None, times, w - 1, 2 * w - 1) == 2 * n - 1
  {
    var n, w := l.maxRequests, l.windowMs;
    var early, late := Repeat(w - 1, n - 1), Repeat(w, n);
    var times := [0] + (early + late);
    assert times[1..] == early + late;
    FillWindow(l, Bucket(1, w), n - 1, w - 1, late, w - 1, 2 * w - 1);
    NextWindow(l, n, w - 1);
  }

  /** A full window, all at the instant the old one ends. */
  lemma NextWindow(l: Limits, n: nat, lo: int)
    requires n == l.maxRequests >= 1 && l.windowMs >= 2 && lo == l.windowMs - 1
    ensures AdmittedWithin(l, Some(Bucket(n, l.windowMs)), Repeat(l.windowMs, n), lo, lo + l.windowMs) == n
  {
    var w := l.windowMs;
    var late, more := Repeat(w, n), Repeat(w, n - 1);
    assert late[0] == w && late[1..] == more + [];
    FillWindow(l, Bucket(1, 2 * w), n - 1, w, [], lo, lo + w);
  }

  /** `k` simultaneous requests into a window with room for them are all admitted. */
  lemma {:induction false} FillWindow(l: Limits, bucket: Bucket, k: nat, t: int, rest: seq<int>, lo: int, hi: int)
    requires t < bucket.resetAt && bucket.count + k <= l.maxRequests && lo <= t < hi
    ensures AdmittedWithin(l, Some(bucket), Repeat(t, k) + rest, lo, hi)
         == k + AdmittedWithin(l, Some(bucket.(count := bucket.count + k)), rest, lo, hi)
    decreases k
  {
    var times := Repeat(t, k) + rest;
    if k == 0 {
      assert times == rest;
    } else {
      assert times[1..] == Repeat(t, k - 1) + rest;
      FillWindow(l, bucket.(count := bucket.count + 1), k - 1, t, rest, lo, hi);
    }
  }

  /** The count above is the number of `Allowed` verdicts in the interval. */
  function AllowedWithin(times: seq<int>, verdicts: seq<Verdict>, lo: int, hi: int): nat
    requires |times| == |verdicts|
  {
    if times == [] then 0
    else (if verdicts[0].Allowed? && lo <= times[0] < hi then 1 else 0)
         + AllowedWithin(times[1..], verdicts[1..], lo, hi)
  }

  lemma {:induction false} AdmittedAreAllowed(l: Limits, bucket: Option<Bucket>, times: seq<int>, lo: int, hi: int)
    ensures |PrivateVerdicts(l, bucket, times)| == |times|
    ensures AllowedWithin(times, PrivateVerdicts(l, bucket, times), lo, hi) == AdmittedWithin(l, bucket, times, lo, hi)
    decreases |times|
  {
    if times != [] {
      AdmittedAreAllowed(l, Some(Serve(l, bucket, times[0]).0), times[1..], lo, hi);
    }
  }

  lemma {:induction false} OrderedTimes(arrivals: seq<Arrival>, clock: int, key: string)
    requires InOrder(arrivals, clock)
    ensures Ascending(TimesOf(arrivals, key))
    ensures forall i :: 0 <= i < |TimesOf(arrivals, key)| ==> clock <= TimesOf(arrivals, key)[i]
    decreases arrivals
  {
    if arrivals != [] { OrderedTimes(arrivals[1..], arrivals[0].now, key); }
  }

  /** Main result, for the shared limiter: a key none of whose requests reads behind a sweep, and
      none of whose admitted requests reads before the start of its window, is admitted at most
      `2 * max(1, max_requests) - 1` times in any half-open interval as long as the window,
      whatever other keys do and in whatever order its readings come otherwise. */
  lemma SharedSlidingBound(l: Limits, arrivals: seq<Arrival>, key: string, lo: int)
    requires NoneReadsBehindASweep(l, None, false, arrivals, key)
    requires AdmitsInItsWindow(l, None, TimesOf(arrivals, key))
    ensures var times, verdicts := TimesOf(arrivals, key), VerdictsFor(l, map[], arrivals, key);
            && |times| == |verdicts|
            && AllowedWithin(times, verdicts, lo, lo + l.windowMs) <= 2 * Capacity(l) - 1
  {
    var times := TimesOf(arrivals, key);
    SweepIsUnobservable(l, arrivals, key);
    AdmittedAreAllowed(l, None, times, lo, lo + l.windowMs);
    SlidingBound(l, None, times, lo, lo + l.windowMs);
  }

  /** Readings in lock order meet both conditions, for every key. */
  lemma InOrderIsBounded(l: Limits, arrivals: seq<Arrival>, clock: int, key: string, lo: int)
    requires InOrder(arrivals, clock)
    ensures NoneReadsBehindASweep(l, None, false, arrivals, key)
    ensures AdmitsInItsWindow(l, None, TimesOf(arrivals, key))
    ensures var times, verdicts := TimesOf(arrivals, key), VerdictsFor(l, map[], arrivals, key);
            && |times| == |verdicts|
            && AllowedWithin(times, verdicts, lo, lo + l.windowMs) <= 2 * Capacity(l) - 1
  {
    InOrderReadsBehindNoSweep(l, None, false, arrivals, clock, key);
    OrderedTimes(arrivals, clock, key);
    AscendingAdmitsInItsWindow(l, None, TimesOf(arrivals, key));
    SharedSlidingBound(l, arrivals, key, lo);
  }

  /** The disorder of two racing requests within one window is harmless. */
  lemma DisorderInsideAWindowIsBounded()
    ensures !Ascending([0, 5, 3]) && AdmitsInItsWindow(Limits(3, 10), None, [0, 5, 3])
  {
    var l := Limits(3, 10);
    assert [0, 5, 3][1] > [0, 5, 3][2];
    assert [0, 5, 3][1..] == [5, 3] && [5, 3][1..] == [3];
    assert AdmitsInItsWindow(l, Some(Bucket(2, 10)), [3]);
    assert AdmitsInItsWindow(l, Some(Bucket(1, 10)), [5, 3]);
  }

  // ---------------------------------------------------------------- late readings

  /** The clock is read before the lock is taken. A request that reads early and locks late finds
      its bucket swept by another key; although the key's own readings are in order it is then
      admitted twice within a window of capacity one, which the bound forbids. */
  lemma ALateReadingBreaksTheBound()
    ensures var arrivals := [Arrival("k", 0), Arrival("j", 10), Arrival("k", 9)]; var l := Limits(1, 10);
            && TimesOf(arrivals, "k") == [0, 9]
            && VerdictsFor(l, map[], arrivals, "k") == [Allowed, Allowed]
            && PrivateVerdicts(l, None, [0, 9]) == [Allowed, Refused(1)]
            && AllowedWithin([0, 9], [Allowed, Allowed], 0, 10) == 2 == 2 * Capacity(l)
  {
    var a, b, c := Arrival("k", 0), Arrival("j", 10), Arrival("k", 9);
    var l := Limits(1, 10);
    LateTimes();
    var b1 := ConsumeIn(l, map[], "k", 0).0;
    var b2 := ConsumeIn(l, b1, "j", 10).0;
    assert "k"[0] == 'k' && "j"[0] == 'j' && "k" !in b2;
    assert [a, b, c][1..] == [b, c] && [b, c][1..] == [c];
    assert VerdictsFor(l, b2, [c], "k") == [Allowed];
    assert VerdictsFor(l, b1, [b, c], "k") == [Allowed];
    assert [0, 9][1..] == [9] && PrivateVerdicts(l, Some(Bucket(1, 10)), [9]) == [Refused(1)];
    assert [Allowed, Allowed][1..] == [Allowed] && AllowedWithin([9], [Allowed], 0, 10) == 1;
  }

  lemma LateTimes()
    ensures TimesOf([Arrival("k", 0), Arrival("j", 10), Arrival("k", 9)], "k") == [0, 9]
  {
    var a, b, c := Arrival("k", 0), Arrival("j", 10), Arrival("k", 9);
    assert "k"[0] == 'k' && "j"[0] == 'j';
    assert [a, b, c][1..] == [b, c] && [b, c][1..] == [c];
    assert TimesOf([c], "k") == [9] + [];
    assert TimesOf([b, c], "k") == [] + [9] == [9];
    assert TimesOf([a, b, c], "k") == [0] + [9];
  }

  /** The second condition is needed as well: alone, and so never behind a sweep, a key of capacity
      two whose late readings reach a later window is admitted four times within one. */
  lemma OwnDisorderBreaksTheBound()
    ensures var times := [0, 0, 10, 9, 20, 9]; var l := Limits(2, 10);
            AdmittedWithin(l, None, times, 0, 10) == 4 == 2 * Capacity(l)
  {
    var l := Limits(2, 10);
    assert [20, 9][1..] == [9] && [9, 20, 9][1..] == [20, 9] && [10, 9, 20, 9][1..] == [9, 20, 9];
    assert [0, 10, 9, 20, 9][1..] == [10, 9, 20, 9] && [0, 0, 10, 9, 20, 9][1..] == [0, 10, 9, 20, 9];
    assert AdmittedWithin(l, Some(Bucket(1, 30)), [9], 0, 10) == 1;
    assert AdmittedWithin(l, Some(Bucket(2, 20)), [20, 9], 0, 10) == 1;
    assert AdmittedWithin(l, Some(Bucket(1, 20)), [9, 20, 9], 0, 10) == 2;
    assert AdmittedWithin(l, Some(Bucket(2, 10)), [10, 9, 20, 9], 0, 10) == 2;
    assert AdmittedWithin(l, Some(Bucket(1, 10)), [0, 10, 9, 20, 9], 0, 10) == 3;
  }
}
