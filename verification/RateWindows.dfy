/**
 What the rate limiter tells a key, by the windows its requests fall into: exactly which
 requests are refused, and that the retry time is when the key is served again.
*/
module RateWindows {
  import opened Options
  import opened RateLimiter

  /** The request that opened the window request `n` is served in: a window lasts `windowMs` from
      the reading of its first request, and the first request at or past its end opens the next. */
  function Opener(l: Limits, times: seq<int>, n: nat): (w: nat)
    requires n < |times|
    ensures w <= n
  {
    if n == 0 then 0
    else
      var w := Opener(l, times, n - 1);
      if times[w] + l.windowMs <= times[n] then n else w
  }

  // ---------------------------------------------------------------- the bucket of a window

  /** What a private limiter holds after the first `n` requests. */
  function BucketAfter(l: Limits, bucket: Option<Bucket>, times: seq<int>, n: nat): Option<Bucket>
    requires n <= |times|
  {
    if n == 0 then bucket
    else Some(Serve(l, BucketAfter(l, bucket, times, n - 1), times[n - 1]).0)
  }

  lemma {:induction false} BucketAfterTail(l: Limits, bucket: Option<Bucket>, times: seq<int>, n: nat)
    requires n < |times|
    ensures BucketAfter(l, bucket, times, n + 1)
         == BucketAfter(l, Some(Serve(l, bucket, times[0]).0), times[1..], n)
    decreases n
  {
    if n == 0 {
      assert BucketAfter(l, bucket, times, 0) == bucket;
    } else {
      BucketAfterTail(l, bucket, times, n - 1);
    }
  }

  lemma {:induction false} VerdictIsTheBuckets(l: Limits, bucket: Option<Bucket>, times: seq<int>, n: nat)
    requires n < |times|
    ensures |PrivateVerdicts(l, bucket, times)| == |times|
    ensures PrivateVerdicts(l, bucket, times)[n] == Serve(l, BucketAfter(l, bucket, times, n), times[n]).1
    decreases |times|
  {
    var after := Serve(l, bucket, times[0]).0;
    assert PrivateVerdicts(l, bucket, times)
        == [Serve(l, bucket, times[0]).1] + PrivateVerdicts(l, Some(after), times[1..]);
    if n > 0 {
      VerdictIsTheBuckets(l, Some(after), times[1..], n - 1);
      BucketAfterTail(l, bucket, times, n - 1);
    } else if |times| > 1 {
      VerdictIsTheBuckets(l, Some(after), times[1..], 0);
    }
  }

  lemma {:induction false} BucketOfTheWindow(l: Limits, times: seq<int>, n: nat)
    requires n < |times|
    ensures var w := Opener(l, times, n);
            BucketAfter(l, None, times, n + 1)
            == Some(Bucket(if n - w < Capacity(l) then n - w + 1 else Capacity(l), times[w] + l.windowMs))
    decreases n
  {
    if n == 0 {
      assert BucketAfter(l, None, times, 0) == None;
    } else {
      BucketOfTheWindow(l, times, n - 1);
    }
  }

  // ---------------------------------------------------------------- the verdicts

  /** What request `n` is owed: the first `max(1, max_requests)` of a window are allowed, and the
      others are told how long the window still lasts. */
  function OwedVerdict(l: Limits, times: seq<int>, n: nat): Verdict
    requires n < |times|
  {
    var w := Opener(l, times, n);
    if n - w < Capacity(l) then Allowed else Refused(times[w] + l.windowMs - times[n])
  }

  /** Main result. A private limiter gives every request what its window owes it, in whatever order
      the readings come. */
  lemma VerdictsFollowTheWindows(l: Limits, times: seq<int>, n: nat)
    requires n < |times|
    ensures |PrivateVerdicts(l, None, times)| == |times|
    ensures PrivateVerdicts(l, None, times)[n] == OwedVerdict(l, times, n)
  {
    VerdictIsTheBuckets(l, None, times, n);
    if n > 0 { BucketOfTheWindow(l, times, n - 1); }
  }

  lemma {:induction false} SameWindowUntilItsEnd(l: Limits, times: seq<int>, n: nat, m: nat)
    requires n <= m < |times|
    requires forall i :: n < i <= m ==> times[i] < times[Opener(l, times, n)] + l.windowMs
    ensures Opener(l, times, m) == Opener(l, times, n)
    decreases m
  {
    if n < m { SameWindowUntilItsEnd(l, times, n, m - 1); }
  }

  /** Main result, for the shared limiter. Whatever other keys do, a key none of whose requests reads
      behind a sweep and that is refused with a retry time is refused until exactly that time is
      over, with what is left of it, and the first request from then on is allowed. */
  lemma RetryTimeIsWhenTheKeyIsServedAgain(l: Limits, arrivals: seq<Arrival>, key: string, n: nat, m: nat)
    requires NoneReadsBehindASweep(l, None, false, arrivals, key)
    requires n < m < |TimesOf(arrivals, key)|
    requires var times, v := TimesOf(arrivals, key), VerdictsFor(l, map[], arrivals, key)[n];
             v.Refused? && forall i :: n < i < m ==> times[i] < times[n] + v.retryAfterMs
    ensures var times, verdicts := TimesOf(arrivals, key), VerdictsFor(l, map[], arrivals, key);
            var again := times[n] + verdicts[n].retryAfterMs;
            && verdicts[n].retryAfterMs > 0
            && verdicts[m] == if times[m] < again then Refused(again - times[m]) else Allowed
  {
    var times := TimesOf(arrivals, key);
    SweepIsUnobservable(l, arrivals, key);
    VerdictsFollowTheWindows(l, times, n);
    VerdictsFollowTheWindows(l, times, m);
    SameWindowUntilItsEnd(l, times, n, m - 1);
    RefusedInsideItsWindow(l, times, n);
  }

  lemma RefusedInsideItsWindow(l: Limits, times: seq<int>, n: nat)
    requires n < |times| && Opener(l, times, n) < n
    ensures times[n] < times[Opener(l, times, n)] + l.windowMs
  {
  }
}
