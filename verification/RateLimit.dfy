/**
 The sliding-window rate limiter. It keeps a pruned bucket of times per key, and is
 shown to answer as the limiter that keeps everything it ever let through. Times
 are reals, in seconds.
 */
module RateLimit {
  import opened Wrappers
  import opened Skew

  type Key(==, !new)
  type Buckets = map<Key, Times>

  /** The entry of a key, or nothing. */
  function At(m: Buckets, key: Key): Times {
    if key in m then m[key] else []
  }

  /** How many of the times lie after the cutoff. */
  function CountAfter(times: Times, cutoff: real): (n: nat)
    ensures n <= |times|
  {
    if times == [] then 0
    else CountAfter(times[..|times| - 1], cutoff) + if times[|times| - 1] > cutoff then 1 else 0
  }

  /** One attempt at the limiter that keeps everything it let through. */
  function Next(history: Times, now: real, limit: nat, window: real): Times {
    if CountAfter(history, now - window) < limit then history + [now] else history
  }

  /** What that limiter lets through of the attempts at one key. */
  function Accepted(attempts: Times, limit: nat, window: real): Times {
    if attempts == [] then []
    else Next(Accepted(attempts[..|attempts| - 1], limit, window), attempts[|attempts| - 1], limit, window)
  }

  lemma {:induction false} AcceptedNext(attempts: Times, now: real, limit: nat, window: real)
    ensures Accepted(attempts + [now], limit, window) == Next(Accepted(attempts, limit, window), now, limit, window)
  {
    assert (attempts + [now])[..|attempts|] == attempts;
  }

  ghost predicate Sorted(times: Times) {
    forall i, j :: 0 <= i <= j < |times| ==> times[i] <= times[j]
  }

  ghost predicate InOrder(times: Times, time: real) {
    Sorted(times) && (times != [] ==> times[|times| - 1] <= time)
  }

  lemma {:induction false} CountOfSplit(times: Times, d: nat, cutoff: real)
    requires d <= |times|
    requires forall i :: 0 <= i < d ==> times[i] <= cutoff
    requires forall i :: d <= i < |times| ==> times[i] > cutoff
    ensures CountAfter(times, cutoff) == |times| - d
  {
    if times != [] {
      CountOfSplit(times[..|times| - 1], if d < |times| then d else d - 1, cutoff);
    }
  }

  /** The first position from `from` on that lies after the cutoff. */
  ghost function FirstAfter(times: Times, from: nat, cutoff: real): (e: nat)
    requires Sorted(times) && from <= |times|
    ensures from <= e <= |times|
    ensures forall i :: from <= i < e ==> times[i] <= cutoff
    ensures forall i :: e <= i < |times| ==> times[i] > cutoff
    decreases |times| - from
  {
    if from == |times| || times[from] > cutoff then from else FirstAfter(times, from + 1, cutoff)
  }

  /** In order, the times after a cutoff are the last ones. */
  lemma {:induction false} CountOfSorted(times: Times, cutoff: real)
    requires Sorted(times)
    ensures forall i :: 0 <= i < |times| ==> (times[i] > cutoff <==> i >= |times| - CountAfter(times, cutoff))
  {
    CountOfSplit(times, FirstAfter(times, 0, cutoff), cutoff);
  }

  lemma {:induction false} AcceptedInOrder(attempts: Times, limit: nat, window: real, time: real)
    requires InOrder(attempts, time)
    ensures InOrder(Accepted(attempts, limit, window), time)
  {
    if attempts != [] {
      AcceptedInOrder(attempts[..|attempts| - 1], limit, window, attempts[|attempts| - 1]);
    }
  }

  /** Any `limit` + 1 consecutive events let through span at least the window. */
  lemma {:induction false} AcceptedIsSpaced(attempts: Times, limit: nat, window: real, time: real, i: nat)
    requires InOrder(attempts, time) && i + limit < |Accepted(attempts, limit, window)|
    ensures var history := Accepted(attempts, limit, window); history[i + limit] - history[i] >= window
  {
    var before, now := attempts[..|attempts| - 1], attempts[|attempts| - 1];
    var history := Accepted(before, limit, window);
    AcceptedInOrder(before, limit, window, now);
    if i + limit < |history| {
      AcceptedIsSpaced(before, limit, window, now, i);
    } else if limit > 0 {
      CountOfSorted(history, now - window);
    }
  }

  /** A window of the given length never holds more than `limit` of them. */
  lemma {:induction false} WindowHoldsAtMostLimit(attempts: Times, limit: nat, window: real, time: real)
    requires InOrder(attempts, time)
    ensures CountAfter(Accepted(attempts, limit, window), time - window) <= limit
  {
    var history := Accepted(attempts, limit, window);
    AcceptedInOrder(attempts, limit, window, time);
    CountOfSorted(history, time - window);
    if |history| > limit {
      AcceptedIsSpaced(attempts, limit, window, time, |history| - limit - 1);
    }
  }

  /** A bucket is the end of the history, and what it lacks is out of every window to come. */
  ghost predicate Tracks(bucket: Times, history: Times, cutoff: real) {
    && |bucket| <= |history|
    && bucket == history[|history| - |bucket|..]
    && forall i :: 0 <= i < |history| - |bucket| ==> history[i] <= cutoff
  }

  /** As time passes, a bucket keeps tracking, and one whose latest event is out of the window can be forgotten. */
  lemma {:induction false} TracksLater(bucket: Times, history: Times, before: real, cutoff: real)
    requires Tracks(bucket, history, before) && before <= cutoff
    ensures Tracks(bucket, history, cutoff)
    ensures Sorted(history) && (bucket == [] || bucket[|bucket| - 1] <= cutoff) ==> Tracks([], history, cutoff)
  {
    if bucket != [] {
      assert bucket[|bucket| - 1] == history[|history| - 1];
    }
  }

  /** The events a bucket lacks, or is about to lose, are out of the window. */
  lemma {:induction false} AgedAreOut(bucket: Times, history: Times, cutoff: real, drop: nat)
    requires Tracks(bucket, history, cutoff)
    requires drop <= |bucket| && forall i :: 0 <= i < drop ==> bucket[i] <= cutoff
    ensures forall i :: 0 <= i < |history| - |bucket| + drop ==> history[i] <= cutoff
    ensures bucket[drop..] == history[|history| - |bucket| + drop..]
  {
    var start := |history| - |bucket|;
    forall i | start <= i < start + drop ensures history[i] <= cutoff {
      assert history[i] == bucket[i - start];
    }
  }

  /** A bucket without its aged events is exactly the window of the whole history. */
  lemma {:induction false} TrimmedIsWindow(bucket: Times, history: Times, cutoff: real, drop: nat)
    requires Tracks(bucket, history, cutoff) && Sorted(history)
    requires drop <= |bucket| && forall i :: 0 <= i < drop ==> bucket[i] <= cutoff
    requires drop < |bucket| ==> bucket[drop] > cutoff
    ensures var kept := bucket[drop..];
            && CountAfter(history, cutoff) == |kept| <= |history|
            && (kept != [] ==> kept[0] == history[|history| - |kept|] > cutoff)
            && Tracks(kept, history, cutoff)
  {
    var first := |history| - |bucket| + drop;
    AgedAreOut(bucket, history, cutoff, drop);
    assert drop < |bucket| ==> bucket[drop..][0] == bucket[drop] && history[first..][0] == history[first];
    CountOfSplit(history, first, cutoff);
  }

  /** One key at a given time: its bucket is never empty and never over the limit. */
  ghost predicate KeyHealthy(hits: Buckets, attempts: Buckets, key: Key, limit: nat, window: real, time: real) {
    && (key in hits ==> 1 <= |hits[key]| <= limit)
    && InOrder(At(attempts, key), time)
    && Tracks(At(hits, key), Accepted(At(attempts, key), limit, window), time - window)
  }

  ghost predicate AllHealthy(hits: Buckets, attempts: Buckets, limit: nat, window: real, time: real) {
    forall key :: KeyHealthy(hits, attempts, key, limit, window, time)
  }

  lemma {:induction false} BucketLater(
    bucket: Times, attempts: Times, limit: nat, window: real, before: real, now: real)
    requires InOrder(attempts, before) && before <= now
    requires Tracks(bucket, Accepted(attempts, limit, window), before - window)
    ensures Tracks(bucket, Accepted(attempts, limit, window), now - window)
    ensures bucket == [] || bucket[|bucket| - 1] <= now - window ==>
              Tracks([], Accepted(attempts, limit, window), now - window)
  {
    AcceptedInOrder(attempts, limit, window, before);
    TracksLater(bucket, Accepted(attempts, limit, window), before - window, now - window);
  }

  lemma {:induction false} SweptKeyIsHealthy(
    hits: Buckets, kept: Buckets, attempts: Buckets, key: Key, limit: nat, window: real, before: real, now: real)
    requires KeyHealthy(hits, attempts, key, limit, window, before) && before <= now
    requires key in kept ==> key in hits && kept[key] == hits[key]
    requires key in hits && key !in kept ==> hits[key] == [] || hits[key][|hits[key]| - 1] <= now - window
    ensures KeyHealthy(kept, attempts, key, limit, window, now)
  {
    BucketLater(At(hits, key), At(attempts, key), limit, window, before, now);
  }

  /** Time passes and aged keys are dropped. */
  lemma {:induction false} SweptIsHealthy(
    hits: Buckets, kept: Buckets, attempts: Buckets, limit: nat, window: real, before: real, now: real)
    requires AllHealthy(hits, attempts, limit, window, before) && before <= now
    requires forall key :: key in kept ==> key in hits && kept[key] == hits[key]
    requires forall key :: key in hits && key !in kept ==> hits[key] == [] || hits[key][|hits[key]| - 1] <= now - window
    ensures AllHealthy(kept, attempts, limit, window, now)
  {
    forall key ensures KeyHealthy(kept, attempts, key, limit, window, now) {
      SweptKeyIsHealthy(hits, kept, attempts, key, limit, window, before, now);
    }
  }

  /** One key changes. */
  lemma {:induction false} ChangedIsHealthy(
    hits: Buckets, attempts: Buckets, key: Key, bucket: Times, tried: Times, limit: nat, window: real, now: real)
    requires AllHealthy(hits, attempts, limit, window, now)
    requires KeyHealthy(hits[key := bucket], attempts[key := tried], key, limit, window, now)
    ensures AllHealthy(hits[key := bucket], attempts[key := tried], limit, window, now)
  {
    var hits', attempts' := hits[key := bucket], attempts[key := tried];
    forall other | other != key ensures KeyHealthy(hits', attempts', other, limit, window, now) {
      assert KeyHealthy(hits, attempts, other, limit, window, now);
      assert At(hits', other) == At(hits, other) && At(attempts', other) == At(attempts, other);
    }
  }

  lemma {:induction false} KeyTracks(hits: Buckets, attempts: Buckets, key: Key, limit: nat, window: real, now: real)
    requires AllHealthy(hits, attempts, limit, window, now)
    ensures Sorted(Accepted(At(attempts, key), limit, window)) && |At(hits, key)| <= limit
    ensures Tracks(At(hits, key), Accepted(At(attempts, key), limit, window), now - window)
  {
    assert KeyHealthy(hits, attempts, key, limit, window, now);
    AcceptedInOrder(At(attempts, key), limit, window, now);
  }

  /** Buckets stay sorted, never empty and never longer than the limit. */
  lemma {:induction false} BucketsStaySorted(
    hits: Buckets, attempts: Buckets, key: Key, limit: nat, window: real, now: real)
    requires AllHealthy(hits, attempts, limit, window, now) && key in hits
    ensures Sorted(hits[key]) && 1 <= |hits[key]| <= limit
  {
    KeyTracks(hits, attempts, key, limit, window, now);
    assert KeyHealthy(hits, attempts, key, limit, window, now);
  }

  /** The trimmed bucket is the window of the history. */
  lemma {:induction false} KeptIsWindow(
    hits: Buckets, attempts: Buckets, key: Key, drop: nat, limit: nat, window: real, now: real)
    requires AllHealthy(hits, attempts, limit, window, now)
    requires drop <= |At(hits, key)| && forall i :: 0 <= i < drop ==> At(hits, key)[i] <= now - window
    requires drop < |At(hits, key)| ==> At(hits, key)[drop] > now - window
    ensures var kept, history := At(hits, key)[drop..], Accepted(At(attempts, key), limit, window);
            && CountAfter(history, now - window) == |kept| <= |history| && |kept| <= limit
            && (kept != [] ==> kept[0] == history[|history| - |kept|] > now - window)
            && Tracks(kept, history, now - window)
  {
    KeyTracks(hits, attempts, key, limit, window, now);
    TrimmedIsWindow(At(hits, key), Accepted(At(attempts, key), limit, window), now - window, drop);
  }

  lemma {:induction false} OrderGrows(times: Times, now: real)
    requires InOrder(times, now)
    ensures InOrder(times + [now], now)
  {
  }

  /** The next attempt is decided alike by the bucket and by the history. */
  lemma {:induction false} NextTracks(kept: Times, history: Times, limit: nat, window: real, now: real)
    requires Tracks(kept, history, now - window) && CountAfter(history, now - window) == |kept|
    ensures Tracks(if |kept| < limit then kept + [now] else kept, Next(history, now, limit, window), now - window)
  {
  }

  /** The key that was tried, whatever the other keys hold. */
  lemma {:induction false} TriedIsHealthy(
    hits: Buckets, attempts: Buckets, key: Key, limit: nat, window: real, now: real,
    kept: Times, bucket: Times, tried: Times)
    requires limit >= 1 && InOrder(tried, now) && |kept| <= limit
    requires Tracks(kept, Accepted(tried, limit, window), now - window)
    requires CountAfter(Accepted(tried, limit, window), now - window) == |kept|
    requires bucket == if |kept| < limit then kept + [now] else kept
    requires key in hits && hits[key] == bucket && At(attempts, key) == tried + [now]
    ensures KeyHealthy(hits, attempts, key, limit, window, now)
  {
    NextTracks(kept, Accepted(tried, limit, window), limit, window, now);
    AcceptedNext(tried, now, limit, window);
    OrderGrows(tried, now);
  }

  /** The next attempt at a key keeps all keys healthy. */
  lemma {:induction false} NextIsHealthy(
    hits: Buckets, attempts: Buckets, key: Key, kept: Times, limit: nat, window: real, now: real)
    requires limit >= 1 && AllHealthy(hits, attempts, limit, window, now)
    requires Tracks(kept, Accepted(At(attempts, key), limit, window), now - window)
    requires CountAfter(Accepted(At(attempts, key), limit, window), now - window) == |kept| <= limit
    ensures var bucket := if |kept| < limit then kept + [now] else kept;
            AllHealthy(hits[key := bucket], attempts[key := At(attempts, key) + [now]], limit, window, now)
  {
    var bucket, tried := if |kept| < limit then kept + [now] else kept, At(attempts, key);
    var hits', attempts' := hits[key := bucket], attempts[key := tried + [now]];
    assert KeyHealthy(hits', attempts', key, limit, window, now) by {
      assert KeyHealthy(hits, attempts, key, limit, window, now);
      TriedIsHealthy(hits', attempts', key, limit, window, now, kept, bucket, tried);
    }
    ChangedIsHealthy(hits, attempts, key, bucket, tried + [now], limit, window, now);
  }

  /** An attempt: what the trimmed bucket tells, and that all keys stay healthy. */
  lemma {:induction false} AttemptIsHealthy(
    hits: Buckets, attempts: Buckets, key: Key, drop: nat, limit: nat, window: real, now: real)
    requires limit >= 1 && AllHealthy(hits, attempts, limit, window, now)
    requires drop <= |At(hits, key)| && forall i :: 0 <= i < drop ==> At(hits, key)[i] <= now - window
    requires drop < |At(hits, key)| ==> At(hits, key)[drop] > now - window
    ensures var kept, history := At(hits, key)[drop..], Accepted(At(attempts, key), limit, window);
            && CountAfter(history, now - window) == |kept| <= |history| && |kept| <= limit
            && (kept != [] ==> kept[0] == history[|history| - |kept|] > now - window)
            && AllHealthy(hits[key := if |kept| < limit then kept + [now] else kept],
                          attempts[key := At(attempts, key) + [now]], limit, window, now)
  {
    KeptIsWindow(hits, attempts, key, drop, limit, window, now);
    NextIsHealthy(hits, attempts, key, At(hits, key)[drop..], limit, window, now);
  }

  /** `max(1, int(wait + 0.999))`; the wait is positive, so the conversion rounds down. */
  function RetryAfter(wait: real): (seconds: int)
    requires wait > 0.0
    ensures seconds >= 1
    ensures wait - 0.001 < seconds as real < wait + 1.0
  {
    var rounded := (wait + 0.999).Floor;
    if rounded > 1 then rounded else 1
  }

  /**
   The advice can fall short by less than a millisecond. It covers the wait exactly
   when the wait is at most a second, a whole number, or at least a millisecond above one.
   */
  lemma {:induction false} RetryCoversTheWait(wait: real)
    requires wait > 0.0
    ensures var part := wait - wait.Floor as real;
            RetryAfter(wait) as real >= wait <==> wait <= 1.0 || part == 0.0 || part >= 0.001
  {
    var whole := wait.Floor;
    var part := wait - whole as real;
    var rounded := (wait + 0.999).Floor;
    if part >= 0.001 {
      assert rounded == whole + 1;
    } else {
      assert rounded == whole;
    }
  }

  /** A wait the advice does not cover: a second and half a millisecond. */
  lemma {:induction false} RetryCanFallShort()
    ensures RetryAfter(1.0005) as real < 1.0005
  {
    RetryCoversTheWait(1.0005);
    assert (1.0005 as real).Floor == 1;
  }

  /**
   With a full window, the key is refused until its oldest event in the window ages
   out, and no longer.
   */
  lemma {:induction false} RefusedUntilOldestAges(history: Times, limit: nat, window: real, now: real, later: real)
    requires Sorted(history) && 1 <= limit == CountAfter(history, now - window) && now <= later
    ensures CountAfter(history, later - window) < limit <==> later >= history[|history| - limit] + window
  {
    CountOfSorted(history, now - window);
    CountOfSorted(history, later - window);
  }

  // Readings that arrive out of order

  /** One key, in whatever order readings arrive. */
  ghost predicate KeyNear(
    hits: Buckets, passed: Buckets, key: Key, limit: nat, window: real, clock: real, skew: real)
  {
    && (key in hits ==> 1 <= |hits[key]| <= limit)
    && Near(At(hits, key), At(passed, key), limit, window, clock, skew)
  }

  ghost predicate AllNear(hits: Buckets, passed: Buckets, limit: nat, window: real, clock: real, skew: real) {
    forall key :: KeyNear(hits, passed, key, limit, window, clock, skew)
  }

  function Later(a: real, b: real): real {
    if a < b then b else a
  }

  lemma {:induction false} SweptKeyIsNear(
    hits: Buckets, kept: Buckets, passed: Buckets, key: Key,
    limit: nat, window: real, clock: real, skew: real, now: real)
    requires KeyNear(hits, passed, key, limit, window, clock, skew) && skew >= 0.0
    requires key in kept ==> key in hits && kept[key] == hits[key]
    requires key in hits && key !in kept ==> hits[key] == [] || hits[key][|hits[key]| - 1] <= now - window
    ensures KeyNear(kept, passed, key, limit, window, Later(clock, now), Later(skew, clock - now))
  {
    var clock', skew' := Later(clock, now), Later(skew, clock - now);
    NearLater(At(hits, key), At(passed, key), limit, window, clock, skew, clock', skew');
    if key in hits && key !in kept {
      NearForgotten(hits[key], At(passed, key), limit, window, clock', skew', now);
    }
  }

  /** A reading is taken note of, and the keys it finds fully aged are dropped. */
  lemma {:induction false} SweptIsNear(
    hits: Buckets, kept: Buckets, passed: Buckets, limit: nat, window: real, clock: real, skew: real, now: real)
    requires AllNear(hits, passed, limit, window, clock, skew) && skew >= 0.0
    requires forall key :: key in kept ==> key in hits && kept[key] == hits[key]
    requires forall key :: key in hits && key !in kept ==> hits[key] == [] || hits[key][|hits[key]| - 1] <= now - window
    ensures AllNear(kept, passed, limit, window, Later(clock, now), Later(skew, clock - now))
  {
    var clock', skew' := Later(clock, now), Later(skew, clock - now);
    forall key ensures KeyNear(kept, passed, key, limit, window, clock', skew') {
      assert KeyNear(hits, passed, key, limit, window, clock, skew);
      SweptKeyIsNear(hits, kept, passed, key, limit, window, clock, skew, now);
    }
  }

  /** An attempt at one key: what its trimmed bucket tells, and that all keys stay as they should be. */
  lemma {:induction false} AttemptIsNear(
    hits: Buckets, passed: Buckets, key: Key, drop: nat, limit: nat, window: real, clock: real, skew: real, now: real)
    requires limit >= 1 && AllNear(hits, passed, limit, window, clock, skew)
    requires skew >= 0.0 && clock - skew <= now <= clock
    requires drop <= |At(hits, key)| && forall i :: 0 <= i < drop ==> At(hits, key)[i] <= now - window
    ensures var kept, history := At(hits, key)[drop..], At(passed, key);
            && IsEndOf(kept, history) && |kept| <= limit
            && (|kept| < limit && limit <= |history| ==> history[|history| - limit] <= now - window + 2.0 * skew)
            && AllNear(hits[key := if |kept| < limit then kept + [now] else kept],
                       passed[key := history + if |kept| < limit then [now] else []], limit, window, clock, skew)
  {
    var kept, history := At(hits, key)[drop..], At(passed, key);
    assert KeyNear(hits, passed, key, limit, window, clock, skew);
    NearTrimmed(At(hits, key), history, limit, window, clock, skew, now, drop);
    var hits' := hits[key := if |kept| < limit then kept + [now] else kept];
    var passed' := passed[key := history + if |kept| < limit then [now] else []];
    if |kept| < limit {
      NearNext(kept, history, limit, window, clock, skew, now);
    } else {
      assert history + [] == history;
    }
    forall other ensures KeyNear(hits', passed', other, limit, window, clock, skew) {
      assert other != key ==> KeyNear(hits, passed, other, limit, window, clock, skew);
      assert other != key ==> At(hits', other) == At(hits, other) && At(passed', other) == At(passed, other);
    }
  }

  /** What was let through for a key is what the limiter that keeps everything lets through. */
  ghost predicate KeyAccepted(passed: Buckets, attempts: Buckets, key: Key, limit: nat, window: real) {
    At(passed, key) == Accepted(At(attempts, key), limit, window)
  }

  ghost predicate AllAccepted(passed: Buckets, attempts: Buckets, limit: nat, window: real) {
    forall key :: KeyAccepted(passed, attempts, key, limit, window)
  }

  lemma {:induction false} NextIsAccepted(
    passed: Buckets, attempts: Buckets, key: Key, limit: nat, window: real, now: real)
    requires AllAccepted(passed, attempts, limit, window)
    ensures var allowed := CountAfter(At(passed, key), now - window) < limit;
            AllAccepted(passed[key := At(passed, key) + if allowed then [now] else []],
                        attempts[key := At(attempts, key) + [now]], limit, window)
  {
    var next := if CountAfter(At(passed, key), now - window) < limit then [now] else [];
    var passed', attempts' := passed[key := At(passed, key) + next], attempts[key := At(attempts, key) + [now]];
    forall other ensures KeyAccepted(passed', attempts', other, limit, window) {
      assert KeyAccepted(passed, attempts, other, limit, window);
      if other == key {
        AcceptedNext(At(attempts, key), now, limit, window);
      } else {
        assert At(passed', other) == At(passed, other) && At(attempts', other) == At(attempts, other);
      }
    }
  }

  /** The limiter's state: near in any case, and exact while readings have arrived in order. */
  ghost predicate Sound(
    hits: Buckets, passed: Buckets, attempts: Buckets, limit: nat, window: real, clock: real, skew: real)
  {
    && limit >= 1 && skew >= 0.0
    && AllNear(hits, passed, limit, window, clock, skew)
    && (skew == 0.0 ==>
          AllHealthy(hits, attempts, limit, window, clock) && AllAccepted(passed, attempts, limit, window))
  }

  /** A reading arrives and aged keys are dropped. */
  lemma {:induction false} SweptIsSound(
    hits: Buckets, kept: Buckets, passed: Buckets, attempts: Buckets,
    limit: nat, window: real, clock: real, skew: real, now: real)
    requires Sound(hits, passed, attempts, limit, window, clock, skew)
    requires kept == Swept(hits, true, now - window) || kept == hits
    ensures Sound(kept, passed, attempts, limit, window, Later(clock, now), Later(skew, clock - now))
  {
    SweptIsNear(hits, kept, passed, limit, window, clock, skew, now);
    if skew == 0.0 && clock <= now {
      SweptIsHealthy(hits, kept, attempts, limit, window, clock, now);
    }
  }

  lemma {:induction false} FirstKept(bucket: Times, history: Times, drop: nat, cutoff: real)
    requires drop <= |bucket| && IsEndOf(bucket[drop..], history)
    requires drop < |bucket| ==> bucket[drop] > cutoff
    ensures var kept := bucket[drop..];
            |kept| <= |history| && (kept != [] ==> kept[0] == history[|history| - |kept|] > cutoff)
  {
  }

  /** An attempt while readings have arrived in order. */
  lemma {:induction false} AttemptIsExact(
    hits: Buckets, passed: Buckets, attempts: Buckets, key: Key, drop: nat, limit: nat, window: real, now: real)
    requires limit >= 1 && AllHealthy(hits, attempts, limit, window, now)
    requires AllAccepted(passed, attempts, limit, window)
    requires drop <= |At(hits, key)| && forall i :: 0 <= i < drop ==> At(hits, key)[i] <= now - window
    requires drop < |At(hits, key)| ==> At(hits, key)[drop] > now - window
    ensures var kept, history := At(hits, key)[drop..], At(passed, key);
            && CountAfter(history, now - window) == |kept|
            && AllHealthy(hits[key := if |kept| < limit then kept + [now] else kept],
                          attempts[key := At(attempts, key) + [now]], limit, window, now)
            && AllAccepted(passed[key := history + if |kept| < limit then [now] else []],
                           attempts[key := At(attempts, key) + [now]], limit, window)
  {
    assert KeyAccepted(passed, attempts, key, limit, window);
    AttemptIsHealthy(hits, attempts, key, drop, limit, window, now);
    NextIsAccepted(passed, attempts, key, limit, window, now);
  }

  /** An attempt: what the trimmed bucket tells, and that the state stays sound. */
  lemma {:induction false} AttemptIsSound(
    hits: Buckets, passed: Buckets, attempts: Buckets, key: Key, drop: nat,
    limit: nat, window: real, clock: real, skew: real, now: real)
    requires Sound(hits, passed, attempts, limit, window, clock, skew) && clock - skew <= now <= clock
    requires drop <= |At(hits, key)| && forall i :: 0 <= i < drop ==> At(hits, key)[i] <= now - window
    requires drop < |At(hits, key)| ==> At(hits, key)[drop] > now - window
    ensures var kept, history := At(hits, key)[drop..], At(passed, key);
            var allowed := |kept| < limit;
            && (allowed && limit <= |history| ==> history[|history| - limit] <= now - window + 2.0 * skew)
            && (!allowed ==> limit == |kept| <= |history| && kept[0] == history[|history| - limit] > now - window)
            && (skew == 0.0 ==> CountAfter(history, now - window) == |kept|)
            && Sound(hits[key := if allowed then kept + [now] else kept],
                     passed[key := history + if allowed then [now] else []],
                     attempts[key := At(attempts, key) + [now]], limit, window, clock, skew)
  {
    AttemptIsNear(hits, passed, key, drop, limit, window, clock, skew, now);
    FirstKept(At(hits, key), At(passed, key), drop, now - window);
    if skew == 0.0 {
      AttemptIsExact(hits, passed, attempts, key, drop, limit, window, now);
    }
  }

  /** Whatever the order of readings, no window shorter by twice the skew ever held more than `limit` events. */
  lemma {:induction false} LimitUnderSkew(
    hits: Buckets, passed: Buckets, attempts: Buckets, key: Key,
    limit: nat, window: real, clock: real, skew: real, from: real, to: real)
    requires Sound(hits, passed, attempts, limit, window, clock, skew) && to - from <= window - 2.0 * skew
    ensures |During(At(passed, key), from, to)| <= limit
  {
    assert KeyNear(hits, passed, key, limit, window, clock, skew);
    ShortWindowsHoldLimit(At(passed, key), limit, window - 2.0 * skew, from, to);
  }

  // The limiter

  /** The buckets after a sweep, which is due once a window. */
  function Swept(hits: Buckets, due: bool, cutoff: real): Buckets {
    if due then
      map key | key in hits && hits[key] != [] && hits[key][|hits[key]| - 1] > cutoff :: hits[key]
    else hits
  }

  /** A bucket without the aged events at its front. */
  function Trimmed(bucket: Times, cutoff: real): Times {
    if bucket != [] && bucket[0] <= cutoff then Trimmed(bucket[1..], cutoff) else bucket
  }

  class SlidingWindowRateLimiter {
    const limit: nat
    const window: real
    var hits: Buckets
    var lastPrune: real
    /** All attempts at each key so far, and those that were let through. */
    ghost var attempts: Buckets
    ghost var passed: Buckets
    /** The latest reading so far, and how far behind the latest one a reading has arrived. */
    ghost var clock: real
    ghost var skew: real

    ghost predicate Valid()
      reads this
    {
      Sound(hits, passed, attempts, limit, window, clock, skew)
    }

    /** What was let through for a key, in the order it was. */
    ghost function History(key: Key): Times
      reads this
    {
      At(passed, key)
    }

    constructor (limit: nat, window: real, now: real)
      requires limit >= 1
      ensures Valid() && this.limit == limit && this.window == window
      ensures hits == map[] && lastPrune == now
      ensures attempts == map[] && passed == map[] && clock == now && skew == 0.0
    {
      this.limit, this.window := limit, window;
      hits, lastPrune := map[], now;
      attempts, passed, clock, skew := map[], map[], now, 0.0;
    }

    /** A limit below one is an error. */
    static method Create(limit: int, window: real, now: real) returns (r: Option<SlidingWindowRateLimiter>)
      ensures r.Some? <==> limit >= 1
      ensures r.Some? ==> fresh(r.value) && r.value.Valid() && r.value.limit == limit
      ensures r.Some? ==> r.value.window == window && r.value.attempts == map[] && r.value.passed == map[]
      ensures r.Some? ==> r.value.clock == now && r.value.skew == 0.0
    {
      if limit < 1 {
        return None;
      }
      var limiter := new SlidingWindowRateLimiter(limit, window, now);
      r := Some(limiter);
    }

    /** Drops the keys whose events are all out of the window. */
    method Prune(cutoff: real)
      modifies `hits
      ensures hits == Swept(old(hits), true, cutoff)
    {
      var stale := set key | key in hits && (hits[key] == [] || hits[key][|hits[key]| - 1] <= cutoff);
      hits := hits - stale;
    }

    /** The sweep over all keys, at most once per window. */
    method SweepIfDue(now: real)
      requires Valid()
      modifies `hits, `lastPrune, `clock, `skew
      ensures Valid() && clock == Later(old(clock), now) && skew == Later(old(skew), old(clock) - now)
      ensures var due := now - old(lastPrune) >= window;
              hits == Swept(old(hits), due, now - window) && lastPrune == if due then now else old(lastPrune)
    {
      if now - lastPrune >= window {
        Prune(now - window);
        lastPrune := now;
      }
      SweptIsSound(old(hits), hits, passed, attempts, limit, window, clock, skew, now);
      clock, skew := Later(clock, now), Later(skew, clock - now);
    }

    /** How many events at the front of a bucket are out of the window. */
    static method AgedOut(bucket: Times, cutoff: real) returns (drop: nat)
      ensures drop <= |bucket| && bucket[drop..] == Trimmed(bucket, cutoff)
      ensures forall i :: 0 <= i < drop ==> bucket[i] <= cutoff
      ensures drop < |bucket| ==> bucket[drop] > cutoff
    {
      drop := 0;
      while drop < |bucket| && bucket[drop] <= cutoff
        invariant drop <= |bucket| && Trimmed(bucket[drop..], cutoff) == Trimmed(bucket, cutoff)
        invariant forall i :: 0 <= i < drop ==> bucket[i] <= cutoff
      {
        assert bucket[drop..][1..] == bucket[drop + 1..];
        drop := drop + 1;
      }
    }

    /**
     One attempt, read at a time that may lie before that of the last one. It is
     refused only if the last `limit` events let through lie in the window, and then
     tells when the first of them ages out; it is allowed only if they do not, up to
     twice the skew. Without skew the answer is what the whole history says, whatever
     was pruned.
     */
    method Check(key: Key, now: real) returns (allowed: bool, retryAfter: int)
      requires Valid()
      modifies this
      ensures Valid() && clock == Later(old(clock), now) && skew == Later(old(skew), old(clock) - now)
      ensures attempts == old(attempts)[key := At(old(attempts), key) + [now]]
      ensures passed == old(passed)[key := old(History(key)) + if allowed then [now] else []]
      ensures var due := now - old(lastPrune) >= window;
              var swept := Swept(old(hits), due, now - window);
              var kept := Trimmed(At(swept, key), now - window);
              && lastPrune == (if due then now else old(lastPrune))
              && (allowed <==> |kept| < limit)
              && hits == swept[key := if allowed then kept + [now] else kept]
      ensures allowed ==>
        var history := old(History(key));
        && retryAfter == 0
        && (limit <= |history| ==> history[|history| - limit] <= now - window + 2.0 * skew)
      ensures !allowed ==>
        var history := old(History(key));
        && limit <= |history| && history[|history| - limit] > now - window
        && retryAfter == RetryAfter(history[|history| - limit] + window - now)
      ensures skew == 0.0 ==> (allowed <==> CountAfter(old(History(key)), now - window) < limit)
    {
      var cutoff := now - window;
      SweepIfDue(now);
      var bucket := if key in hits then hits[key] else [];
      var drop := AgedOut(bucket, cutoff);
      AttemptIsSound(hits, passed, attempts, key, drop, limit, window, clock, skew, now);
      bucket := bucket[drop..];
      attempts := attempts[key := At(attempts, key) + [now]];
      if |bucket| >= limit {
        passed := passed[key := At(passed, key) + []];
        hits := hits[key := bucket];
        return false, RetryAfter(window - (now - bucket[0]));
      }
      passed := passed[key := At(passed, key) + [now]];
      hits := hits[key := bucket + [now]];
      return true, 0;
    }
  }

  /** `n` readings of one key, the first one ahead of all others. */
  function FirstAhead(n: nat, skew: real): Times {
    seq(n, i => if i == 0 then skew else 0.0)
  }

  /** A new limiter whose key is full, with its first reading ahead of the others. */
  method FillWindow(key: Key, limit: nat, window: real, skew: real) returns (limiter: SlidingWindowRateLimiter)
    requires limit >= 2 && 0.0 <= skew < window
    ensures fresh(limiter) && limiter.Valid() && limiter.limit == limit && limiter.window == window
    ensures limiter.lastPrune == 0.0 && limiter.clock == skew && limiter.skew == skew
    ensures limiter.hits.Keys == {key} && limiter.hits[key] == limiter.History(key) == FirstAhead(limit, skew)
  {
    limiter := new SlidingWindowRateLimiter(limit, window, 0.0);
    var _, _ := limiter.Check(key, skew);
    var n := 1;
    while n < limit
      invariant 1 <= n <= limit
      invariant fresh(limiter) && limiter.Valid() && limiter.limit == limit && limiter.window == window
      invariant limiter.lastPrune == 0.0 && limiter.clock == skew && limiter.skew == if n == 1 then 0.0 else skew
      invariant limiter.hits.Keys == {key} && limiter.hits[key] == limiter.History(key) == FirstAhead(n, skew)
    {
      var _, _ := limiter.Check(key, 0.0);
      n := n + 1;
    }
  }

  /**
   The bound of twice the skew is sharp: in this run `limit` + 1 events of one key lie
   exactly `window` - 2 * `skew` apart. The key's first reading is ahead, so its last
   one looks aged to a reading of another key, and one from before that enters next.
   */
  method Overtaken(key: Key, other: Key, limit: nat, window: real, skew: real)
    returns (limiter: SlidingWindowRateLimiter)
    requires key != other && limit >= 2 && 0.0 <= skew < window
    ensures fresh(limiter) && limiter.Valid() && limiter.limit == limit && limiter.window == window
    ensures limiter.skew == skew
    ensures var history := limiter.History(key);
            |history| == limit + 1 && history[limit] - history[0] == window - 2.0 * skew
  {
    limiter := FillWindow(key, limit, window, skew);
    assert limiter.hits[key][limit - 1] == 0.0;
    var _, _ := limiter.Check(other, window);
    assert key !in limiter.hits;
    var _, _ := limiter.Check(key, window - skew);
  }
}
