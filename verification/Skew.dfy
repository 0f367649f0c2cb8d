/**
 One bucket of the rate limiter when clock readings arrive out of order: a caller
 reads the clock before it enters, so a caller with an earlier reading may enter
 later. The skew is how far behind the latest reading any reading has arrived.
 */
module Skew {
  type Times = seq<real>

  /** The bucket is the end of what was let through. */
  ghost predicate IsEndOf(bucket: Times, passed: Times) {
    |bucket| <= |passed| && bucket == passed[|passed| - |bucket|..]
  }

  /** No event was read after the clock, nor further behind an earlier one than the skew. */
  ghost predicate NearlyInOrder(passed: Times, clock: real, skew: real) {
    && (forall i :: 0 <= i < |passed| ==> passed[i] <= clock)
    && (forall i, j :: 0 <= i < j < |passed| ==> passed[i] <= passed[j] + skew)
  }

  /** What the bucket lacks lies before this time. */
  ghost predicate LacksUpTo(bucket: Times, passed: Times, time: real) {
    forall i :: 0 <= i < |passed| - |bucket| ==> passed[i] <= time
  }

  /** Events that are `limit` or more apart in number are `gap` or more apart in time. */
  ghost predicate Spread(passed: Times, limit: nat, gap: real) {
    forall i, j :: 0 <= i && i + limit <= j < |passed| ==> passed[j] - passed[i] >= gap
  }

  /** What holds of a bucket and its whole history, in whatever order readings arrived. */
  ghost predicate Near(bucket: Times, passed: Times, limit: nat, window: real, clock: real, skew: real) {
    && IsEndOf(bucket, passed)
    && NearlyInOrder(passed, clock, skew)
    && LacksUpTo(bucket, passed, clock - window + skew)
    && Spread(passed, limit, window - 2.0 * skew)
  }

  lemma {:induction false} NearLater(
    bucket: Times, passed: Times, limit: nat, window: real, clock: real, skew: real, clock': real, skew': real)
    requires Near(bucket, passed, limit, window, clock, skew) && clock <= clock' && skew <= skew'
    ensures Near(bucket, passed, limit, window, clock', skew')
  {
  }

  /** A bucket whose last event is out of some reading's window may be forgotten. */
  lemma {:induction false} NearForgotten(
    bucket: Times, passed: Times, limit: nat, window: real, clock: real, skew: real, now: real)
    requires Near(bucket, passed, limit, window, clock, skew) && skew >= 0.0 && now <= clock
    requires bucket == [] || bucket[|bucket| - 1] <= now - window
    ensures Near([], passed, limit, window, clock, skew)
  {
  }

  /** So may the events at its front that are. */
  lemma {:induction false} NearTrimmed(
    bucket: Times, passed: Times, limit: nat, window: real, clock: real, skew: real, now: real, drop: nat)
    requires Near(bucket, passed, limit, window, clock, skew) && skew >= 0.0 && now <= clock
    requires drop <= |bucket| && forall i :: 0 <= i < drop ==> bucket[i] <= now - window
    ensures Near(bucket[drop..], passed, limit, window, clock, skew)
  {
  }

  /** With room in the bucket, what was let through `limit` events ago is not in it. */
  lemma {:induction false} NearNext(
    bucket: Times, passed: Times, limit: nat, window: real, clock: real, skew: real, now: real)
    requires Near(bucket, passed, limit, window, clock, skew) && |bucket| < limit
    requires clock - skew <= now <= clock
    ensures Near(bucket + [now], passed + [now], limit, window, clock, skew)
  {
  }

  lemma {:induction false} RangeSize(places: set<nat>, first: nat, length: nat)
    requires forall i :: i in places ==> first <= i < first + length
    ensures |places| <= length
  {
    if length == 0 {
      assert places == {};
    } else {
      RangeSize(places - {first + length - 1}, first, length - 1);
    }
  }

  /** The events in `(from, to]`, by their places. */
  ghost function During(passed: Times, from: real, to: real): set<nat> {
    set i | 0 <= i < |passed| && from < passed[i] <= to
  }

  /** No window shorter than the real one by twice the skew, wherever it lies, holds more than `limit` events. */
  lemma {:induction false} ShortWindowsHoldLimit(passed: Times, limit: nat, gap: real, from: real, to: real)
    requires Spread(passed, limit, gap) && to - from <= gap
    ensures |During(passed, from, to)| <= limit
  {
    var places := During(passed, from, to);
    if places != {} {
      var first := Least(places);
      forall i | i in places ensures i < first + limit {
        var later, earlier := passed[i], passed[first];
        assert later - earlier < gap;
      }
      RangeSize(places, first, limit);
    }
  }

  ghost function Least(places: set<nat>): (least: nat)
    requires places != {}
    ensures least in places && forall i :: i in places ==> least <= i
  {
    var some :| some in places;
    if places == {some} then some
    else
      assert places == (places - {some}) + {some};
      var rest := Least(places - {some});
      if some < rest then some else rest
  }
}
