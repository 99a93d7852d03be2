/**
 * The dashboard's "peak concurrency" histogram. Every session is walked from
 * its start to its end in steps of 300 seconds, and each step adds one to the
 * bucket its time maps to. Sessions are counted separately, so a user with two
 * overlapping sessions counts twice. The result is in ascending key order, as
 * a `TreeMap` iterates.
 *
 * The bucket key as written is the step time truncated to the minute, minus
 * the step time's Java remainder modulo 300 (`StepKey`). That is a multiple of
 * 300 only when the step time is a whole minute; `FiveMinuteFloor` is the
 * five-minute bucket the code evidently means. The walk is written once, for
 * any bucket function.
 */
module PeakConcurrency {
  import opened GameSessions
  import opened JavaMath

  /** Seconds between two step times of one session. */
  const Step: int := 300

  /** The bucket key as written: `start.truncatedTo(MINUTES).plusSeconds(-(start.getEpochSecond() % 300))`. */
  function StepKey(t: int): (k: int)
    ensures t >= 0 ==> t - 358 <= k <= t
    ensures t < 0 ==> t - 59 <= k <= t + 299
  {
    TruncRemBounds(t, 300);
    (t - t % 60) - TruncRem(t, 300)
  }

  /** The five-minute bucket a step time belongs to: the time floored to a multiple of 300. */
  function FiveMinuteFloor(t: int): (f: int)
    ensures f % Step == 0
    ensures t - Step < f <= t
  {
    t - t % 300
  }

  /** One histogram entry: a bucket key and how many steps fell into it. */
  datatype Bucket = Bucket(key: int, count: nat)

  // ---------------------------------------------------------------- the reference count

  /** The keys the walk of one session produces: one per step time `start + 300n` before `end`. */
  function StepKeys(start: int, end: int, bucketOf: int -> int): (r: seq<int>)
    ensures |r| == StepCount(start, end)
    decreases end - start
  {
    if start < end then [bucketOf(start)] + StepKeys(start + Step, end, bucketOf) else []
  }

  /** The keys the walks of all sessions produce, session after session. */
  function AllStepKeys(sessions: seq<GameSession>, now: int, bucketOf: int -> int): seq<int>
  {
    if sessions == [] then []
    else
      var last := sessions[|sessions| - 1];
      AllStepKeys(sessions[..|sessions| - 1], now, bucketOf) + StepKeys(last.startTime, SessionEnd(last, now), bucketOf)
  }

  /** The number of steps of an interval: the ceiling of its length over 300, and none when it is empty. */
  function StepCount(start: int, end: int): nat
  {
    if start < end then (end - start + Step - 1) / Step else 0
  }

  /** The number of steps over all sessions. */
  function TotalSteps(sessions: seq<GameSession>, now: int): nat
  {
    if sessions == [] then 0
    else
      var last := sessions[|sessions| - 1];
      TotalSteps(sessions[..|sessions| - 1], now) + StepCount(last.startTime, SessionEnd(last, now))
  }

  /** `StepCount` is the ceiling: a non-empty interval needs that many steps and not one fewer. */
  lemma StepCountIsCeiling(start: int, end: int)
    requires start < end
    ensures Step * (StepCount(start, end) - 1) < end - start <= Step * StepCount(start, end)
  {
  }

  /** The n-th key of a walk is the bucket of the n-th step time, which lies before the end. */
  lemma {:induction false} StepKeysAt(start: int, end: int, bucketOf: int -> int, n: nat)
    requires n < |StepKeys(start, end, bucketOf)|
    ensures start + Step * n < end
    ensures StepKeys(start, end, bucketOf)[n] == bucketOf(start + Step * n)
    decreases end - start
  {
    if n > 0 {
      StepKeysAt(start + Step, end, bucketOf, n - 1);
    }
  }

  /** All walks together make `TotalSteps` steps. */
  lemma {:induction false} AllStepKeysCount(sessions: seq<GameSession>, now: int, bucketOf: int -> int)
    ensures |AllStepKeys(sessions, now, bucketOf)| == TotalSteps(sessions, now)
  {
    if sessions != [] {
      var last := sessions[|sessions| - 1];
      AllStepKeysCount(sessions[..|sessions| - 1], now, bucketOf);
    }
  }

  // ---------------------------------------------------------------- the TreeMap

  /**
   * Keys strictly ascend from one entry to the next. This neighbour-wise form
   * is what `Increment` keeps; `StrictlyIncreasingKeys` below is the pairwise
   * form a reader of the map relies on, and `AscendingLookup` turns the first
   * into the second.
   */
  predicate Ascending(h: seq<Bucket>)
  {
    forall i :: 0 < i < |h| ==> h[i - 1].key < h[i].key
  }

  /** Every entry's key is below the keys of all later entries: the `TreeMap` order. */
  predicate StrictlyIncreasingKeys(h: seq<Bucket>)
  {
    forall i, j :: 0 <= i < j < |h| ==> h[i].key < h[j].key
  }

  predicate Positive(h: seq<Bucket>)
  {
    forall i :: 0 <= i < |h| ==> h[i].count >= 1
  }

  /** The count recorded for `key` (zero when absent). */
  function CountAt(h: seq<Bucket>, key: int): nat
  {
    if h == [] then 0 else (if h[0].key == key then h[0].count else 0) + CountAt(h[1..], key)
  }

  /** The sum of all counts. */
  function Total(h: seq<Bucket>): nat
  {
    if h == [] then 0 else h[0].count + Total(h[1..])
  }

  /** `timeline.merge(key, 1, Integer::sum)` on the ordered map: add one to `key`'s count, creating it at its place. */
  function Increment(h: seq<Bucket>, key: int): (r: seq<Bucket>)
    ensures |r| > 0 && (r[0].key == key || (h != [] && r[0].key == h[0].key))
    ensures forall k :: CountAt(r, k) == CountAt(h, k) + (if k == key then 1 else 0)
  {
    if h == [] then [Bucket(key, 1)]
    else if key < h[0].key then
      assert ([Bucket(key, 1)] + h)[1..] == h;
      [Bucket(key, 1)] + h
    else if key == h[0].key then
      assert ([Bucket(key, h[0].count + 1)] + h[1..])[1..] == h[1..];
      [Bucket(key, h[0].count + 1)] + h[1..]
    else
      var rest := Increment(h[1..], key);
      assert ([h[0]] + rest)[1..] == rest;
      [h[0]] + rest
  }

  /** `Increment` keeps the map ordered with positive counts, and adds one to the total. */
  lemma {:induction false} IncrementKeepsShape(h: seq<Bucket>, key: int)
    ensures Ascending(h) ==> Ascending(Increment(h, key))
    ensures Positive(h) ==> Positive(Increment(h, key))
    ensures Total(Increment(h, key)) == Total(h) + 1
  {
    var r := Increment(h, key);
    if h == [] {
    } else if key < h[0].key {
      assert r[1..] == h;
    } else if key == h[0].key {
      assert r[1..] == h[1..];
    } else {
      IncrementKeepsShape(h[1..], key);
      assert r[1..] == Increment(h[1..], key);
    }
  }

  /** In an ascending map a key's count is that of its own entry, and each key has at most one entry. */
  lemma {:induction false} AscendingLookup(h: seq<Bucket>, i: nat)
    requires Ascending(h) && i < |h|
    ensures CountAt(h, h[i].key) == h[i].count
    ensures forall j :: i < j < |h| ==> h[i].key < h[j].key
  {
    if i == 0 {
      if |h| > 1 {
        AscendingLookup(h[1..], 0);
        AbsentFromLarger(h[1..], h[0].key);
      }
    } else {
      AscendingLookup(h[1..], i - 1);
      AscendingLookup(h, 0);
      assert h[0].key < h[i].key;
    }
  }

  /** A key below every key of an ascending map has no count there. */
  lemma {:induction false} AbsentFromLarger(h: seq<Bucket>, key: int)
    requires Ascending(h) && (h != [] ==> key < h[0].key)
    ensures CountAt(h, key) == 0
  {
    if h != [] {
      AbsentFromLarger(h[1..], key);
    }
  }

  /** A key with a positive count has an entry. */
  lemma {:induction false} CountedHasEntry(h: seq<Bucket>, key: int)
    requires CountAt(h, key) > 0
    ensures exists i :: 0 <= i < |h| && h[i].key == key
  {
    if h[0].key != key {
      CountedHasEntry(h[1..], key);
      var i :| 0 <= i < |h[1..]| && h[1..][i].key == key;
      assert h[i + 1].key == key;
    }
  }

  // ---------------------------------------------------------------- the walk

  /** The histogram: ordered keys, positive counts, each count that of its key among the walks' keys. */
  ghost predicate IsHistogram(timeline: seq<Bucket>, sessions: seq<GameSession>, now: int, bucketOf: int -> int)
  {
    var keys := AllStepKeys(sessions, now, bucketOf);
    && StrictlyIncreasingKeys(timeline)
    && Positive(timeline)
    && (forall i :: 0 <= i < |timeline| ==> timeline[i].count == multiset(keys)[timeline[i].key])
    && (forall n :: 0 <= n < |keys| ==> exists i :: 0 <= i < |timeline| && timeline[i].key == keys[n])
    && Total(timeline) == TotalSteps(sessions, now)
  }

  lemma HistogramFromCounts(timeline: seq<Bucket>, sessions: seq<GameSession>, now: int, bucketOf: int -> int)
    requires Ascending(timeline) && Positive(timeline)
    requires forall k :: CountAt(timeline, k) == multiset(AllStepKeys(sessions, now, bucketOf))[k]
    requires Total(timeline) == |AllStepKeys(sessions, now, bucketOf)|
    ensures IsHistogram(timeline, sessions, now, bucketOf)
  {
    var keys := AllStepKeys(sessions, now, bucketOf);
    forall i | 0 <= i < |timeline| ensures timeline[i].count == multiset(keys)[timeline[i].key]
      && forall j :: i < j < |timeline| ==> timeline[i].key < timeline[j].key
    {
      AscendingLookup(timeline, i);
    }
    forall n | 0 <= n < |keys| ensures exists i :: 0 <= i < |timeline| && timeline[i].key == keys[n] {
      assert keys[n] in multiset(keys);
      CountedHasEntry(timeline, keys[n]);
    }
    AllStepKeysCount(sessions, now, bucketOf);
  }

  /** The loop's progress: `timeline` holds the keys of `goal` that are not still `pending`. */
  ghost predicate WalkProgress(timeline: seq<Bucket>, pending: seq<int>, goal: seq<int>)
  {
    && Ascending(timeline) && Positive(timeline)
    && (forall k :: CountAt(timeline, k) + multiset(pending)[k] == multiset(goal)[k])
    && Total(timeline) + |pending| == |goal|
  }

  /** Counting the next pending key moves it from `pending` into the map. */
  lemma WalkStep(timeline: seq<Bucket>, key: int, pending: seq<int>, goal: seq<int>)
    requires WalkProgress(timeline, [key] + pending, goal)
    ensures WalkProgress(Increment(timeline, key), pending, goal)
  {
    IncrementKeepsShape(timeline, key);
    forall k ensures multiset([key] + pending)[k] == multiset(pending)[k] + (if k == key then 1 else 0) {
      assert multiset([key] + pending) == multiset{key} + multiset(pending);
    }
  }

  /** Once all of `goal` is counted, the keys of the next walk become pending. */
  lemma WalkAppend(timeline: seq<Bucket>, goal: seq<int>, walk: seq<int>)
    requires WalkProgress(timeline, [], goal)
    ensures WalkProgress(timeline, walk, goal + walk)
  {
  }

  lemma AllStepKeysSnoc(sessions: seq<GameSession>, i: nat, now: int, bucketOf: int -> int)
    requires i < |sessions|
    ensures AllStepKeys(sessions[..i + 1], now, bucketOf) ==
      AllStepKeys(sessions[..i], now, bucketOf) + StepKeys(sessions[i].startTime, SessionEnd(sessions[i], now), bucketOf)
  {
    assert sessions[..i + 1][..i] == sessions[..i];
  }

  /** The inner loop: walk one session from `start` to `end` in 300-second steps, counting each step's bucket. */
  method CountWalk(timeline: seq<Bucket>, start: int, end: int, bucketOf: int -> int, ghost goal: seq<int>)
    returns (counted: seq<Bucket>)
    requires WalkProgress(timeline, StepKeys(start, end, bucketOf), goal)
    ensures WalkProgress(counted, [], goal)
  {
    counted := timeline;
    var t := start;
    while t < end
      invariant WalkProgress(counted, StepKeys(t, end, bucketOf), goal)
      decreases end - t
    {
      var key := bucketOf(t);
      ghost var rest := StepKeys(t + Step, end, bucketOf);
      assert StepKeys(t, end, bucketOf) == [key] + rest;
      WalkStep(counted, key, rest, goal);
      counted := Increment(counted, key);
      t := t + Step;
    }
  }

  /** The histogram loop, for any bucket function. */
  method Histogram(sessions: seq<GameSession>, now: int, bucketOf: int -> int) returns (timeline: seq<Bucket>)
    ensures IsHistogram(timeline, sessions, now, bucketOf)
  {
    timeline := [];
    for i := 0 to |sessions|
      invariant WalkProgress(timeline, [], AllStepKeys(sessions[..i], now, bucketOf))
    {
      var session := sessions[i];
      var start := session.startTime;
      var end := SessionEnd(session, now);
      ghost var done := AllStepKeys(sessions[..i], now, bucketOf);
      ghost var walk := StepKeys(start, end, bucketOf);
      AllStepKeysSnoc(sessions, i, now, bucketOf);
      WalkAppend(timeline, done, walk);
      timeline := CountWalk(timeline, start, end, bucketOf, done + walk);
    }
    assert sessions[..|sessions|] == sessions;
    HistogramFromCounts(timeline, sessions, now, bucketOf);
  }

  /** `getPeakConcurrency`, with the bucket key as written. */
  method GetPeakConcurrency(sessions: seq<GameSession>, now: int) returns (timeline: seq<Bucket>)
    ensures IsHistogram(timeline, sessions, now, StepKey)
  {
    timeline := Histogram(sessions, now, StepKey);
  }

  /** The same histogram over five-minute buckets, the evident intent of the bucket key. */
  method AlignedPeakConcurrency(sessions: seq<GameSession>, now: int) returns (timeline: seq<Bucket>)
    ensures IsHistogram(timeline, sessions, now, FiveMinuteFloor)
  {
    timeline := Histogram(sessions, now, FiveMinuteFloor);
  }

  // ---------------------------------------------------------------- the bucket key

  /** A number written as `300q + r` with `0 <= r < 300` leaves remainder `r`. */
  lemma RemainderOf(a: int, q: int, r: int)
    requires a == Step * q + r && 0 <= r < Step
    ensures a % Step == r
  {
  }

  /** The key as written lands on a multiple of 300 exactly when the step time is a whole minute. */
  lemma StepKeyAlignment(t: int)
    ensures StepKey(t) % Step == 0 <==> t % 60 == 0
  {
    TruncRemBounds(t, 300);
    var q := TruncDiv(t, 300);
    var r := t % 60;
    assert StepKey(t) == Step * q - r;
    if r == 0 {
      RemainderOf(StepKey(t), q, 0);
    } else {
      RemainderOf(StepKey(t), q - 1, Step - r);
    }
  }

  /** For times after the epoch the key as written is the five-minute floor moved back by the seconds past the minute. */
  lemma StepKeyIsShiftedFloor(t: int)
    requires t >= 0
    ensures StepKey(t) == FiveMinuteFloor(t) - t % 60
  {
    TruncRemBounds(t, 300);
  }

  /** Step times of one session are 300 apart, so their keys are 300 apart too. */
  lemma StepKeyAdvances(t: int)
    requires t >= 0
    ensures StepKey(t + Step) == StepKey(t) + Step
  {
    TruncRemBounds(t, 300);
    TruncRemBounds(t + Step, 300);
    var q, r := t / 300, t % 300;
    assert t + 300 == 300 * (q + 1) + r;
    assert (t + 300) % 300 == r;
    var q', r' := t / 60, t % 60;
    assert t + 300 == 60 * (q' + 5) + r';
    assert (t + 300) % 60 == r';
  }

  /** A step at second 90 gets key -30: before the session starts and off the five-minute grid, whose bucket is 0. */
  lemma StepKeyMisaligned()
    ensures StepKey(90) == -30 && StepKey(90) % Step != 0 && StepKey(90) < 90
    ensures FiveMinuteFloor(90) == 0
  {
    TruncRemBounds(90, 300);
  }

  /** Every time in the five minutes from a step's bucket shares that bucket. */
  lemma FiveMinuteBucket(t: int, u: int)
    ensures FiveMinuteFloor(t) <= u < FiveMinuteFloor(t) + Step ==> FiveMinuteFloor(u) == FiveMinuteFloor(t)
  {
  }
}
