/** The in-process token bucket that guards the public HTTP routes
    (internal/httpapi/server.go).

    One token is worth `interval` microseconds of waiting, so a level of `t` tokens is
    kept here as the credit `t * interval`, which makes the refill exact. The bucket is a
    running level; the policy it is compared with keeps no level at all. */
module TokenBucket {
  import opened Common

  /** `full` is the credit of a full bucket: capacity * interval. */
  datatype Bucket = Bucket(full: nat, interval: nat, credit: nat, last: Time) {
    ghost predicate Valid() {
      interval > 0 && credit <= full
    }
  }

  function FullBucket(capacity: nat, interval: nat, now: Time): Bucket {
    Bucket(capacity * interval, interval, capacity * interval, now)
  }

  /** The level a call at `now` finds, after the refill and the cap. */
  function Level(b: Bucket, now: Time): nat
    requires b.last <= now
  {
    var refilled := b.credit + (now - b.last);
    if refilled > b.full then b.full else refilled
  }

  function Allow(b: Bucket, now: Time): (Bucket, bool)
    requires b.last <= now
  {
    var level := Level(b, now);
    if level < b.interval
    then (b.(credit := level, last := now), false)
    else (b.(credit := level - b.interval, last := now), true)
  }

  /** The limiter as the server holds it. Its mutex makes each call one step. */
  class Limiter {
    const full: nat
    const interval: nat
    var credit: nat
    var last: Time

    ghost function View(): Bucket
      reads this
    {
      Bucket(full, interval, credit, last)
    }

    constructor (capacity: nat, interval: nat, now: Time)
      requires interval > 0
      ensures View() == FullBucket(capacity, interval, now) && View().Valid()
    {
      this.full, this.interval := capacity * interval, interval;
      credit, last := capacity * interval, now;
    }

    method Take(now: Time) returns (allowed: bool)
      requires View().Valid() && last <= now
      modifies this`credit, this`last
      ensures (View(), allowed) == Allow(old(View()), now)
      ensures View().Valid()
    {
      credit := credit + (now - last);
      if credit > full {
        credit := full;
      }
      last := now;
      if credit < interval {
        return false;
      }
      credit := credit - interval;
      return true;
    }
  }

  // ------------------------------------------------------- the window policy

  function Admitted(ds: seq<bool>, i: nat, j: nat): nat
    requires i <= j <= |ds|
    decreases j
  {
    if i == j then 0 else Admitted(ds, i, j - 1) + if ds[j - 1] then 1 else 0
  }

  /** The waiting time that the calls admitted among `i..j` are worth. */
  function Worth(ds: seq<bool>, interval: nat, i: nat, j: nat): nat
    requires i <= j <= |ds|
    decreases j
  {
    if i == j then 0 else Worth(ds, interval, i, j - 1) + if ds[j - 1] then interval else 0
  }

  /** Reference policy: call `j` fits when admitting it keeps each window of calls `i..j`
      within a full bucket plus the time that window lasted. */
  ghost predicate Fits(full: nat, interval: nat, times: seq<Time>, ds: seq<bool>, j: nat)
    requires j < |times| == |ds|
  {
    forall i: nat :: i <= j ==>
      Worth(ds, interval, i, j) + interval + times[i] <= full + times[j]
  }

  // ---------------------------------------------------------------- whole runs

  /** The clock never steps back, and starts no earlier than the bucket's last refill. */
  predicate Follows(times: seq<Time>, b: Bucket) {
    NonDecreasing(times) && (|times| > 0 ==> b.last <= times[0])
  }

  /** The bucket after the first `n` calls. */
  function After(b: Bucket, times: seq<Time>, n: nat): (r: Bucket)
    requires Follows(times, b) && n <= |times|
    ensures r.full == b.full && r.interval == b.interval
    ensures r.last == if n == 0 then b.last else times[n - 1]
  {
    if n == 0 then b else Allow(After(b, times, n - 1), times[n - 1]).0
  }

  function Decisions(b: Bucket, times: seq<Time>): (ds: seq<bool>)
    requires Follows(times, b)
    ensures |ds| == |times|
  {
    seq(|times|, j requires 0 <= j < |times| => Allow(After(b, times, j), times[j]).1)
  }

  /** The level each call finds, as a recurrence over the decisions. */
  function Found(full: int, interval: nat, times: seq<int>, ds: seq<bool>, j: nat): int
    requires j < |times| == |ds|
  {
    if j == 0 then full else
      var earned := Found(full, interval, times, ds, j - 1) - (if ds[j - 1] then interval else 0)
                    + times[j] - times[j - 1];
      if earned > full then full else earned
  }

  /** That level is the least slack over all windows ending at `j`. */
  lemma {:induction false} FoundIsLeastSlack(full: int, interval: nat, times: seq<int>, ds: seq<bool>, j: nat)
      returns (tight: nat)
    requires j < |times| == |ds|
    ensures tight <= j
    ensures Found(full, interval, times, ds, j) + Worth(ds, interval, tight, j) + times[tight]
            == full + times[j]
    ensures forall i: nat :: i <= j ==>
              Found(full, interval, times, ds, j) + Worth(ds, interval, i, j) + times[i] <= full + times[j]
  {
    if j == 0 {
      tight := 0;
    } else {
      tight := FoundIsLeastSlack(full, interval, times, ds, j - 1);
      if Found(full, interval, times, ds, j) == full {
        tight := j;
      }
    }
  }

  /** The level one call later, from the level this call found and what it decided. */
  lemma LevelAfterCall(b: Bucket, now: Time, later: Time)
    requires b.last <= now <= later
    ensures var earned := Level(b, now) - (if Allow(b, now).1 then b.interval else 0) + later - now;
      Level(Allow(b, now).0, later) == if earned > b.full then b.full else earned
  {
  }

  /** The decisions are the bucket's own. */
  ghost predicate Decided(b: Bucket, times: seq<Time>, ds: seq<bool>, k: nat)
    requires Follows(times, b) && k < |times| == |ds|
  {
    ds[k] == Allow(After(b, times, k), times[k]).1
  }

  lemma {:induction false} LevelIsFound(b: Bucket, times: seq<Time>, ds: seq<bool>, j: nat)
    requires Follows(times, b) && b.credit == b.full && j < |times| == |ds|
    requires forall k {:trigger Decided(b, times, ds, k)} :: 0 <= k < |times| ==> Decided(b, times, ds, k)
    ensures Level(After(b, times, j), times[j]) == Found(b.full, b.interval, times, ds, j)
  {
    if j > 0 {
      LevelIsFound(b, times, ds, j - 1);
      assert Decided(b, times, ds, j - 1);
      var c, now, later := After(b, times, j - 1), times[j - 1], times[j];
      assert now <= later;
      LevelAfterCall(c, now, later);
      assert After(b, times, j) == Allow(c, now).0;
    }
  }

  /** The level-keeping bucket decides every call exactly as the window policy does. */
  lemma BucketDecidesByWindows(b: Bucket, times: seq<Time>, j: nat)
    requires Follows(times, b) && b.credit == b.full && j < |times|
    ensures Decisions(b, times)[j] <==> Fits(b.full, b.interval, times, Decisions(b, times), j)
  {
    var ds := Decisions(b, times);
    assert forall k :: 0 <= k < |times| ==> Decided(b, times, ds, k);
    LevelIsFound(b, times, ds, j);
    var tight := FoundIsLeastSlack(b.full, b.interval, times, ds, j);
    if Fits(b.full, b.interval, times, ds, j) {
      assert Worth(ds, b.interval, tight, j) + b.interval + times[tight] <= b.full + times[j];
    }
  }

  /** Decisions that fit keep every window within budget, admitted or not at its end. */
  lemma {:induction false} WindowsAreBounded(
      full: nat, interval: nat, times: seq<Time>, ds: seq<bool>, i: nat, j: nat)
    requires i <= j < |times| == |ds| && NonDecreasing(times)
    requires forall k: nat :: k < |ds| && ds[k] ==> Fits(full, interval, times, ds, k)
    ensures Worth(ds, interval, i, j + 1) + times[i] <= full + times[j]
    decreases j
  {
    assert Worth(ds, interval, i, j + 1) == Worth(ds, interval, i, j) + if ds[j] then interval else 0;
    if ds[j] {
      assert Fits(full, interval, times, ds, j);
    } else if i < j {
      WindowsAreBounded(full, interval, times, ds, i, j - 1);
    }
  }

  lemma {:induction false} WorthCounts(ds: seq<bool>, interval: nat, i: nat, j: nat)
    requires i <= j <= |ds|
    ensures Worth(ds, interval, i, j) == Admitted(ds, i, j) * interval
    decreases j
  {
    if i < j {
      WorthCounts(ds, interval, i, j - 1);
    }
  }

  lemma WorthIsBounded(b: Bucket, times: seq<Time>, i: nat, j: nat)
    requires Follows(times, b) && b.credit == b.full && i <= j < |times|
    ensures Worth(Decisions(b, times), b.interval, i, j + 1) + times[i] <= b.full + times[j]
  {
    var ds := Decisions(b, times);
    forall k: nat | k < |ds| && ds[k] ensures Fits(b.full, b.interval, times, ds, k) {
      BucketDecidesByWindows(b, times, k);
    }
    WindowsAreBounded(b.full, b.interval, times, ds, i, j);
  }

  /** Between any two calls, inclusive, a new bucket admits at most
      capacity + elapsed / interval of them. */
  lemma AdmissionsAreBounded(b: Bucket, capacity: nat, times: seq<Time>, i: nat, j: nat, admitted: nat)
    requires b.credit == b.full == capacity * b.interval
    requires Follows(times, b) && i <= j < |times|
    requires admitted == Admitted(Decisions(b, times), i, j + 1)
    ensures admitted * b.interval <= capacity * b.interval + (times[j] - times[i])
  {
    WorthIsBounded(b, times, i, j);
    WorthCounts(Decisions(b, times), b.interval, i, j + 1);
  }

  /** The bucket a limiter starts with: the bound holds of every run of calls to it. */
  lemma NewLimiterIsBounded(
      capacity: nat, interval: nat, start: Time, times: seq<Time>, i: nat, j: nat, admitted: nat)
    requires Follows(times, FullBucket(capacity, interval, start)) && i <= j < |times|
    requires admitted == Admitted(Decisions(FullBucket(capacity, interval, start), times), i, j + 1)
    ensures admitted * interval <= capacity * interval + (times[j] - times[i])
  {
    AdmissionsAreBounded(FullBucket(capacity, interval, start), capacity, times, i, j, admitted);
  }

  /** The level never leaves 0..capacity. */
  lemma {:induction false} LevelStaysInRange(b: Bucket, times: seq<Time>, n: nat)
    requires b.Valid() && Follows(times, b) && n <= |times|
    ensures After(b, times, n).Valid()
  {
    if n > 0 {
      LevelStaysInRange(b, times, n - 1);
    }
  }
}
