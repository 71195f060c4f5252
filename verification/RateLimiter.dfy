/** The durable sliding-window limiter (internal/store/public_auth_limits.go) together
    with the part of the cleanup job that forgets its old events
    (internal/store/public_account_cleanup.go).

    A reservation names several buckets and takes one event in each, or none at all. */
module RateLimiter {
  import opened Common

  /** A row of public_auth_events; the whole row is its primary key. */
  datatype Event = Event(bucket: Id, at: Time, id: Id)
  datatype Limit = Limit(bucket: Id, window: nat, max: nat)

  const KEPT: nat := 48 * HOUR

  // ------------------------------------------------------------- specification

  predicate WellFormed(limit: Limit) {
    0 < limit.window <= DAY && 1 <= limit.max <= 10000
  }

  predicate DistinctBuckets(limits: seq<Limit>) {
    forall i, j :: 0 <= i < j < |limits| ==> limits[i].bucket != limits[j].bucket
  }

  predicate ValidLimits(limits: seq<Limit>) {
    && 1 <= |limits| <= 8
    && DistinctBuckets(limits)
    && forall l :: l in limits ==> WellFormed(l)
  }

  /** The bucket's events at or after `from`, the rows the limiter counts. */
  function Recent(events: set<Event>, bucket: Id, from: int): set<Event> {
    set e | e in events && e.bucket == bucket && e.at >= from
  }

  predicate Blocked(events: set<Event>, limit: Limit, now: Time) {
    |Recent(events, limit.bucket, now - limit.window)| >= limit.max
  }

  /** The latest instant at which the blocked limit still counts its oldest event. */
  ghost predicate FreesAfter(events: set<Event>, limit: Limit, now: Time, t: Time) {
    var recent := Recent(events, limit.bucket, now - limit.window);
    && (exists e :: e in recent && t == e.at + limit.window)
    && (forall e :: e in recent ==> t <= e.at + limit.window)
  }

  /** The retry time reported for a refused reservation: the latest of its blocked limits'. */
  ghost predicate IsRetryAt(events: set<Event>, limits: seq<Limit>, now: Time, retryAt: Time) {
    && (exists l, t: Time :: l in limits && Blocked(events, l, now) && FreesAfter(events, l, now, t) && t == retryAt)
    && (forall l, t: Time :: l in limits && Blocked(events, l, now) && FreesAfter(events, l, now, t) ==> t <= retryAt)
  }

  function Reservations(now: Time, id: Id, limits: seq<Limit>): set<Event> {
    set l | l in limits :: Event(l.bucket, now, id)
  }

  /** All or nothing: either every limit has room and gets one event, or nothing changes. */
  ghost predicate Consumed(
      before: set<Event>, after: set<Event>, now: Time, id: Id, limits: seq<Limit>, r: Result<()>) {
    if !ValidLimits(limits) then
      after == before && r == Err(Invalid)
    else if exists l :: l in limits && Blocked(before, l, now) then
      after == before && r.Err? && r.error.Limited? && IsRetryAt(before, limits, now, r.error.retryAt)
    else if Reservations(now, id, limits) !! before then
      after == before + Reservations(now, id, limits) && r == Ok(())
    else
      after == before && r == Err(Conflict)
  }

  // ------------------------------------------- the same outcome as a function

  predicate Commits(events: set<Event>, now: Time, id: Id, limits: seq<Limit>) {
    && ValidLimits(limits)
    && (forall l :: l in limits ==> !Blocked(events, l, now))
    && Reservations(now, id, limits) !! events
  }

  ghost function RetryTime(events: set<Event>, limits: seq<Limit>, now: Time): Time {
    if exists r: Time :: IsRetryAt(events, limits, now, r) then
      var r: Time :| IsRetryAt(events, limits, now, r); r
    else 0
  }

  /** The table after a reservation, or why it was refused. */
  ghost function Reserved(events: set<Event>, now: Time, id: Id, limits: seq<Limit>): Result<set<Event>> {
    if Commits(events, now, id, limits) then Ok(events + Reservations(now, id, limits))
    else if !ValidLimits(limits) then Err(Invalid)
    else if exists l :: l in limits && Blocked(events, l, now) then Err(Limited(RetryTime(events, limits, now)))
    else Err(Conflict)
  }

  lemma ConsumedIsReserved(before: set<Event>, after: set<Event>, now: Time, id: Id, limits: seq<Limit>, r: Result<()>)
    requires Consumed(before, after, now, id, limits, r)
    ensures var spec := Reserved(before, now, id, limits);
      if spec.Ok? then r == Ok(()) && after == spec.value else r == Err(spec.error) && after == before
  {
    if r.Err? && r.error.Limited? {
      RetryTimeIsUnique(before, limits, now, r.error.retryAt);
    }
  }

  lemma RetryTimeIsUnique(events: set<Event>, limits: seq<Limit>, now: Time, at: Time)
    requires IsRetryAt(events, limits, now, at)
    ensures RetryTime(events, limits, now) == at
  {
    var other := RetryTime(events, limits, now);
    assert IsRetryAt(events, limits, now, other);
  }

  // -------------------------------------------------------- the transactions

  predicate Ordered(limits: seq<Limit>) {
    forall i, j :: 0 <= i < j < |limits| ==> limits[i].bucket <= limits[j].bucket
  }

  method InsertByBucket(sorted: seq<Limit>, l: Limit) returns (r: seq<Limit>)
    requires Ordered(sorted)
    ensures Ordered(r) && |r| == |sorted| + 1
    ensures forall m :: m in r <==> m == l || m in sorted
    ensures DistinctBuckets(r) <==> DistinctBuckets(sorted) && forall m :: m in sorted ==> m.bucket != l.bucket
  {
    var at := |sorted|;
    while at > 0 && sorted[at - 1].bucket > l.bucket
      invariant 0 <= at <= |sorted|
      invariant forall k :: at <= k < |sorted| ==> l.bucket < sorted[k].bucket
    {
      at := at - 1;
    }
    DistinctWith(sorted, at, l);
    r := sorted[..at] + [l] + sorted[at..];
    OrderedWith(sorted, at, l, r);
  }

  lemma OrderedWith(sorted: seq<Limit>, at: nat, l: Limit, r: seq<Limit>)
    requires Ordered(sorted) && at <= |sorted| && r == sorted[..at] + [l] + sorted[at..]
    requires forall k :: at <= k < |sorted| ==> l.bucket < sorted[k].bucket
    requires at > 0 ==> sorted[at - 1].bucket <= l.bucket
    ensures Ordered(r)
  {
  }

  /** The clone the limiter sorts by bucket before it looks for duplicates. */
  method SortByBucket(limits: seq<Limit>) returns (sorted: seq<Limit>)
    ensures Ordered(sorted) && |sorted| == |limits|
    ensures forall l :: l in sorted <==> l in limits
    ensures DistinctBuckets(sorted) <==> DistinctBuckets(limits)
  {
    sorted := [];
    for n := 0 to |limits|
      invariant Ordered(sorted) && |sorted| == n
      invariant forall l :: l in sorted <==> l in limits[..n]
      invariant DistinctBuckets(sorted) <==> DistinctBuckets(limits[..n])
    {
      DistinctWith(limits[..n], n, limits[n]);
      assert limits[..n + 1] == limits[..n] + [limits[n]] == limits[..n][..n] + [limits[n]] + limits[..n][n..];
      sorted := InsertByBucket(sorted, limits[n]);
    }
    assert limits[..|limits|] == limits;
  }

  /** MIN(created_at) over the counted rows. */
  method Earliest(rows: set<Event>) returns (first: Time)
    requires rows != {}
    ensures exists e :: e in rows && first == e.at
    ensures forall e :: e in rows ==> first <= e.at
  {
    var pick :| pick in rows;
    first := pick.at;
    var rest := rows - {pick};
    while rest != {}
      invariant rest <= rows
      invariant exists e :: e in rows && first == e.at
      invariant forall e :: e in rows - rest ==> first <= e.at
      decreases rest
    {
      var e :| e in rest;
      if e.at < first {
        first := e.at;
      }
      rest := rest - {e};
    }
  }

  class AuthEvents {
    var events: set<Event>

    constructor (rows: set<Event>)
      ensures events == rows
    {
      events := rows;
    }

    method Consume(now: Time, id: Id, given: seq<Limit>) returns (r: Result<()>)
      modifies this
      ensures Consumed(old(events), events, now, id, given, r)
    {
      if |given| < 1 || |given| > 8 {
        return Err(Invalid);
      }
      var limits := SortByBucket(given);
      for i := 0 to |limits|
        invariant forall k :: 0 <= k < i ==> WellFormed(limits[k])
        invariant forall j, k :: 0 <= j < k < i ==> limits[j].bucket != limits[k].bucket
      {
        if !WellFormed(limits[i]) || (i > 0 && limits[i - 1].bucket == limits[i].bucket) {
          return Err(Invalid);
        }
      }
      var retryAt := BlockedUntil(now, limits);
      if retryAt > 0 {
        SameRetryAt(events, given, limits, now, retryAt);
        return Err(Limited(retryAt));
      }
      assert Reservations(now, id, limits) == Reservations(now, id, given);
      r := InsertAll(now, id, limits);
    }

    /** The first loop: zero while no limit is blocked, then the latest retry time. */
    method BlockedUntil(now: Time, limits: seq<Limit>) returns (retryAt: Time)
      requires forall l :: l in limits ==> WellFormed(l)
      ensures retryAt == 0 ==> forall l :: l in limits ==> !Blocked(events, l, now)
      ensures retryAt > 0 ==> IsRetryAt(events, limits, now, retryAt)
    {
      retryAt := 0;
      for i := 0 to |limits|
        invariant retryAt == 0 ==> forall l :: l in limits[..i] ==> !Blocked(events, l, now)
        invariant retryAt > 0 ==> IsRetryAt(events, limits[..i], now, retryAt)
      {
        var limit := limits[i];
        assert limit in limits;
        assert limits[..i + 1] == limits[..i] + [limit];
        var counted := Recent(events, limit.bucket, now - limit.window);
        if |counted| >= limit.max {
          var first := Earliest(counted);
          LatestRetry(events, limits, now, i, retryAt, first + limit.window);
          if first + limit.window > retryAt {
            retryAt := first + limit.window;
          }
        } else {
          SkipLimit(events, limits, now, i, retryAt);
        }
      }
      assert limits[..|limits|] == limits;
    }

    /** The second loop: one INSERT per bucket, undone together if any key exists. */
    method InsertAll(now: Time, id: Id, limits: seq<Limit>) returns (r: Result<()>)
      requires DistinctBuckets(limits)
      modifies this
      ensures Reservations(now, id, limits) !! old(events) ==>
                r == Ok(()) && events == old(events) + Reservations(now, id, limits)
      ensures !(Reservations(now, id, limits) !! old(events)) ==>
                r == Err(Conflict) && events == old(events)
    {
      var before := events;
      for i := 0 to |limits|
        invariant events == before + Reservations(now, id, limits[..i])
        invariant Reservations(now, id, limits[..i]) !! before
      {
        var row := Event(limits[i].bucket, now, id);
        assert limits[..i + 1] == limits[..i] + [limits[i]];
        if row in events {
          assert row in before && row in Reservations(now, id, limits);
          events := before;
          return Err(Conflict);
        }
        events := events + {row};
      }
      assert limits[..|limits|] == limits;
      return Ok(());
    }

    /** The cleanup's DELETE: up to `limit` rows older than 48 hours, the oldest first. */
    method Forget(now: Time, limit: nat) returns (deleted: set<Event>)
      modifies this
      ensures OldestFirst(deleted, Stale(old(events), now), limit)
      ensures events == old(events) - deleted
    {
      var stale := Stale(events, now);
      deleted := {};
      while |deleted| < limit && stale - deleted != {}
        invariant events == old(events) && deleted <= stale
        invariant |deleted| <= limit
        invariant forall d, e :: d in deleted && e in stale - deleted ==> Before(d, e)
        decreases stale - deleted
      {
        var next := OldestEvent(stale - deleted);
        deleted := deleted + {next};
      }
      events := events - deleted;
    }
  }

  function Stale(events: set<Event>, now: Time): set<Event> {
    set e | e in events && e.at + KEPT < now
  }

  /** What the cleanup may forget: exactly the events older than 48 hours. */
  lemma StaleIffOld(events: set<Event>, now: Time, e: Event)
    ensures e in Stale(events, now) <==> e in events && e.at + 48 * HOUR < now
  {
  }

  /** ORDER BY created_at, bucket, event_id. */
  predicate Before(a: Event, b: Event) {
    a.at < b.at || (a.at == b.at && (a.bucket < b.bucket || (a.bucket == b.bucket && a.id < b.id)))
  }

  ghost predicate OldestFirst(taken: set<Event>, rows: set<Event>, limit: nat) {
    && taken <= rows
    && |taken| <= limit
    && (|taken| < limit ==> taken == rows)
    && forall d, e :: d in taken && e in rows - taken ==> Before(d, e)
  }

  method OldestEvent(rows: set<Event>) returns (first: Event)
    requires rows != {}
    ensures first in rows
    ensures forall e :: e in rows ==> e == first || Before(first, e)
  {
    first :| first in rows;
    var rest := rows - {first};
    while rest != {}
      invariant first in rows && rest <= rows
      invariant forall e :: e in rows - rest ==> e == first || Before(first, e)
      decreases rest
    {
      var e :| e in rest;
      EventsAreOrdered(e, first, rows);
      if Before(e, first) {
        first := e;
      }
      rest := rest - {e};
    }
  }

  lemma DistinctWith(limits: seq<Limit>, at: nat, l: Limit)
    requires at <= |limits|
    ensures DistinctBuckets(limits[..at] + [l] + limits[at..]) <==>
            DistinctBuckets(limits) && forall m :: m in limits ==> m.bucket != l.bucket
    ensures forall m :: m in limits[..at] + [l] + limits[at..] <==> m == l || m in limits
  {
    var wider := limits[..at] + [l] + limits[at..];
    assert wider[at] == l;
    assert forall k :: 0 <= k < at ==> wider[k] == limits[k];
    assert forall k :: at <= k < |limits| ==> wider[k + 1] == limits[k];
    assert forall k :: at < k < |wider| ==> wider[k] == limits[k - 1];
  }

  lemma EventsAreOrdered(a: Event, b: Event, rows: set<Event>)
    ensures a == b || Before(a, b) || Before(b, a)
    ensures Before(a, b) ==> forall c :: c in rows && Before(b, c) ==> Before(a, c)
  {
    assert a == Event(a.bucket, a.at, a.id) && b == Event(b.bucket, b.at, b.id);
  }

  lemma LatestRetry(events: set<Event>, limits: seq<Limit>, now: Time, i: nat, retryAt: Time, next: Time)
    requires i < |limits| && limits[i].window > 0
    requires Blocked(events, limits[i], now) && FreesAfter(events, limits[i], now, next)
    requires retryAt == 0 ==> forall l :: l in limits[..i] ==> !Blocked(events, l, now)
    requires retryAt > 0 ==> IsRetryAt(events, limits[..i], now, retryAt)
    ensures IsRetryAt(events, limits[..i + 1], now, if next > retryAt then next else retryAt)
  {
    var upTo := limits[..i + 1];
    assert upTo == limits[..i] + [limits[i]];
    assert limits[i] in upTo;
    if next <= retryAt {
      var l, t: Time :| l in limits[..i] && Blocked(events, l, now) && FreesAfter(events, l, now, t) && t == retryAt;
      assert l in upTo;
    }
    forall l, t: Time | l in upTo && Blocked(events, l, now) && FreesAfter(events, l, now, t)
      ensures t <= if next > retryAt then next else retryAt
    {
      if l != limits[i] {
        assert l in limits[..i];
      }
    }
  }

  lemma SkipLimit(events: set<Event>, limits: seq<Limit>, now: Time, i: nat, retryAt: Time)
    requires i < |limits| && !Blocked(events, limits[i], now)
    ensures IsRetryAt(events, limits[..i], now, retryAt) ==> IsRetryAt(events, limits[..i + 1], now, retryAt)
  {
    assert limits[..i + 1] == limits[..i] + [limits[i]];
    if IsRetryAt(events, limits[..i], now, retryAt) {
      var l, t: Time :| l in limits[..i] && Blocked(events, l, now) && FreesAfter(events, l, now, t) && t == retryAt;
      assert l in limits[..i + 1];
    }
  }

  lemma SameRetryAt(events: set<Event>, given: seq<Limit>, sorted: seq<Limit>, now: Time, retryAt: Time)
    requires forall l :: l in given <==> l in sorted
    requires IsRetryAt(events, sorted, now, retryAt)
    ensures IsRetryAt(events, given, now, retryAt)
    ensures exists l :: l in given && Blocked(events, l, now)
  {
  }

  // ---------------------------------------------------------------- whole runs

  datatype Op =
    | Reserve(now: Time, id: Id, limits: seq<Limit>)
    | Forget(now: Time, limit: nat, deleted: set<Event>)

  /** The table, everything ever committed to it, and the latest clock reading. */
  datatype Ledger = Ledger(events: set<Event>, history: set<Event>, clock: Time)

  const EMPTY: Ledger := Ledger({}, {}, 0)

  /** Every bucket keeps one limit for the whole run. */
  predicate UsesPolicy(op: Op, policy: map<Id, Limit>) {
    op.Reserve? ==>
      forall l :: l in op.limits ==> l.bucket in policy && policy[l.bucket] == l
  }

  ghost predicate Possible(g: Ledger, op: Op) {
    && g.clock <= op.now
    && (op.Forget? ==> OldestFirst(op.deleted, Stale(g.events, op.now), op.limit))
  }

  function Next(g: Ledger, op: Op): Ledger {
    match op
    case Reserve(now, id, limits) =>
      if Commits(g.events, now, id, limits)
      then Ledger(g.events + Reservations(now, id, limits), g.history + Reservations(now, id, limits), now)
      else g.(clock := now)
    case Forget(now, _, deleted) => g.(events := g.events - deleted, clock := now)
  }

  function Run(ops: seq<Op>): Ledger {
    if ops == [] then EMPTY else Next(Run(ops[..|ops| - 1]), ops[|ops| - 1])
  }

  ghost predicate Legal(ops: seq<Op>, policy: map<Id, Limit>) {
    ops == [] ||
    (var last := ops[|ops| - 1];
     && Legal(ops[..|ops| - 1], policy)
     && UsesPolicy(last, policy)
     && Possible(Run(ops[..|ops| - 1]), last))
  }

  /** The committed reservations of a bucket in the closed interval from..from+window. */
  function Taken(history: set<Event>, l: Limit, from: int): set<Event> {
    set e | e in history && e.bucket == l.bucket && from <= e.at <= from + l.window
  }

  ghost predicate Bounded(history: set<Event>, policy: map<Id, Limit>) {
    forall b, from: int :: b in policy ==> |Taken(history, policy[b], from)| <= policy[b].max
  }

  /** What the table still knows of the history. */
  ghost predicate Remembers(g: Ledger) {
    && g.events <= g.history
    && (forall e :: e in g.history ==> e.at <= g.clock)
    && (forall e :: e in g.history && e.at + KEPT >= g.clock ==> e in g.events)
  }

  lemma StaysRemembered(g: Ledger, op: Op)
    requires Remembers(g) && Possible(g, op)
    ensures Remembers(Next(g, op))
  {
  }

  /** Before a commit, every closed interval that contains `now` has a free place. */
  lemma RoomAtCommit(g: Ledger, op: Op, l: Limit, from: int)
    requires Remembers(g) && Possible(g, op) && op.Reserve?
    requires Commits(g.events, op.now, op.id, op.limits)
    requires l in op.limits && from <= op.now <= from + l.window
    ensures |Taken(g.history, l, from)| < l.max
  {
    var counted := Recent(g.events, l.bucket, op.now - l.window);
    assert WellFormed(l);
    assert Taken(g.history, l, from) <= counted;
    Smaller(Taken(g.history, l, from), counted);
  }

  lemma Smaller<T>(a: set<T>, b: set<T>)
    requires a <= b
    ensures |a| <= |b|
  {
    assert b == a + (b - a);
  }

  lemma StaysBounded(g: Ledger, op: Op, policy: map<Id, Limit>)
    requires forall b :: b in policy ==> policy[b].bucket == b
    requires Remembers(g) && Bounded(g.history, policy) && Possible(g, op) && UsesPolicy(op, policy)
    ensures Bounded(Next(g, op).history, policy)
  {
    if op.Reserve? && Commits(g.events, op.now, op.id, op.limits) {
      var after := Next(g, op).history;
      forall b, from: int | b in policy ensures |Taken(after, policy[b], from)| <= policy[b].max {
        var l, row := policy[b], Event(b, op.now, op.id);
        if l in op.limits && from <= op.now <= from + l.window {
          RoomAtCommit(g, op, l, from);
          assert Taken(after, l, from) == Taken(g.history, l, from) + {row};
        } else {
          assert Taken(after, l, from) == Taken(g.history, l, from);
        }
      }
    }
  }

  /** Over every run with a clock that never steps back, no closed interval as long as a
      bucket's window holds more committed reservations than the bucket's maximum, counting
      also those the cleanup has since deleted. */
  lemma {:induction false} WindowsAreNeverOverdrawn(ops: seq<Op>, policy: map<Id, Limit>)
    requires Legal(ops, policy)
    requires forall b :: b in policy ==> policy[b].bucket == b
    ensures Remembers(Run(ops)) && Bounded(Run(ops).history, policy)
  {
    if ops == [] {
      forall b, from: int | b in policy ensures |Taken({}, policy[b], from)| <= policy[b].max {
        assert Taken({}, policy[b], from) == {};
      }
    } else {
      var before, last := ops[..|ops| - 1], ops[|ops| - 1];
      WindowsAreNeverOverdrawn(before, policy);
      StaysRemembered(Run(before), last);
      StaysBounded(Run(before), last, policy);
    }
  }

  /** A commit is counted once in each of its buckets: no row of the history is reused. */
  lemma CommitsAreCounted(g: Ledger, op: Op)
    requires Remembers(g) && Possible(g, op) && op.Reserve?
    requires Commits(g.events, op.now, op.id, op.limits)
    ensures |Next(g, op).history| == |g.history| + |op.limits|
  {
    var rows := Reservations(op.now, op.id, op.limits);
    assert rows !! g.history;
    RowsPerLimit(op.now, op.id, op.limits);
  }

  lemma {:induction false} RowsPerLimit(now: Time, id: Id, limits: seq<Limit>)
    requires DistinctBuckets(limits)
    ensures |Reservations(now, id, limits)| == |limits|
  {
    if limits != [] {
      var l := limits[|limits| - 1];
      var front := limits[..|limits| - 1];
      assert limits == front + [l];
      RowsPerLimit(now, id, front);
      assert Reservations(now, id, limits) == Reservations(now, id, front) + {Event(l.bucket, now, id)};
    }
  }

  // ------------------------------------------------------- the retry time is exact

  /** A refused caller that retries at `t` sees the events it saw before, less any that the
      cleanup may have deleted meanwhile. */
  ghost predicate Undisturbed(before: set<Event>, now: Time, after: set<Event>, t: Time) {
    && now <= t
    && after <= before
    && (forall e :: e in before && e.at + KEPT >= t ==> e in after)
    && (forall e :: e in before ==> e.at <= now)
  }

  /** Every retry up to and including the reported time is refused again. */
  lemma RetryIsRefusedUntil(
      events: set<Event>, limits: seq<Limit>, now: Time, retryAt: Time, later: set<Event>, t: Time)
    requires ValidLimits(limits) && IsRetryAt(events, limits, now, retryAt)
    requires Undisturbed(events, now, later, t) && t <= retryAt
    ensures exists l :: l in limits && Blocked(later, l, t)
  {
    var l, u: Time :| l in limits && Blocked(events, l, now) && FreesAfter(events, l, now, u) && u == retryAt;
    var seen, still := Recent(events, l.bucket, now - l.window), Recent(later, l.bucket, t - l.window);
    assert WellFormed(l);
    assert seen <= still;
    Smaller(seen, still);
  }

  /** One microsecond after it, every limit has room and the whole reservation commits. */
  lemma RetrySucceedsAfter(events: set<Event>, limits: seq<Limit>, now: Time, retryAt: Time, later: set<Event>, id: Id)
    requires ValidLimits(limits) && IsRetryAt(events, limits, now, retryAt)
    requires Undisturbed(events, now, later, retryAt + 1)
    requires forall l :: l in limits ==> |Recent(events, l.bucket, now - l.window)| <= l.max
    ensures Commits(later, retryAt + 1, id, limits)
  {
    forall l | l in limits ensures !Blocked(later, l, retryAt + 1) {
      var seen := Recent(events, l.bucket, now - l.window);
      var still := Recent(later, l.bucket, retryAt + 1 - l.window);
      assert still <= seen;
      if Blocked(events, l, now) {
        assert WellFormed(l) && seen != {};
        var first := EarliestRow(seen);
        assert FreesAfter(events, l, now, first.at + l.window);
        assert first !in still;
        Smaller(still, seen - {first});
      } else {
        Smaller(still, seen);
      }
    }
  }

  lemma EarliestRow(rows: set<Event>) returns (first: Event)
    requires rows != {}
    ensures first in rows && forall e :: e in rows ==> first.at <= e.at
  {
    first :| first in rows;
    if rows != {first} {
      var other := EarliestRow(rows - {first});
      if other.at < first.at {
        first := other;
      }
    }
  }

  /** In a reachable state the extra premise of the previous lemma always holds. */
  lemma ReachableStatesAreNotOverdrawn(ops: seq<Op>, policy: map<Id, Limit>, l: Limit, now: Time)
    requires Legal(ops, policy) && (forall b :: b in policy ==> policy[b].bucket == b)
    requires l.bucket in policy && policy[l.bucket] == l && Run(ops).clock <= now
    ensures |Recent(Run(ops).events, l.bucket, now - l.window)| <= l.max
  {
    WindowsAreNeverOverdrawn(ops, policy);
    var g := Run(ops);
    assert Recent(g.events, l.bucket, now - l.window) <= Taken(g.history, policy[l.bucket], now - l.window);
    Smaller(Recent(g.events, l.bucket, now - l.window), Taken(g.history, policy[l.bucket], now - l.window));
  }

  /** Whatever the limits were before, the retry right after the reported time commits if and
      only if no limit still counts its maximum then, which the refused caller's own events
      decide. */
  lemma RetrySucceedsIff(
      events: set<Event>, limits: seq<Limit>, now: Time, retryAt: Time, later: set<Event>, id: Id)
    requires ValidLimits(limits) && IsRetryAt(events, limits, now, retryAt)
    requires Undisturbed(events, now, later, retryAt + 1)
    ensures Commits(later, retryAt + 1, id, limits) <==>
            forall l :: l in limits ==> |Recent(events, l.bucket, retryAt + 1 - l.window)| < l.max
  {
    forall l | l in limits
      ensures Recent(later, l.bucket, retryAt + 1 - l.window) == Recent(events, l.bucket, retryAt + 1 - l.window)
    {
      assert WellFormed(l);
    }
  }

  /** Two reservations under a maximum of two, in five microseconds. */
  const BEFORE_LOWERING: seq<Op> := [Reserve(10, 1, [Limit(7, 5, 2)]), Reserve(12, 2, [Limit(7, 5, 2)])]

  /** Without a fixed limit the retry time is only a lower bound: after that run the maximum
      is lowered to one, and a caller refused at 13 that waits past its retry time of 15 is
      refused once more. */
  lemma LoweredLimitRetriesTooEarly()
    ensures Legal(BEFORE_LOWERING, map[7 := Limit(7, 5, 2)])
    ensures var events, lowered := Run(BEFORE_LOWERING).events, [Limit(7, 5, 1)];
      && events == {Event(7, 10, 1), Event(7, 12, 2)}
      && ValidLimits(lowered) && IsRetryAt(events, lowered, 13, 15)
      && !Commits(events, 16, 3, lowered)
  {
    LoweringRun();
    var events, lowered := {Event(7, 10, 1), Event(7, 12, 2)}, [Limit(7, 5, 1)];
    assert Recent(events, 7, 8) == events;
    assert FreesAfter(events, lowered[0], 13, 15) by {
      assert Event(7, 10, 1) in Recent(events, 7, 8);
    }
    assert Recent(events, 7, 11) == {Event(7, 12, 2)};
    assert lowered[0] in lowered && Blocked(events, lowered[0], 16);
  }

  lemma LoweringRun()
    ensures Legal(BEFORE_LOWERING, map[7 := Limit(7, 5, 2)])
    ensures Run(BEFORE_LOWERING).events == {Event(7, 10, 1), Event(7, 12, 2)}
  {
    var limits := [Limit(7, 5, 2)];
    var first, second := Reserve(10, 1, limits), Reserve(12, 2, limits);
    assert limits[0] in limits;
    assert Reservations(10, 1, limits) == {Event(7, 10, 1)} && Reservations(12, 2, limits) == {Event(7, 12, 2)};
    assert Recent({}, 7, 5) == {} && Recent({Event(7, 10, 1)}, 7, 7) == {Event(7, 10, 1)};
    assert Next(EMPTY, first) == Ledger({Event(7, 10, 1)}, {Event(7, 10, 1)}, 10);
    assert BEFORE_LOWERING[..1] == [first] && [first][..0] == [];
    assert Run([first]) == Next(Run([]), first);
    var policy := map[7 := Limit(7, 5, 2)];
    assert UsesPolicy(first, policy) && UsesPolicy(second, policy);
    assert Legal([], policy) && Possible(Run([]), first);
    assert Legal([first], policy);
    assert Run(BEFORE_LOWERING) == Next(Run([first]), second);
  }

  // ------------------------------------------------------------ retries in a run

  /** Only the cleanup runs between the refusal and the retry. */
  ghost predicate OnlyForgets(more: seq<Op>, now: Time, until: Time) {
    forall op :: op in more ==> op.Forget? && now <= op.now <= until
  }

  lemma {:induction false} ForgettingIsUndisturbed(
      ops: seq<Op>, more: seq<Op>, policy: map<Id, Limit>, now: Time, until: Time)
    requires Legal(ops + more, policy) && Legal(ops, policy) && OnlyForgets(more, now, until)
    requires Remembers(Run(ops)) && Run(ops).clock <= now <= until
    ensures Undisturbed(Run(ops).events, now, Run(ops + more).events, until)
    decreases |more|
  {
    if more == [] {
      assert ops + more == ops;
    } else {
      var front, last := more[..|more| - 1], more[|more| - 1];
      assert (ops + more)[..|ops + more| - 1] == ops + front && last in more;
      ForgettingIsUndisturbed(ops, front, policy, now, until);
    }
  }

  /** In any run with one limit per bucket, a caller refused after `ops` that retries after
      nothing but cleanup is refused at every moment up to its retry time, and commits in
      all buckets at once in the microsecond after it. */
  lemma RetryTimeIsExact(
      ops: seq<Op>, more: seq<Op>, policy: map<Id, Limit>, limits: seq<Limit>, now: Time, retryAt: Time, t: Time,
          id: Id)
    requires Legal(ops + more, policy) && Legal(ops, policy) && forall b :: b in policy ==> policy[b].bucket == b
    requires ValidLimits(limits) && UsesPolicy(Reserve(now, id, limits), policy)
    requires Run(ops).clock <= now <= t && OnlyForgets(more, now, t)
    requires IsRetryAt(Run(ops).events, limits, now, retryAt)
    ensures t <= retryAt ==> !Commits(Run(ops + more).events, t, id, limits)
    ensures t == retryAt + 1 ==> Commits(Run(ops + more).events, t, id, limits)
  {
    WindowsAreNeverOverdrawn(ops, policy);
    ForgettingIsUndisturbed(ops, more, policy, now, t);
    RoomInEachLimit(ops, policy, limits, now, id);
    RetryIsExact(Run(ops).events, Run(ops + more).events, limits, now, retryAt, t, id);
  }

  lemma RoomInEachLimit(ops: seq<Op>, policy: map<Id, Limit>, limits: seq<Limit>, now: Time, id: Id)
    requires Legal(ops, policy) && Run(ops).clock <= now && forall b :: b in policy ==> policy[b].bucket == b
    requires UsesPolicy(Reserve(now, id, limits), policy)
    ensures forall l :: l in limits ==> |Recent(Run(ops).events, l.bucket, now - l.window)| <= l.max
  {
    forall l | l in limits ensures |Recent(Run(ops).events, l.bucket, now - l.window)| <= l.max {
      ReachableStatesAreNotOverdrawn(ops, policy, l, now);
    }
  }

  lemma RetryIsExact(
      events: set<Event>, later: set<Event>, limits: seq<Limit>, now: Time, retryAt: Time, t: Time, id: Id)
    requires ValidLimits(limits) && IsRetryAt(events, limits, now, retryAt) && Undisturbed(events, now, later, t)
    requires forall l :: l in limits ==> |Recent(events, l.bucket, now - l.window)| <= l.max
    ensures t <= retryAt ==> !Commits(later, t, id, limits)
    ensures t == retryAt + 1 ==> Commits(later, t, id, limits)
  {
    if t <= retryAt {
      RetryIsRefusedUntil(events, limits, now, retryAt, later, t);
    } else if t == retryAt + 1 {
      RetrySucceedsAfter(events, limits, now, retryAt, later, id);
    }
  }
}
