/** What each transaction of the deletion saga promises its callers: leases that hold for
    their time, retries that wait and are counted, parking at the maximum, idempotent
    creation, and status updates that store what they were given. */
module SagaLaws {
  import opened Common
  import opened Saga

  // ------------------------------------------------------------------------- leases

  /** A claimed event can be claimed again only after five minutes. */
  lemma ClaimedEventIsLeased(e: Event, now: Time, later: Time)
    ensures Claimable(ClaimEvent(e, now), later) <==> later > now + 5 * MINUTE
  {
  }

  /** So can a claimed erasure step; each claim counts as an attempt. */
  lemma ClaimedStepIsLeased(s: Step, now: Time, later: Time)
    requires s.about.None?
    ensures ErasureClaimable(ClaimStep(s, now), later) <==> later > now + 5 * MINUTE
    ensures ClaimStep(s, now).attempts == s.attempts + 1 && ClaimStep(s, now).version == s.version + 1
  {
  }

  /** A batch takes exactly the selected events whose request is open, or that have none. */
  lemma BatchTakesIff(t: Tables, now: Time, rows: set<Id>, t': Tables, e: Id)
    requires ClaimOutbox(t, now, rows) == Ok(t') && e in t.events
    ensures e in t'.events
    ensures t'.events[e] ==
      if e in rows &&
          (t.events[e].request.None? || t.requests[t.events[e].request.value].status in {Requested, Underway})
      then t.events[e].(status := Processing, lockedAt := Some(now)) else t.events[e]
  {
  }

  /** And an erasure claim exactly the selected steps whose request is open and whose metric
      steps have all finished. */
  lemma ErasureClaimTakesIff(t: Tables, now: Time, rows: set<Id>, t': Tables, jobs: set<Job>, s: Id)
    requires ClaimErasures(t, now, rows) == Ok((t', jobs)) && s in t.steps
    ensures s in t'.steps
    ensures (exists j :: j in jobs && j.step == s) <==>
            && s in rows && t.requests[t.steps[s].request].status in {Requested, Underway}
            && (forall m :: m in t.steps && t.steps[m].request == t.steps[s].request && t.steps[m].about.Some? ==>
                  t.steps[m].status == Finished)
    ensures t'.steps[s] != t.steps[s] <==> exists j :: j in jobs && j.step == s
  {
    if s in ErasableSteps(t, rows) {
      assert JobFor(t, s) in jobs;
    }
  }

  // ------------------------------------------------------------------------ retries

  /** A committed retry counts one attempt; below the maximum the event can be claimed from
      the given time on and not before, at the maximum never again. */
  lemma RetryWaits(t: Tables, id: Id, at: Time, max: nat, t': Tables, now: Time)
    requires RetryOutbox(t, id, at, max) == Ok(t')
    ensures id in t.events && t.events[id].status == Processing && id in t'.events
    ensures t' == t.(events := t.events[id := t'.events[id]])
    ensures t'.events[id].attempts == t.events[id].attempts + 1 && t'.events[id].polls == t.events[id].polls
    ensures Claimable(t'.events[id], now) <==> t.events[id].attempts + 1 < max && at <= now
  {
  }

  /** A committed reschedule counts one poll, and the event can be claimed from the given time
      on and not before. */
  lemma RescheduleWaits(t: Tables, id: Id, at: Time, t': Tables, now: Time)
    requires RescheduleOutbox(t, id, at) == Ok(t')
    ensures id in t.events && t.events[id].status == Processing && id in t'.events
    ensures t' == t.(events := t.events[id := t'.events[id]])
    ensures t'.events[id].polls == t.events[id].polls + 1 && t'.events[id].attempts == t.events[id].attempts
    ensures Claimable(t'.events[id], now) <==> at <= now
  {
  }

  /** A committed retry of an erasure keeps the count of claims; below the maximum the step
      can be claimed from the given time on and not before, at the maximum never again. */
  lemma ErasureRetryWaits(t: Tables, job: Job, at: Time, max: nat, t': Tables, now: Time)
    requires RetryErasure(t, job, at, max) == Ok(t') && job.step in t.steps && t.steps[job.step].about.None?
    ensures t.steps[job.step].status == Processing && job.step in t'.steps
    ensures t' == t.(steps := t.steps[job.step := t'.steps[job.step]])
    ensures t'.steps[job.step].attempts == t.steps[job.step].attempts
    ensures ErasureClaimable(t'.steps[job.step], now) <==> t.steps[job.step].attempts < max && at <= now
  {
  }

  /** These three commit exactly for a claimed event or step. */
  lemma RetryCommitsIff(t: Tables, id: Id, job: Job, at: Time, max: nat)
    ensures RetryOutbox(t, id, at, max).Ok? <==> id in t.events && t.events[id].status == Processing
    ensures RescheduleOutbox(t, id, at).Ok? <==> id in t.events && t.events[id].status == Processing
    ensures RetryErasure(t, job, at, max).Ok? <==> job.step in t.steps && t.steps[job.step].status == Processing
  {
  }

  /** In a sound state a delivery is recorded exactly for a claimed event and a completed
      receipt that names it. */
  lemma DeliveryIsRecordedIff(h: Trace, id: Id, receipt: Receipt)
    requires Sound(h)
    ensures MarkDelivered(h.t, id, receipt).Ok? <==>
            receipt.names == id && receipt.completed && id in h.t.events && h.t.events[id].status == Processing
  {
    if id in h.t.events {
      assert EventRow(h, id);
    }
  }

  // ------------------------------------------------------------- counts over whole runs

  /** How often the event's retry, and its reschedule, has committed. */
  ghost function Retries(ops: seq<Op>, e: Id): nat
    requires Legal(ops)
    decreases |ops|
  {
    if ops == [] then 0 else
      var before, last := ops[..|ops| - 1], ops[|ops| - 1];
      Retries(before, e)
      + (if last.OpRetry? && last.id == e && RetryOutbox(Run(before).t, e, last.at, last.max).Ok? then 1 else 0)
  }

  ghost function Reschedules(ops: seq<Op>, e: Id): nat
    requires Legal(ops)
    decreases |ops|
  {
    if ops == [] then 0 else
      var before, last := ops[..|ops| - 1], ops[|ops| - 1];
      Reschedules(before, e)
      + (if last.OpReschedule? && last.id == e && RescheduleOutbox(Run(before).t, e, last.at).Ok? then 1 else 0)
  }

  /** What a step does to the counts of an event. */
  ghost predicate CountsMove(h: Trace, op: Op, h': Trace, e: Id)
    requires e in h'.t.events
  {
    var attempts, polls := (if e in h.t.events then h.t.events[e].attempts else 0),
        (if e in h.t.events then h.t.events[e].polls else 0);
    && h'.t.events[e].attempts
       == attempts + (if op.OpRetry? && op.id == e && RetryOutbox(h.t, e, op.at, op.max).Ok? then 1 else 0)
    && h'.t.events[e].polls
       == polls + (if op.OpReschedule? && op.id == e && RescheduleOutbox(h.t, e, op.at).Ok? then 1 else 0)
  }

  lemma NewEventCountsNothing(h: Trace, op: Op, e: Id)
    requires Possible(h, op) && op.OpCreate? && e in Next(h, op).t.events
    ensures CountsMove(h, op, Next(h, op), e)
  {
    var h' := Next(h, op);
    if h' != h && op.ask.deletion {
      var t1, told := Filed(h.t, op.key, op.ask, op.made.request), Announced(op.found.value, op.products);
      var t2 := FanOut(t1, op.made.request, told, op.made.pairs, op.now).value;
      FanOutPairsUp(t1, op.made.request, told, op.made.pairs, op.now, t2);
      var pairs := EventsOf(op.made.pairs);
      if e !in h.t.events {
        var s :| s in pairs && pairs[s] == e;
        assert PairedUp(t1, t2, op.made.request, s, e, op.now);
      }
    }
  }

  lemma StepCounts(h: Trace, op: Op, e: Id)
    requires Possible(h, op) && e in Next(h, op).t.events
    ensures CountsMove(h, op, Next(h, op), e)
  {
    match op
    case OpCreate(_, _, _, _, _, _) => NewEventCountsNothing(h, op, e);
    case OpUpdate(id, status) =>
      if UpdateStatus(h.t, id, status).Ok? {
        var t' := UpdateStatus(h.t, id, status).value;
        assert t'.events == h.t.events || t'.events == CancelEvents(h.t.events, id);
      }
    case _ =>
  }

  /** In every run an event's attempts are its committed retries and its polls its committed
      reschedules. */
  lemma {:induction false} CountsAreExact(ops: seq<Op>, e: Id)
    requires Legal(ops)
    ensures if e in Run(ops).t.events then
              Run(ops).t.events[e].attempts == Retries(ops, e) && Run(ops).t.events[e].polls == Reschedules(ops, e)
            else Retries(ops, e) == 0 && Reschedules(ops, e) == 0
    decreases |ops|
  {
    if ops != [] {
      var before, last := ops[..|ops| - 1], ops[|ops| - 1];
      CountsAreExact(before, e);
      RunIsSound(before);
      NextExtends(Run(before), last);
      if e in Run(ops).t.events {
        StepCounts(Run(before), last, e);
      }
    }
  }

  /** Every retry uses the same maximum. */
  ghost predicate OneMaximum(ops: seq<Op>, max: nat) {
    forall op :: op in ops ==>
      && (op.OpRetry? ==> op.max == max)
      && (op.OpRetryErasure? ==> op.max == max)
  }

  ghost predicate ParkedRow(e: Event, max: nat) {
    e.attempts <= max && (e.status == ManualDlq <==> e.attempts == max)
  }

  ghost predicate ParkedRows(t: Tables, max: nat) {
    forall e {:trigger ParkedRow(t.events[e], max)} :: e in t.events ==> ParkedRow(t.events[e], max)
  }

  lemma ParkedStays(h: Trace, op: Op, max: nat, e: Id)
    requires Sound(h) && Possible(h, op) && ParkedRows(h.t, max) && OneMaximum([op], max) && max > 0
    requires e in Next(h, op).t.events
    ensures ParkedRow(Next(h, op).t.events[e], max)
  {
    assert op in [op];
    StepCounts(h, op, e);
    if e in h.t.events {
      assert ParkedRow(h.t.events[e], max);
      assert EventRow(h, e);
    }
    match op
    case OpCreate(_, _, _, _, _, _) => NewEventIsPending(h, op, e);
    case OpClaimOutbox(now, rows, _) => assert e in rows ==> e in ClaimableEvents(h.t, now);
    case OpUpdate(id, status) => UpdateParksNothing(h, op, e);
    case _ =>
  }

  lemma UpdateParksNothing(h: Trace, op: Op, e: Id)
    requires op.OpUpdate? && e in h.t.events
    ensures e in Next(h, op).t.events
    ensures || Next(h, op).t.events[e] == h.t.events[e]
            || (h.t.events[e].status == Pending && h.t.events[e].attempts == 0
                && Next(h, op).t.events[e].status == Withdrawn && Next(h, op).t.events[e].attempts == 0)
  {
    if UpdateStatus(h.t, op.id, op.status).Ok? && Ended(op.status) && h.t.events[e].request == Some(op.id) {
      assert !EventStarted(h.t.events[e]);
    }
  }

  lemma NewEventIsPending(h: Trace, op: Op, e: Id)
    requires Possible(h, op) && op.OpCreate? && e in Next(h, op).t.events
    ensures e in h.t.events ==> Next(h, op).t.events[e] == h.t.events[e]
    ensures e !in h.t.events ==> Next(h, op).t.events[e].status == Pending
  {
    var h' := Next(h, op);
    if h' != h {
      CreateFollows(h, op);
      if op.ask.deletion {
        var t1, told := Filed(h.t, op.key, op.ask, op.made.request), Announced(op.found.value, op.products);
        var t2 := FanOut(t1, op.made.request, told, op.made.pairs, op.now).value;
        FanOutPairsUp(t1, op.made.request, told, op.made.pairs, op.now, t2);
        if e !in h.t.events {
          var s :| s in EventsOf(op.made.pairs) && EventsOf(op.made.pairs)[s] == e;
          assert PairedUp(t1, t2, op.made.request, s, e, op.now);
        }
      }
    }
  }

  /** In every run whose retries use one maximum, an event is parked if and only if its
      attempts reached that maximum, and none ever exceeds it. */
  lemma {:induction false} ParkedIffExhausted(ops: seq<Op>, max: nat)
    requires Legal(ops) && OneMaximum(ops, max) && max > 0
    ensures ParkedRows(Run(ops).t, max)
    decreases |ops|
  {
    if ops != [] {
      var before, last := ops[..|ops| - 1], ops[|ops| - 1];
      assert last in ops;
      ParkedIffExhausted(before, max);
      RunIsSound(before);
      forall e | e in Run(ops).t.events ensures ParkedRow(Run(ops).t.events[e], max) {
        ParkedStays(Run(before), last, max, e);
      }
    }
  }

  ghost predicate ErasureParkedRow(s: Step, max: nat) {
    && (s.status == Retry ==> s.attempts < max)
    && (s.status == ManualDlq ==> s.attempts >= max)
  }

  ghost predicate ErasuresParked(t: Tables, max: nat) {
    forall s {:trigger ErasureParkedRow(t.steps[s], max)} :: s in t.steps ==> ErasureParkedRow(t.steps[s], max)
  }

  lemma ErasureParkedStays(h: Trace, op: Op, max: nat, s: Id)
    requires Sound(h) && Possible(h, op) && ErasuresParked(h.t, max) && OneMaximum([op], max)
    requires s in Next(h, op).t.steps
    ensures ErasureParkedRow(Next(h, op).t.steps[s], max)
  {
    assert op in [op];
    if s in h.t.steps {
      assert ErasureParkedRow(h.t.steps[s], max);
    }
    match op
    case OpCreate(_, _, _, _, _, _) => NewStepIsPending(h, op, s);
    case OpUpdate(id, status) =>
      if UpdateStatus(h.t, id, status).Ok? {
        var t' := UpdateStatus(h.t, id, status).value;
        assert t'.steps == h.t.steps || t'.steps == CancelSteps(h.t.steps, id);
      }
    case _ =>
  }

  lemma NewStepIsPending(h: Trace, op: Op, s: Id)
    requires Possible(h, op) && op.OpCreate? && s in Next(h, op).t.steps
    ensures s in h.t.steps ==> Next(h, op).t.steps[s] == h.t.steps[s]
    ensures s !in h.t.steps ==> Next(h, op).t.steps[s].status == Pending
  {
    var h' := Next(h, op);
    if h' != h && op.ask.deletion {
      var t1, told := Filed(h.t, op.key, op.ask, op.made.request), Announced(op.found.value, op.products);
      var t2 := FanOut(t1, op.made.request, told, op.made.pairs, op.now).value;
      FanOutPairsUp(t1, op.made.request, told, op.made.pairs, op.now, t2);
      var pairs := EventsOf(op.made.pairs);
      if s in pairs {
        assert PairedUp(t1, t2, op.made.request, s, pairs[s], op.now);
      }
    }
  }

  /** In every run whose retries use one maximum, an erasure step waits for a retry only below
      the maximum of claims and is parked only at or above it. */
  lemma {:induction false} ErasureParkedWhenExhausted(ops: seq<Op>, max: nat)
    requires Legal(ops) && OneMaximum(ops, max)
    ensures ErasuresParked(Run(ops).t, max)
    decreases |ops|
  {
    if ops != [] {
      var before, last := ops[..|ops| - 1], ops[|ops| - 1];
      assert last in ops;
      ErasureParkedWhenExhausted(before, max);
      RunIsSound(before);
      forall s | s in Run(ops).t.steps ensures ErasureParkedRow(Run(ops).t.steps[s], max) {
        ErasureParkedStays(Run(before), last, max, s);
      }
    }
  }

  // ------------------------------------------------------------- creation and updates

  /** A repeated creation finds the first one, whatever the subject looks like by then; the
      same key for anything else is a conflict. */
  lemma CreationIsIdempotent(
      t: Tables, key: IdempotencyKey, ask: Ask, found: Result<seq<Announcement>>, products: map<Id, Id>,
      made: FreshIds, now: Time, t': Tables, id: Id,
      other: Ask, found': Result<seq<Announcement>>, products': map<Id, Id>, made': FreshIds, now': Time)
    requires Supplies(made, found, products) && Supplies(made', found', products')
    requires Create(t, key, ask, found, products, made, now) == Ok((t', id))
    ensures Create(t', key, other, found', products', made', now')
         == if other == ask then Ok((t', id)) else Err(Conflict)
  {
    if key !in t.recorded && ask.deletion {
      var t1 := Filed(t, key, ask, made.request);
      var told := Announced(found.value, products);
      var t2 := FanOut(t1, made.request, told, made.pairs, now).value;
      FanOutPairsUp(t1, made.request, told, made.pairs, now, t2);
    }
  }

  /** The step makes a new deletion request. */
  ghost predicate Plans(h: Trace, op: Op) {
    && Possible(h, op) && op.OpCreate? && op.ask.deletion && op.key !in h.t.recorded
    && Create(h.t, op.key, op.ask, op.found, op.products, op.made, op.now).Ok?
  }

  lemma PlannedInPairs(h: Trace, op: Op) returns (t1: Tables, t2: Tables)
    requires Plans(h, op)
    ensures FannedOut(t1, t2, op.made.request, Announced(op.found.value, op.products), EventsOf(op.made.pairs), op.now)
    ensures t1.steps == h.t.steps && t1.events == h.t.events && op.made.erasure !in t2.steps
    ensures Next(h, op).t.steps == t2.steps[op.made.erasure := NewStep(op.made.request, None, op.now)]
    ensures Next(h, op).t.events == t2.events && Next(h, op).eventOf == h.eventOf + EventsOf(op.made.pairs)
  {
    t1 := Filed(h.t, op.key, op.ask, op.made.request);
    var told := Announced(op.found.value, op.products);
    t2 := FanOut(t1, op.made.request, told, op.made.pairs, op.now).value;
    FanOutPairsUp(t1, op.made.request, told, op.made.pairs, op.now, t2);
  }

  /** A new deletion plans its local erasure: one step, claimable from now on and not before. */
  lemma ErasureIsPlanned(h: Trace, op: Op, later: Time)
    requires Plans(h, op)
    ensures var t' := Next(h, op).t;
      && op.made.erasure !in h.t.steps && op.made.erasure in t'.steps
      && t'.steps[op.made.erasure].request == op.made.request && t'.steps[op.made.erasure].about == None
      && (ErasureClaimable(t'.steps[op.made.erasure], later) <==> op.now <= later)
  {
    var t1, t2 := PlannedInPairs(h, op);
  }

  /** Every other step it adds is about an announced alias and has an event of its own, which
      can be claimed from now on and not before. */
  lemma MetricStepIsPlanned(h: Trace, op: Op, s: Id, later: Time)
    requires Plans(h, op) && s in Next(h, op).t.steps && s !in h.t.steps && s != op.made.erasure
    ensures var h' := Next(h, op);
      && h'.t.steps[s].request == op.made.request && h'.t.steps[s].about.Some? && s in h'.eventOf
      && h'.eventOf[s] in h'.t.events && h'.eventOf[s] !in h.t.events
      && h'.t.events[h'.eventOf[s]].step == Some(s) && h'.t.events[h'.eventOf[s]].about == h'.t.steps[s].about
      && (Claimable(h'.t.events[h'.eventOf[s]], later) <==> op.now <= later)
  {
    var t1, t2 := PlannedInPairs(h, op);
    assert PairedUp(t1, t2, op.made.request, s, EventsOf(op.made.pairs)[s], op.now);
  }

  /** A status update commits exactly along the edges of the table other than completion, and
      for a rejection or cancellation only while nothing of the request has started. */
  lemma UpdateCommitsIff(t: Tables, id: Id, status: RequestStatus)
    ensures UpdateStatus(t, id, status).Ok? <==>
      && id in t.requests
      && (match t.requests[id].status
          case Requested => status in {Underway, Rejected, Cancelled}
          case Underway => status in {Rejected, Cancelled}
          case _ => false)
      && (status in {Rejected, Cancelled} ==>
            && (forall s :: s in t.steps && t.steps[s].request == id ==>
                  t.steps[s].status == Pending && t.steps[s].attempts == 0)
            && (forall e :: e in t.events && t.events[e].request == Some(id) ==>
                  t.events[e].status == Pending && t.events[e].attempts == 0 && t.events[e].polls == 0))
  {
    if id in t.requests && Ended(status) {
      assert Started(t, id) <==>
        || (exists s :: s in t.steps && t.steps[s].request == id && StepStarted(t.steps[s]))
        || (exists e :: e in t.events && t.events[e].request == Some(id) && EventStarted(t.events[e]));
    }
  }

  /** It stores the given status, withdraws the request's own steps and events if that ends
      it, and touches nothing of any other request. */
  lemma UpdateStores(t: Tables, id: Id, status: RequestStatus, t': Tables)
    requires UpdateStatus(t, id, status) == Ok(t')
    ensures id in t.requests && t'.requests == t.requests[id := t.requests[id].(status := status)]
    ensures t'.recorded == t.recorded && t'.steps.Keys == t.steps.Keys && t'.events.Keys == t.events.Keys
    ensures forall s :: s in t.steps ==>
              if status in {Rejected, Cancelled} && t.steps[s].request == id then t'.steps[s].status == Withdrawn
              else t'.steps[s] == t.steps[s]
    ensures forall e :: e in t.events ==>
              if status in {Rejected, Cancelled} && t.events[e].request == Some(id)
                  then t'.events[e].status == Withdrawn
              else t'.events[e] == t.events[e]
  {
    if Ended(status) {
      forall s | s in t.steps && t.steps[s].request == id ensures !StepStarted(t.steps[s]) {
      }
      forall e | e in t.events && t.events[e].request == Some(id) ensures !EventStarted(t.events[e]) {
      }
    }
  }

  // ------------------------------------------------------------ erasure claims are counted

  ghost function JobsOf(h: Trace, s: Id): set<Job> {
    set j | j in h.issued && j.step == s
  }

  /** The number of claims a step counts is the number of jobs issued for it. */
  ghost predicate ClaimsCounted(h: Trace) {
    forall s :: s in h.t.steps ==> |JobsOf(h, s)| == h.t.steps[s].attempts
  }

  lemma ClaimAddsJob(h: Trace, op: Op, s: Id)
    requires Sound(h) && Possible(h, op) && op.OpClaimErasures? && s in h.t.steps
    ensures s in Next(h, op).t.steps
    ensures |JobsOf(Next(h, op), s)| - |JobsOf(h, s)| == Next(h, op).t.steps[s].attempts - h.t.steps[s].attempts
  {
    var h' := Next(h, op);
    if ClaimErasures(h.t, op.now, op.rows).Ok? {
      var taken := ErasableSteps(h.t, op.rows);
      if s in taken {
        var job := JobFor(h.t, s);
        assert forall j :: j in h.issued ==> JobRow(h, j);
        assert job !in h.issued;
        assert JobsOf(h', s) == JobsOf(h, s) + {job};
      } else {
        assert JobsOf(h', s) == JobsOf(h, s);
      }
    }
  }

  lemma OthersAddNoJob(h: Trace, op: Op, s: Id)
    requires Sound(h) && Possible(h, op) && !op.OpClaimErasures? && s in Next(h, op).t.steps
    ensures Next(h, op).issued == h.issued
    ensures s in h.t.steps ==> Next(h, op).t.steps[s].attempts == h.t.steps[s].attempts
    ensures s !in h.t.steps ==> Next(h, op).t.steps[s].attempts == 0
  {
    var h' := Next(h, op);
    match op
    case OpCreate(_, _, _, _, _, _) =>
      if h' != h && op.ask.deletion {
        var t1, told := Filed(h.t, op.key, op.ask, op.made.request), Announced(op.found.value, op.products);
        var t2 := FanOut(t1, op.made.request, told, op.made.pairs, op.now).value;
        FanOutPairsUp(t1, op.made.request, told, op.made.pairs, op.now, t2);
        var pairs := EventsOf(op.made.pairs);
        if s in pairs {
          assert PairedUp(t1, t2, op.made.request, s, pairs[s], op.now);
        }
      }
    case OpUpdate(id, status) =>
      if UpdateStatus(h.t, id, status).Ok? {
        assert h'.t.steps == h.t.steps || h'.t.steps == CancelSteps(h.t.steps, id);
      }
    case _ =>
  }

  lemma {:induction false} ClaimsAreCounted(ops: seq<Op>)
    requires Legal(ops)
    ensures ClaimsCounted(Run(ops))
    decreases |ops|
  {
    if ops != [] {
      var before, last := ops[..|ops| - 1], ops[|ops| - 1];
      ClaimsAreCounted(before);
      RunIsSound(before);
      var h, h' := Run(before), Run(ops);
      NextExtends(h, last);
      forall s | s in h'.t.steps ensures |JobsOf(h', s)| == h'.t.steps[s].attempts {
        if last.OpClaimErasures? {
          if s in h.t.steps {
            ClaimAddsJob(h, last, s);
          }
        } else {
          OthersAddNoJob(h, last, s);
          assert JobsOf(h', s) == JobsOf(h, s);
          if s !in h.t.steps {
            assert forall j :: j in h.issued ==> JobRow(h, j);
            assert JobsOf(h, s) == {};
          }
        }
      }
    }
  }
}
