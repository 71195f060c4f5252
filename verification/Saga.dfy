/** The privacy deletion saga: fan-out of a request into metric steps and outbox events,
    their delivery and receipts, the leased local erasure, cancellation
    (internal/store/subject_records.go, internal/store/outbox.go,
    internal/store/privacy_erasure.go, internal/domain/privacy.go).

    Workers crash, leases expire and stale workers come back between any two transactions.
    Only privacy_request_steps.version is kept: it is the one version a worker carries from
    one transaction to the next. */
module Saga {
  import opened Common
  import Registry

  datatype RequestStatus = Requested | Underway | Completed | Rejected | Cancelled
  datatype JobStatus = Pending | Processing | Retry | ManualDlq | Delivered | Finished | Withdrawn

  /** Whose data is to be deleted or exported. */
  datatype Whom = Person(id: Id) | Installation(id: Id)

  datatype Request = Request(deletion: bool, subject: Whom, all: bool, product: Option<Id>, status: RequestStatus)

  /** An alias to be told to forget its data: the product and audience it was issued for. */
  datatype Announcement = Announcement(product: Id, audience: Id, handle: Id)

  /** A metric step is about an alias; the local erasure step is about none. */
  datatype Step = Step(
      request: Id, about: Option<Announcement>, status: JobStatus, attempts: nat, createdAt: Time, availableAt: Time,
      leaseUntil: Option<Time>, version: nat)

  /** What the metric service answers: the request it names and whether it is completed. */
  datatype Receipt = Receipt(names: Id, completed: bool)

  datatype Event = Event(
      step: Option<Id>, request: Option<Id>, about: Option<Announcement>, status: JobStatus, attempts: nat,
      polls: nat, createdAt: Time, availableAt: Time, lockedAt: Option<Time>, receipt: Option<Receipt>)

  /** What a worker holds after claiming an erasure step. */
  datatype Job = Job(step: Id, request: Id, subject: Whom, all: bool, product: Option<Id>, version: nat)

  datatype IdempotencyKey = IdempotencyKey(workload: Id, key: Id)
  /** Subject, type, scope and product: what the stored fingerprint is a digest of. */
  datatype Ask = Ask(deletion: bool, subject: Whom, all: bool, product: Option<Id>)
  datatype Recorded = Recorded(request: Id, ask: Ask)

  datatype Tables = Tables(
    requests: map<Id, Request>,
    steps: map<Id, Step>,
    events: map<Id, Event>,
    recorded: map<IdempotencyKey, Recorded>)

  const EMPTY: Tables := Tables(map[], map[], map[], map[])

  const LEASE: nat := 5 * MINUTE

  // ---------------------------------------------------------------- requests

  /** Fresh identifiers for one metric step and its event. */
  datatype Pair = Pair(step: Id, event: Id)

  /** The identifiers generated for one creation. */
  datatype FreshIds = FreshIds(request: Id, erasure: Id, pairs: seq<Pair>)

  /** One pair is generated for each alias that will be announced. */
  ghost predicate Supplies(made: FreshIds, found: Result<seq<Announcement>>, products: map<Id, Id>) {
    found.Ok? ==> |made.pairs| == |Announced(found.value, products)|
  }

  function NewStep(request: Id, about: Option<Announcement>, now: Time): Step {
    Step(request, about, Pending, 0, now, now, None, 1)
  }

  function NewEvent(step: Option<Id>, request: Option<Id>, about: Option<Announcement>, now: Time): Event {
    Event(step, request, about, Pending, 0, 0, now, now, None, None)
  }

  /** The aliases a registered product with the same audience will be told about. */
  function Announced(aliases: seq<Announcement>, products: map<Id, Id>): seq<Announcement> {
    if aliases == [] then [] else
      var rest := Announced(aliases[1..], products);
      var a := aliases[0];
      if a.product in products && products[a.product] == a.audience then [a] + rest else rest
  }

  /** One metric step and one outbox event per announced alias. */
  function FanOut(t: Tables, request: Id, told: seq<Announcement>, ids: seq<Pair>, now: Time): Result<Tables>
    requires |told| == |ids|
    decreases |ids|
  {
    if ids == [] then Ok(t) else
      :- Need(ids[0].step !in t.steps && ids[0].event !in t.events, Conflict);
      FanOut(Tell(t, request, told[0], ids[0], now), request, told[1..], ids[1..], now)
  }

  function Tell(t: Tables, request: Id, about: Announcement, ids: Pair, now: Time): Tables {
    t.(steps := t.steps[ids.step := NewStep(request, Some(about), now)],
       events := t.events[ids.event := NewEvent(Some(ids.step), Some(request), Some(about), now)])
  }

  /** Creates a request, or returns the one already recorded under the caller's key.
      `found` is the outcome of checking the subject and reading its aliases. */
  function Create(
      t: Tables, key: IdempotencyKey, ask: Ask, found: Result<seq<Announcement>>, products: map<Id, Id>,
      made: FreshIds, now: Time): Result<(Tables, Id)>
    requires Supplies(made, found, products)
  {
    if key in t.recorded then
      :- Need(t.recorded[key].ask == ask, Conflict);
      var _ :- Read(t.requests, t.recorded[key].request);
      Ok((t, t.recorded[key].request))
    else
      var aliases :- found;
      :- Need(made.request !in t.requests, Conflict);
      var t1 := Filed(t, key, ask, made.request);
      if !ask.deletion then Ok((t1, made.request)) else
        var t2 :- FanOut(t1, made.request, Announced(aliases, products), made.pairs, now);
        :- Need(made.erasure !in t2.steps, Conflict);
        Ok((t2.(steps := t2.steps[made.erasure := NewStep(made.request, None, now)]), made.request))
  }

  function Filed(t: Tables, key: IdempotencyKey, ask: Ask, id: Id): Tables {
    t.(requests := t.requests[id := Request(ask.deletion, ask.subject, ask.all, ask.product, Requested)],
       recorded := t.recorded[key := Recorded(id, ask)])
  }

  function ValidTransition(from: RequestStatus, to: RequestStatus): bool {
    match from
    case Requested => to == Underway || to == Rejected || to == Cancelled
    case Underway => to == Completed || to == Rejected || to == Cancelled
    case _ => false
  }

  predicate Open(status: RequestStatus) {
    status == Requested || status == Underway
  }

  predicate StepStarted(s: Step) {
    s.status != Pending || s.attempts > 0
  }

  predicate EventStarted(e: Event) {
    e.status != Pending || e.attempts > 0 || e.polls > 0
  }

  predicate Started(t: Tables, request: Id) {
    || (exists s :: s in t.steps && t.steps[s].request == request && StepStarted(t.steps[s]))
    || (exists e :: e in t.events && t.events[e].request == Some(request) && EventStarted(t.events[e]))
  }

  function CancelStep(s: Step, request: Id): Step {
    if s.request == request && s.status != Finished
        then s.(status := Withdrawn, leaseUntil := None, version := s.version + 1) else s
  }

  function CancelEvent(e: Event, request: Id): Event {
    if e.request == Some(request) && e.status in {Pending, Processing, ManualDlq}
        then e.(status := Withdrawn, lockedAt := None) else e
  }

  function CancelSteps(steps: map<Id, Step>, request: Id): map<Id, Step> {
    map s | s in steps :: CancelStep(steps[s], request)
  }

  function CancelEvents(events: map<Id, Event>, request: Id): map<Id, Event> {
    map e | e in events :: CancelEvent(events[e], request)
  }

  function UpdateStatus(t: Tables, id: Id, status: RequestStatus): Result<Tables> {
    if status == Completed then Err(Conflict) else
    var r :- Read(t.requests, id);
    :- Need(ValidTransition(r.status, status), Conflict);
    var ends := status == Rejected || status == Cancelled;
    :- Need(!ends || !Started(t, id), Conflict);
    var t1 := t.(requests := t.requests[id := r.(status := status)]);
    Ok(if ends then t1.(steps := CancelSteps(t.steps, id), events := CancelEvents(t.events, id)) else t1)
  }

  // ---------------------------------------------------------------- the outbox

  predicate Claimable(e: Event, now: Time) {
    || (e.status == Pending && e.availableAt <= now)
    || (e.status == Processing && e.lockedAt.Some? && e.lockedAt.value + LEASE < now)
  }

  function ClaimableEvents(t: Tables, now: Time): set<Id> {
    set e | e in t.events && Claimable(t.events[e], now)
  }

  function ClaimableSince(t: Tables, now: Time): map<Id, Time> {
    map e | e in t.events && Claimable(t.events[e], now) :: t.events[e].createdAt
  }

  ghost predicate OldestEvents(t: Tables, now: Time, rows: set<Id>, limit: nat) {
    OldestRows(ClaimableSince(t, now), rows, limit)
  }

  /** An event whose request is closed is read but not taken. */
  predicate Taken(t: Tables, e: Event) {
    e.request.Some? ==> e.request.value in t.requests && Open(t.requests[e.request.value].status)
  }

  function ClaimEvent(e: Event, now: Time): Event {
    e.(status := Processing, lockedAt := Some(now))
  }

  function TakenEvents(t: Tables, rows: set<Id>): set<Id> {
    set e | e in rows && e in t.events && Taken(t, t.events[e])
  }

  function ClaimEvents(events: map<Id, Event>, taken: set<Id>, now: Time): map<Id, Event> {
    map e | e in events :: if e in taken then ClaimEvent(events[e], now) else events[e]
  }

  function ClaimOutbox(t: Tables, now: Time, rows: set<Id>): Result<Tables> {
    if !(forall e ::
        e in rows && e in t.events && t.events[e].request.Some? ==> t.events[e].request.value in t.requests)
            then Err(NotFound) else
    Ok(t.(events := ClaimEvents(t.events, TakenEvents(t, rows), now)))
  }

  function MarkDelivered(t: Tables, id: Id, receipt: Receipt): Result<Tables> {
    if receipt != Receipt(id, true) then Err(Invalid) else
    var e :- Read(t.events, id);
    :- Need(e.status == Processing, Conflict);
    var t1 := t.(events := t.events[id := e.(status := Delivered, lockedAt := None, receipt := Some(receipt))]);
    if e.step.None? then Ok(t1) else
      var s :- Read(t.steps, e.step.value);
      if s.status == Finished then Ok(t1) else
        Ok(t1.(steps := t.steps[e.step.value := s.(status := Finished, leaseUntil := None, version := s.version + 1)]))
  }

  function RetryOutbox(t: Tables, id: Id, availableAt: Time, maxAttempts: nat): Result<Tables> {
    var e :- Read(t.events, id);
    :- Need(e.status == Processing, Conflict);
    var status := if e.attempts + 1 >= maxAttempts then ManualDlq else Pending;
    Ok(t.(events := t.events[id := e.(attempts := e.attempts + 1, status := status, availableAt := availableAt,
        lockedAt := None)]))
  }

  function RescheduleOutbox(t: Tables, id: Id, availableAt: Time): Result<Tables> {
    var e :- Read(t.events, id);
    :- Need(e.status == Processing, Conflict);
    Ok(t.(events := t.events[id := e.(polls := e.polls + 1, status := Pending, availableAt := availableAt,
        lockedAt := None)]))
  }

  // ------------------------------------------------------------ local erasure

  predicate ErasureClaimable(s: Step, now: Time) {
    && s.about.None?
    && (|| (s.status in {Pending, Retry} && s.availableAt <= now)
        || (s.status == Processing && s.leaseUntil.Some? && s.leaseUntil.value < now))
  }

  function ClaimableErasures(t: Tables, now: Time): set<Id> {
    set s | s in t.steps && ErasureClaimable(t.steps[s], now)
  }

  function ErasableSince(t: Tables, now: Time): map<Id, Time> {
    map s | s in t.steps && ErasureClaimable(t.steps[s], now) :: t.steps[s].createdAt
  }

  ghost predicate OldestErasures(t: Tables, now: Time, rows: set<Id>, limit: nat) {
    OldestRows(ErasableSince(t, now), rows, limit)
  }

  predicate MetricStepsComplete(t: Tables, request: Id) {
    forall s :: s in t.steps && t.steps[s].request == request && t.steps[s].about.Some? ==>
        t.steps[s].status == Finished
  }

  predicate Erasable(t: Tables, s: Step) {
    && s.request in t.requests
    && Open(t.requests[s.request].status)
    && MetricStepsComplete(t, s.request)
  }

  function ErasableSteps(t: Tables, rows: set<Id>): set<Id> {
    set s | s in rows && s in t.steps && Erasable(t, t.steps[s])
  }

  function ClaimStep(s: Step, now: Time): Step {
    s.(status := Processing, attempts := s.attempts + 1, leaseUntil := Some(now + LEASE), version := s.version + 1)
  }

  function ClaimSteps(steps: map<Id, Step>, taken: set<Id>, now: Time): map<Id, Step> {
    map s | s in steps :: if s in taken then ClaimStep(steps[s], now) else steps[s]
  }

  function JobFor(t: Tables, s: Id): Job
    requires s in t.steps && t.steps[s].request in t.requests
  {
    var r := t.requests[t.steps[s].request];
    Job(s, t.steps[s].request, r.subject, r.all, r.product, t.steps[s].version + 1)
  }

  function JobsFor(t: Tables, taken: set<Id>): set<Job>
    requires forall s :: s in taken ==> s in t.steps && t.steps[s].request in t.requests
  {
    set s | s in taken :: JobFor(t, s)
  }

  function ClaimErasures(t: Tables, now: Time, rows: set<Id>): Result<(Tables, set<Job>)> {
    if !(forall s :: s in rows && s in t.steps ==> t.steps[s].request in t.requests) then Err(NotFound) else
    var taken := ErasableSteps(t, rows);
    Ok((t.(steps := ClaimSteps(t.steps, taken, now)), JobsFor(t, taken)))
  }

  /** The guard of an erasure: the job must still be the step's latest claim. */
  function CheckJob(t: Tables, job: Job): Check {
    if job.request !in t.requests then Fail(NotFound)
    else if !Open(t.requests[job.request].status) then Fail(NotFound)
    else if job.step !in t.steps then Fail(NotFound)
    else if t.steps[job.step].status != Processing || t.steps[job.step].version != job.version then Fail(Conflict)
    else if !MetricStepsComplete(t, job.request) then Fail(Conflict)
    else Pass
  }

  /** The saga's side of a committed erasure: step finished, request completed. */
  function Erase(t: Tables, job: Job): Result<Tables> {
    if CheckJob(t, job).Fail? then Err(CheckJob(t, job).error) else
    var s, r := t.steps[job.step], t.requests[job.request];
    Ok(t.(steps := t.steps[job.step := s.(status := Finished, leaseUntil := None, version := s.version + 1)],
          requests := t.requests[job.request := r.(status := Completed)]))
  }

  /** Checks the step's status but not the job's version. */
  function RetryErasure(t: Tables, job: Job, availableAt: Time, maxAttempts: nat): Result<Tables> {
    var s :- Read(t.steps, job.step);
    :- Need(s.status == Processing, Conflict);
    var status := if s.attempts >= maxAttempts then ManualDlq else Retry;
    Ok(t.(steps := t.steps[job.step := s.(status := status, availableAt := availableAt, leaseUntil := None,
        version := s.version + 1)]))
  }

  /** What the erasure job removes, if its scope names anything. */
  function TargetOf(subject: Whom, all: bool, product: Option<Id>): Option<Registry.Target> {
    match subject
    case Person(p) =>
      if all then Some(Registry.ThePerson(p))
      else if product.Some? then Some(Registry.PersonInProduct(p, product.value)) else None
    case Installation(i) =>
      if product.Some? then Some(Registry.OneInstallation(i, product.value)) else None
  }

  // ---------------------------------------------------------------- whole runs

  datatype Op =
    | OpCreate(
        key: IdempotencyKey, ask: Ask, found: Result<seq<Announcement>>, products: map<Id, Id>, made: FreshIds,
        now: Time)
    | OpEmit(id: Id, now: Time)
    | OpClaimOutbox(now: Time, rows: set<Id>, limit: nat)
    | OpDeliver(id: Id, receipt: Receipt)
    | OpRetry(id: Id, at: Time, max: nat)
    | OpReschedule(id: Id, at: Time)
    | OpClaimErasures(now: Time, rows: set<Id>, limit: nat)
    | OpErase(job: Job)
    | OpRetryErasure(job: Job, at: Time, max: nat)
    | OpUpdate(id: Id, status: RequestStatus)

  /** The tables with what has ever happened: claims, issued jobs, completions, which event
      was created for each metric step, and which alias each request promised to tell. */
  datatype Trace = Trace(
    t: Tables,
    claimedEvents: set<Id>,
    claimedSteps: set<Id>,
    issued: set<Job>,
    completions: seq<Id>,
    eventOf: map<Id, Id>,
    promised: set<(Id, Announcement)>)

  const START: Trace := Trace(EMPTY, {}, {}, {}, [], map[], {})

  /** A query returns the rows its ORDER BY and LIMIT allow; a worker only ever brings back
      a job it was given, however old. */
  ghost predicate Possible(h: Trace, op: Op) {
    match op
    case OpCreate(_, _, found, products, made, _) => Supplies(made, found, products)
    case OpClaimOutbox(now, rows, limit) => OldestEvents(h.t, now, rows, limit)
    case OpClaimErasures(now, rows, limit) => OldestErasures(h.t, now, rows, limit)
    case OpErase(job) => job in h.issued
    case OpRetryErasure(job, _, _) => job in h.issued
    case _ => true
  }

  function EventsOf(pairs: seq<Pair>): map<Id, Id> {
    if pairs == [] then map[] else EventsOf(pairs[1..])[pairs[0].step := pairs[0].event]
  }

  function Promises(request: Id, told: seq<Announcement>): set<(Id, Announcement)> {
    set a | a in told :: (request, a)
  }

  function Next(h: Trace, op: Op): Trace
    requires Possible(h, op)
  {
    match op
    case OpCreate(key, ask, found, products, made, now) =>
      var r := Create(h.t, key, ask, found, products, made, now);
      if r.Err? || key in h.t.recorded then h
      else if !ask.deletion then h.(t := r.value.0)
      else h.(t := r.value.0,
              eventOf := h.eventOf + EventsOf(made.pairs),
              promised := h.promised + Promises(made.request, Announced(found.value, products)))
    case OpEmit(id, now) =>
      if id in h.t.events then h else h.(t := h.t.(events := h.t.events[id := NewEvent(None, None, None, now)]))
    case OpClaimOutbox(now, rows, _) =>
      var r := ClaimOutbox(h.t, now, rows);
      if r.Err? then h else h.(t := r.value, claimedEvents := h.claimedEvents + TakenEvents(h.t, rows))
    case OpDeliver(id, receipt) => With(h, MarkDelivered(h.t, id, receipt))
    case OpRetry(id, at, max) => With(h, RetryOutbox(h.t, id, at, max))
    case OpReschedule(id, at) => With(h, RescheduleOutbox(h.t, id, at))
    case OpClaimErasures(now, rows, _) =>
      var r := ClaimErasures(h.t, now, rows);
      if r.Err? then h
      else h.(t := r.value.0, claimedSteps := h.claimedSteps + ErasableSteps(h.t, rows), issued := h.issued + r.value.1)
    case OpErase(job) =>
      var r := Erase(h.t, job);
      if r.Err? then h else h.(t := r.value, completions := h.completions + [job.request])
    case OpRetryErasure(job, at, max) => With(h, RetryErasure(h.t, job, at, max))
    case OpUpdate(id, status) => With(h, UpdateStatus(h.t, id, status))
  }

  /** A transaction either commits its tables or changes nothing. */
  function With(h: Trace, r: Result<Tables>): Trace {
    if r.Ok? then h.(t := r.value) else h
  }

  ghost predicate Legal(ops: seq<Op>)
    decreases |ops|, 0
  {
    ops == [] || (Legal(ops[..|ops| - 1]) && Possible(Run(ops[..|ops| - 1]), ops[|ops| - 1]))
  }

  ghost function Run(ops: seq<Op>): Trace
    requires Legal(ops)
    decreases |ops|, 1
  {
    if ops == [] then START else Next(Run(ops[..|ops| - 1]), ops[|ops| - 1])
  }

  // ---------------------------------------------------------------- invariants

  predicate Ended(status: RequestStatus) {
    status == Rejected || status == Cancelled
  }

  /** An event is (pending, no attempts, no polls) exactly while it was never claimed and
      its request was not called off; a delivered one holds a completed receipt for itself. */
  ghost predicate EventRow(h: Trace, e: Id)
    requires e in h.t.events
  {
    var v := h.t.events[e];
    && (e in h.claimedEvents <==> EventStarted(v) && v.status != Withdrawn)
    && (v.status == Withdrawn ==> v.attempts == 0 && v.polls == 0 && v.request.Some?)
    && v.status in {Pending, Processing, ManualDlq, Delivered, Withdrawn}
    && (v.status == Delivered ==> v.receipt == Some(Receipt(e, true)))
    && (v.step.Some? <==> v.request.Some?)
    && (v.request.Some? ==> EventLink(h, e, v.step.value, v.request.value))
  }

  ghost predicate EventLink(h: Trace, e: Id, s: Id, r: Id)
    requires e in h.t.events
  {
    && s in h.t.steps && h.t.steps[s].about.Some? && h.t.steps[s].about == h.t.events[e].about
    && h.t.steps[s].request == r && r in h.t.requests
    && s in h.eventOf && h.eventOf[s] == e
    && (h.t.events[e].status == Withdrawn <==> Ended(h.t.requests[r].status))
  }

  ghost predicate StepRow(h: Trace, s: Id)
    requires s in h.t.steps
  {
    var v := h.t.steps[s];
    && v.request in h.t.requests && h.t.requests[v.request].deletion
    && (v.status == Withdrawn <==> Ended(h.t.requests[v.request].status))
    && (if v.about.Some? then
          && s !in h.claimedSteps && v.attempts == 0 && v.status in {Pending, Finished, Withdrawn}
          && s in h.eventOf && h.eventOf[s] in h.t.events && h.t.events[h.eventOf[s]].step == Some(s)
          && (v.status == Finished <==> h.t.events[h.eventOf[s]].status == Delivered)
        else
          && (s in h.claimedSteps <==> v.attempts > 0)
          && v.status in {Pending, Processing, Retry, ManualDlq, Finished, Withdrawn}
          && (v.status in {Pending, Withdrawn} <==> v.attempts == 0))
  }

  ghost predicate RequestRow(h: Trace, r: Id)
    requires r in h.t.requests
  {
    && (h.t.requests[r].status == Completed ==> MetricStepsComplete(h.t, r))
    && (r in h.completions <==> h.t.requests[r].status == Completed)
  }

  /** A job was cut from its step's request, at a version the step has reached. */
  ghost predicate JobRow(h: Trace, j: Job) {
    && j.step in h.t.steps && j.version <= h.t.steps[j.step].version
    && h.t.steps[j.step].about.None?
    && j.request == h.t.steps[j.step].request && j.request in h.t.requests
    && j.subject == h.t.requests[j.request].subject && j.all == h.t.requests[j.request].all
    && j.product == h.t.requests[j.request].product
  }

  /** The alias a request promised to tell has a metric step. */
  ghost predicate Kept(h: Trace, r: Id, a: Announcement) {
    r in h.t.requests && exists s :: s in h.t.steps && h.t.steps[s].request == r && h.t.steps[s].about == Some(a)
  }

  ghost predicate EventRows(h: Trace) {
    forall e {:trigger EventRow(h, e)} :: e in h.t.events ==> EventRow(h, e)
  }

  ghost predicate StepRows(h: Trace) {
    forall s {:trigger StepRow(h, s)} :: s in h.t.steps ==> StepRow(h, s)
  }

  ghost predicate RequestRows(h: Trace) {
    forall r {:trigger RequestRow(h, r)} :: r in h.t.requests ==> RequestRow(h, r)
  }

  ghost predicate Histories(h: Trace) {
    && (forall j {:trigger JobRow(h, j)} :: j in h.issued ==> JobRow(h, j))
    && (forall p {:trigger Kept(h, p.0, p.1)} :: p in h.promised ==> Kept(h, p.0, p.1))
    && h.claimedEvents <= h.t.events.Keys && h.claimedSteps <= h.t.steps.Keys && h.eventOf.Keys <= h.t.steps.Keys
  }

  ghost predicate CompletedOnce(h: Trace) {
    && (forall i, j :: 0 <= i < j < |h.completions| ==> h.completions[i] != h.completions[j])
    && (forall r :: r in h.completions ==> r in h.t.requests)
  }

  ghost predicate Sound(h: Trace) {
    EventRows(h) && StepRows(h) && RequestRows(h) && Histories(h) && CompletedOnce(h)
  }

  // ------------------------------------------------- every step keeps the invariants

  /** What no step takes away: rows stay, what a row is about never changes, and a finished
      step stays finished. */
  ghost predicate Extends(t: Tables, t': Tables) {
    RequestsExtend(t.requests, t'.requests) && StepsExtend(t.steps, t'.steps) && EventsExtend(t.events, t'.events)
  }

  ghost predicate RequestsExtend(m: map<Id, Request>, m': map<Id, Request>) {
    forall r :: r in m ==> r in m' && m'[r].(status := m[r].status) == m[r]
  }

  ghost predicate StepsExtend(m: map<Id, Step>, m': map<Id, Step>) {
    forall s :: s in m ==> s in m' && StepExtends(m[s], m'[s])
  }

  ghost predicate EventsExtend(m: map<Id, Event>, m': map<Id, Event>) {
    forall e :: e in m ==> e in m' && EventExtends(m[e], m'[e])
  }

  ghost predicate StepExtends(v: Step, v': Step) {
    && v'.request == v.request && v'.about == v.about && v.version <= v'.version
    && (v.status == Finished ==> v'.status == Finished)
  }

  ghost predicate EventExtends(v: Event, v': Event) {
    v'.step == v.step && v'.request == v.request && v'.about == v.about
  }

  lemma HistoriesStay(h: Trace, h': Trace)
    requires Histories(h) && Extends(h.t, h'.t)
    ensures forall j :: j in h.issued ==> JobRow(h', j)
    ensures forall p :: p in h.promised ==> Kept(h', p.0, p.1)
    ensures h.claimedEvents <= h'.t.events.Keys && h.claimedSteps <= h'.t.steps.Keys
    ensures h.eventOf.Keys <= h'.t.steps.Keys
  {
    forall j | j in h.issued ensures JobRow(h', j) {
      assert JobRow(h, j);
    }
    forall p | p in h.promised ensures Kept(h', p.0, p.1) {
      assert Kept(h, p.0, p.1);
      var s :| s in h.t.steps && h.t.steps[s].request == p.0 && h.t.steps[s].about == Some(p.1);
      assert s in h'.t.steps;
    }
  }

  lemma RequestStays(h: Trace, h': Trace, r: Id)
    requires r in h.t.requests && RequestRow(h, r) && Extends(h.t, h'.t)
    requires h'.t.requests[r].status == h.t.requests[r].status && (r in h'.completions <==> r in h.completions)
    requires forall s :: s in h'.t.steps && s !in h.t.steps ==> h'.t.steps[s].request != r
    ensures RequestRow(h', r)
  {
  }

  lemma EventStays(h: Trace, h': Trace, e: Id)
    requires e in h.t.events && EventRow(h, e) && Extends(h.t, h'.t)
    requires h'.t.events[e] == h.t.events[e] && (e in h'.claimedEvents <==> e in h.claimedEvents)
    requires forall s :: s in h.eventOf ==> s in h'.eventOf && h'.eventOf[s] == h.eventOf[s]
    requires h.t.events[e].request.Some? && h.t.events[e].request.value in h.t.requests ==>
               var r := h.t.events[e].request.value; Ended(h'.t.requests[r].status) == Ended(h.t.requests[r].status)
    ensures EventRow(h', e)
  {
  }

  lemma StepStays(h: Trace, h': Trace, s: Id)
    requires s in h.t.steps && StepRow(h, s) && Extends(h.t, h'.t)
    requires h'.t.steps[s] == h.t.steps[s] && (s in h'.claimedSteps <==> s in h.claimedSteps)
    requires Ended(h'.t.requests[h.t.steps[s].request].status) == Ended(h.t.requests[h.t.steps[s].request].status)
    requires s in h.eventOf ==> s in h'.eventOf && h'.eventOf[s] == h.eventOf[s]
    requires h.t.steps[s].about.Some? ==>
               (h'.t.events[h.eventOf[s]].status == Delivered <==> h.t.events[h.eventOf[s]].status == Delivered)
    ensures StepRow(h', s)
  {
  }

  /** Only events changed, and each changed one keeps its row and does not become delivered. */
  lemma EventsMove(h: Trace, h': Trace, moved: set<Id>)
    requires EventRows(h) && StepRows(h) && Extends(h.t, h'.t) && moved <= h.t.events.Keys
    requires h'.t.steps == h.t.steps && h'.t.requests == h.t.requests && h'.eventOf == h.eventOf
    requires h'.claimedSteps == h.claimedSteps
    requires forall e :: e in h'.t.events && e !in moved ==>
               e in h.t.events && h'.t.events[e] == h.t.events[e] && (e in h'.claimedEvents <==> e in h.claimedEvents)
    requires forall e ::
        e in moved ==> EventRow(h', e) && h'.t.events[e].status != Delivered && h.t.events[e].status != Delivered
    ensures EventRows(h') && StepRows(h')
  {
    forall e | e in h'.t.events ensures EventRow(h', e) {
      if e !in moved {
        assert EventRow(h, e);
        EventStays(h, h', e);
      }
    }
    forall s | s in h'.t.steps ensures StepRow(h', s) {
      assert StepRow(h, s);
      StepStays(h, h', s);
    }
  }

  lemma RetryOutboxKeepsRows(h: Trace, h': Trace, id: Id, v: Event)
    requires EventRows(h) && StepRows(h) && Extends(h.t, h'.t) && id in h.t.events
    requires h' == h.(t := h.t.(events := h.t.events[id := v]))
    requires h.t.events[id].status == Processing && v.status in {Pending, ManualDlq} && (v.attempts > 0 || v.polls > 0)
    ensures EventRows(h') && StepRows(h')
  {
    assert EventRow(h, id);
    EventsMove(h, h', {id});
  }

  lemma ClaimOutboxKeepsRows(h: Trace, h': Trace, now: Time, rows: set<Id>)
    requires EventRows(h) && StepRows(h) && Extends(h.t, h'.t)
    requires rows <= ClaimableEvents(h.t, now) && ClaimOutbox(h.t, now, rows) == Ok(h'.t)
    requires h' == h.(t := h'.t, claimedEvents := h.claimedEvents + TakenEvents(h.t, rows))
    ensures EventRows(h') && StepRows(h')
  {
    var taken := TakenEvents(h.t, rows);
    forall e | e in taken
      ensures EventRow(h', e) && h'.t.events[e].status != Delivered && h.t.events[e].status != Delivered
    {
      assert EventRow(h, e) && Claimable(h.t.events[e], now);
    }
    EventsMove(h, h', taken);
  }

  lemma EmitKeepsRows(h: Trace, h': Trace, id: Id, now: Time)
    requires EventRows(h) && StepRows(h) && Extends(h.t, h'.t) && id !in h.t.events && id !in h.claimedEvents
    requires h' == h.(t := h.t.(events := h.t.events[id := NewEvent(None, None, None, now)]))
    ensures EventRows(h') && StepRows(h')
  {
    forall e | e in h'.t.events ensures EventRow(h', e) {
      if e != id {
        assert EventRow(h, e);
        EventStays(h, h', e);
      }
    }
    forall s | s in h'.t.steps ensures StepRow(h', s) {
      assert StepRow(h, s);
      StepStays(h, h', s);
    }
  }

  lemma DeliverKeepsRows(h: Trace, h': Trace, id: Id, receipt: Receipt)
    requires EventRows(h) && StepRows(h) && Extends(h.t, h'.t)
    requires MarkDelivered(h.t, id, receipt) == Ok(h'.t) && h' == h.(t := h'.t)
    ensures EventRows(h') && StepRows(h')
  {
    assert EventRow(h, id);
    var told := h.t.events[id].step;
    assert told.Some? ==> StepRow(h, told.value);
    forall e | e in h'.t.events ensures EventRow(h', e) {
      assert EventRow(h, e);
      if e != id {
        EventStays(h, h', e);
      }
    }
    forall s | s in h'.t.steps ensures StepRow(h', s) {
      assert StepRow(h, s);
      if told != Some(s) {
        StepStays(h, h', s);
      }
    }
  }

  /** Only erasure steps changed, and each keeps its row. */
  lemma StepsMove(h: Trace, h': Trace, moved: set<Id>)
    requires EventRows(h) && StepRows(h) && Extends(h.t, h'.t) && moved <= h.t.steps.Keys
    requires h'.t.steps.Keys == h.t.steps.Keys
    requires h'.t.events == h.t.events && h'.claimedEvents == h.claimedEvents && h'.eventOf == h.eventOf
    requires forall s :: s in h'.t.steps && s !in moved ==>
               h'.t.steps[s] == h.t.steps[s] && (s in h'.claimedSteps <==> s in h.claimedSteps)
    requires forall s :: s in moved ==> h.t.steps[s].about.None? && StepRow(h', s)
    requires forall r :: r in h.t.requests ==> Ended(h'.t.requests[r].status) == Ended(h.t.requests[r].status)
    ensures EventRows(h') && StepRows(h')
  {
    forall e | e in h'.t.events ensures EventRow(h', e) {
      assert EventRow(h, e);
      EventStays(h, h', e);
    }
    forall s | s in h'.t.steps ensures StepRow(h', s) {
      if s !in moved {
        assert StepRow(h, s);
        StepStays(h, h', s);
      }
    }
  }

  lemma ClaimErasuresKeepsRows(h: Trace, h': Trace, now: Time, rows: set<Id>)
    requires EventRows(h) && StepRows(h) && Extends(h.t, h'.t) && rows <= ClaimableErasures(h.t, now)
    requires h'.t == h.t.(steps := ClaimSteps(h.t.steps, ErasableSteps(h.t, rows), now))
    requires h' == h.(t := h'.t, claimedSteps := h.claimedSteps + ErasableSteps(h.t, rows), issued := h'.issued)
    ensures EventRows(h') && StepRows(h')
  {
    var taken := ErasableSteps(h.t, rows);
    forall s | s in taken ensures h.t.steps[s].about.None? && StepRow(h', s) {
      assert StepRow(h, s) && s in ClaimableErasures(h.t, now);
    }
    StepsMove(h, h', taken);
  }

  lemma EraseKeepsRows(h: Trace, h': Trace, job: Job)
    requires EventRows(h) && StepRows(h) && Extends(h.t, h'.t) && JobRow(h, job)
    requires Erase(h.t, job) == Ok(h'.t) && h' == h.(t := h'.t, completions := h'.completions)
    ensures EventRows(h') && StepRows(h')
  {
    assert StepRow(h, job.step);
    StepsMove(h, h', {job.step});
  }

  lemma RetryErasureKeepsRows(h: Trace, h': Trace, job: Job, at: Time, max: nat)
    requires EventRows(h) && StepRows(h) && Extends(h.t, h'.t) && JobRow(h, job)
    requires RetryErasure(h.t, job, at, max) == Ok(h'.t) && h' == h.(t := h'.t)
    ensures EventRows(h') && StepRows(h')
  {
    assert StepRow(h, job.step);
    StepsMove(h, h', {job.step});
  }

  /** Moving a request along leaves its children alone. */
  lemma AdvanceKeepsRows(h: Trace, h': Trace, id: Id, status: RequestStatus)
    requires EventRows(h) && StepRows(h) && Extends(h.t, h'.t) && !Ended(status)
    requires UpdateStatus(h.t, id, status) == Ok(h'.t) && h' == h.(t := h'.t)
    ensures EventRows(h') && StepRows(h')
  {
    StepsMove(h, h', {});
  }

  lemma CancelKeepsRows(h: Trace, h': Trace, id: Id, status: RequestStatus)
    requires EventRows(h) && StepRows(h) && Extends(h.t, h'.t) && Ended(status)
    requires UpdateStatus(h.t, id, status) == Ok(h'.t) && h' == h.(t := h'.t)
    ensures EventRows(h') && StepRows(h')
  {
    forall s | s in h'.t.steps ensures StepRow(h', s) {
      CancelKeepsStep(h, h', id, s);
    }
    forall e | e in h'.t.events ensures EventRow(h', e) {
      CancelKeepsEvent(h, h', id, e);
    }
  }

  /** What cancelling does, given that nothing of the request was started. */
  ghost predicate CalledOff(h: Trace, h': Trace, id: Id) {
    && id in h.t.requests && !Ended(h.t.requests[id].status) && !Started(h.t, id)
    && id in h'.t.requests && Ended(h'.t.requests[id].status)
    && h'.t.requests == h.t.requests[id := h'.t.requests[id]]
    && h'.t.steps == CancelSteps(h.t.steps, id) && h'.t.events == CancelEvents(h.t.events, id)
    && h' == h.(t := h'.t)
  }

  lemma CancelKeepsStep(h: Trace, h': Trace, id: Id, s: Id)
    requires EventRows(h) && StepRows(h) && Extends(h.t, h'.t) && CalledOff(h, h', id)
    requires s in h.t.steps
    ensures StepRow(h', s)
  {
    assert StepRow(h, s);
    var v := h.t.steps[s];
    if v.about.Some? {
      assert EventRow(h, h.eventOf[s]);
    }
    if v.request == id {
      assert !StepStarted(v);
    } else {
      StepStays(h, h', s);
    }
  }

  lemma CancelKeepsEvent(h: Trace, h': Trace, id: Id, e: Id)
    requires EventRows(h) && StepRows(h) && Extends(h.t, h'.t) && CalledOff(h, h', id)
    requires e in h.t.events
    ensures EventRow(h', e)
  {
    assert EventRow(h, e);
    if h.t.events[e].request == Some(id) {
      assert !EventStarted(h.t.events[e]);
    } else {
      EventStays(h, h', e);
    }
  }

  /** What fan-out adds: new steps and events in pairs about the same alias, all pending,
      one pair at least for each announced alias, and nothing else. */
  ghost predicate FannedOut(
      t: Tables, t': Tables, request: Id, told: seq<Announcement>, pairs: map<Id, Id>, now: Time) {
    && t'.requests == t.requests && t'.recorded == t.recorded
    && (forall s :: s in t'.steps ==> if s in t.steps then t'.steps[s] == t.steps[s] else s in pairs)
    && (forall s :: s in t.steps ==> s in t'.steps && s !in pairs)
    && (forall e :: e in t.events ==> e in t'.events)
    && (forall e :: e in t'.events ==>
          if e in t.events then t'.events[e] == t.events[e]
          else exists s :: s in pairs && pairs[s] == e)
    && (forall s :: s in pairs ==> PairedUp(t, t', request, s, pairs[s], now))
    && (forall a :: a in told ==> exists s :: s in pairs && s in t'.steps && t'.steps[s].about == Some(a))
  }

  ghost predicate PairedUp(t: Tables, t': Tables, request: Id, s: Id, e: Id, now: Time) {
    && s in t'.steps && e in t'.events && s !in t.steps && e !in t.events
    && t'.steps[s].about.Some?
    && t'.steps[s] == NewStep(request, t'.steps[s].about, now)
    && t'.events[e] == NewEvent(Some(s), Some(request), t'.steps[s].about, now)
  }

  lemma {:induction false} FanOutPairsUp(
      t: Tables, request: Id, told: seq<Announcement>, ids: seq<Pair>, now: Time, t': Tables)
    requires |told| == |ids| && FanOut(t, request, told, ids, now) == Ok(t')
    ensures FannedOut(t, t', request, told, EventsOf(ids), now)
    decreases |ids|
  {
    if ids != [] {
      var t1 := Tell(t, request, told[0], ids[0], now);
      FanOutPairsUp(t1, request, told[1..], ids[1..], now, t');
      assert told == [told[0]] + told[1..];
      TellOneMore(t, t1, t', request, told[0], told[1..], ids[0], EventsOf(ids[1..]), now);
    }
  }

  lemma TellOneMore(
      t: Tables, t1: Tables, t': Tables, request: Id, first: Announcement, told: seq<Announcement>, ids: Pair,
      rest: map<Id, Id>, now: Time)
    requires ids.step !in t.steps && ids.event !in t.events && t1 == Tell(t, request, first, ids, now)
    requires FannedOut(t1, t', request, told, rest, now)
    ensures FannedOut(t, t', request, [first] + told, rest[ids.step := ids.event], now)
  {
    var pairs := rest[ids.step := ids.event];
    assert ids.step in t1.steps && ids.event in t1.events;
    PairsPlusOne(t, t1, t', request, first, ids, rest, now);
    EventsPlusOne(t, t1, t', ids, rest);
    ToldPlusOne(t', first, told, ids, rest);
  }

  lemma ToldPlusOne(t': Tables, first: Announcement, told: seq<Announcement>, ids: Pair, rest: map<Id, Id>)
    requires ids.step in t'.steps && t'.steps[ids.step].about == Some(first)
    requires forall a :: a in told ==> exists s :: s in rest && s in t'.steps && t'.steps[s].about == Some(a)
    ensures var pairs := rest[ids.step := ids.event];
      forall a :: a in [first] + told ==> exists s :: s in pairs && s in t'.steps && t'.steps[s].about == Some(a)
  {
    var pairs := rest[ids.step := ids.event];
    forall a | a in [first] + told ensures exists s :: s in pairs && s in t'.steps && t'.steps[s].about == Some(a) {
      if a == first {
        assert ids.step in pairs;
      } else {
        var s :| s in rest && s in t'.steps && t'.steps[s].about == Some(a);
        assert s in pairs;
      }
    }
  }

  lemma PairsPlusOne(
      t: Tables, t1: Tables, t': Tables, request: Id, first: Announcement, ids: Pair, rest: map<Id, Id>, now: Time)
    requires ids.step !in t.steps && ids.event !in t.events && t1 == Tell(t, request, first, ids, now)
    requires ids.step in t'.steps && t'.steps[ids.step] == t1.steps[ids.step]
    requires ids.event in t'.events && t'.events[ids.event] == t1.events[ids.event]
    requires forall s :: s in rest ==> PairedUp(t1, t', request, s, rest[s], now)
    ensures var pairs := rest[ids.step := ids.event];
      forall s :: s in pairs ==> PairedUp(t, t', request, s, pairs[s], now)
  {
    assert PairedUp(t, t', request, ids.step, ids.event, now);
    forall s | s in rest ensures PairedUp(t, t', request, s, rest[s], now) {
      assert PairedUp(t1, t', request, s, rest[s], now);
    }
  }

  lemma EventsPlusOne(t: Tables, t1: Tables, t': Tables, ids: Pair, rest: map<Id, Id>)
    requires ids.event !in t.events && ids.event in t1.events && ids.step !in rest
    requires t1.events == t.events[ids.event := t1.events[ids.event]]
    requires forall e :: e in t'.events ==>
               if e in t1.events then t'.events[e] == t1.events[e] else exists s :: s in rest && rest[s] == e
    ensures var pairs := rest[ids.step := ids.event];
      forall e :: e in t'.events ==>
        if e in t.events then t'.events[e] == t.events[e] else exists s :: s in pairs && pairs[s] == e
  {
    var pairs := rest[ids.step := ids.event];
    forall e | e in t'.events && e !in t.events ensures exists s :: s in pairs && pairs[s] == e {
      if e == ids.event {
        assert pairs[ids.step] == e;
      } else {
        var s :| s in rest && rest[s] == e;
        assert pairs[s] == e;
      }
    }
  }

  /** What creating a deletion adds to the tables. */
  ghost predicate Created(
      h: Trace, h': Trace, request: Id, told: seq<Announcement>, pairs: map<Id, Id>, erasure: Id, t2: Tables,
      now: Time) {
    && request !in h.t.requests && request in h'.t.requests
    && h'.t.requests[request].status == Requested && h'.t.requests[request].deletion
    && h'.t.requests == h.t.requests[request := h'.t.requests[request]]
    && FannedOut(h.t.(requests := h'.t.requests, recorded := h'.t.recorded), t2, request, told, pairs, now)
    && erasure !in t2.steps
    && h'.t == t2.(steps := t2.steps[erasure := NewStep(request, None, now)])
    && h' == h.(t := h'.t, eventOf := h.eventOf + pairs, promised := h.promised + Promises(request, told))
  }

  lemma CreateKeepsRows(
      h: Trace, h': Trace, request: Id, told: seq<Announcement>, pairs: map<Id, Id>, erasure: Id, t2: Tables,
      now: Time)
    requires EventRows(h) && StepRows(h) && Histories(h) && Extends(h.t, h'.t)
    requires Created(h, h', request, told, pairs, erasure, t2, now)
    ensures EventRows(h') && StepRows(h')
  {
    var t1 := h.t.(requests := h'.t.requests, recorded := h'.t.recorded);
    forall e | e in h'.t.events ensures EventRow(h', e) {
      if e in h.t.events {
        assert EventRow(h, e);
        EventStays(h, h', e);
      } else {
        var s :| s in pairs && pairs[s] == e;
        assert PairedUp(t1, t2, request, s, e, now);
      }
    }
    forall s | s in h'.t.steps ensures StepRow(h', s) {
      if s in h.t.steps {
        assert StepRow(h, s);
        StepStays(h, h', s);
      } else if s != erasure {
        assert PairedUp(t1, t2, request, s, pairs[s], now);
      }
    }
  }

  lemma CreateKeepsTheRest(
      h: Trace, h': Trace, request: Id, told: seq<Announcement>, pairs: map<Id, Id>, erasure: Id, t2: Tables, now: Time)
    requires RequestRows(h) && Histories(h) && CompletedOnce(h) && Extends(h.t, h'.t)
    requires Created(h, h', request, told, pairs, erasure, t2, now)
    ensures RequestRows(h') && Histories(h') && CompletedOnce(h')
  {
    var t1 := h.t.(requests := h'.t.requests, recorded := h'.t.recorded);
    assert forall s :: s in pairs ==> PairedUp(t1, t2, request, s, pairs[s], now);
    forall r | r in h'.t.requests ensures RequestRow(h', r) {
      if r != request {
        assert RequestRow(h, r);
        RequestStays(h, h', r);
      }
    }
    CreateKeepsHistories(h, h', request, told, pairs, erasure, t2, now);
  }

  lemma CreateKeepsHistories(
      h: Trace, h': Trace, request: Id, told: seq<Announcement>, pairs: map<Id, Id>, erasure: Id, t2: Tables, now: Time)
    requires Histories(h) && Extends(h.t, h'.t) && Created(h, h', request, told, pairs, erasure, t2, now)
    ensures Histories(h')
  {
    HistoriesStay(h, h');
    var t1 := h.t.(requests := h'.t.requests, recorded := h'.t.recorded);
    assert forall s :: s in pairs ==> PairedUp(t1, t2, request, s, pairs[s], now);
    forall p | p in h'.promised ensures Kept(h', p.0, p.1) {
      if p !in h.promised {
        var s :| s in pairs && s in t2.steps && t2.steps[s].about == Some(p.1);
        assert s in h'.t.steps;
      }
    }
  }

  lemma CreateIsSound(h: Trace, op: Op)
    requires Sound(h) && Possible(h, op) && op.OpCreate? && Next(h, op) != h
    ensures Sound(Next(h, op)) && Extends(h.t, Next(h, op).t)
  {
    var h' := Next(h, op);
    var request, told := op.made.request, Announced(op.found.value, op.products);
    var t1 := Filed(h.t, op.key, op.ask, request);
    if op.ask.deletion {
      var t2 := FanOut(t1, request, told, op.made.pairs, op.now).value;
      FanOutPairsUp(t1, request, told, op.made.pairs, op.now, t2);
      var pairs := EventsOf(op.made.pairs);
      assert Created(h, h', request, told, pairs, op.made.erasure, t2, op.now);
      CreateKeepsRows(h, h', request, told, pairs, op.made.erasure, t2, op.now);
      CreateKeepsTheRest(h, h', request, told, pairs, op.made.erasure, t2, op.now);
    } else {
      FileIsSound(h, h', request);
    }
  }

  lemma FileIsSound(h: Trace, h': Trace, request: Id)
    requires Sound(h) && request !in h.t.requests
    requires h'.t.requests.Keys == h.t.requests.Keys + {request} && h'.t.requests[request].status == Requested
    requires h'.t.requests == h.t.requests[request := h'.t.requests[request]]
    requires h' == h.(t := h.t.(requests := h'.t.requests, recorded := h'.t.recorded))
    ensures Sound(h') && Extends(h.t, h'.t)
  {
    HistoriesStay(h, h');
    StepsMove(h, h', {});
    forall r | r in h'.t.requests ensures RequestRow(h', r) {
      if r != request {
        assert RequestRow(h, r);
        RequestStays(h, h', r);
      } else {
        assert forall s :: s in h.t.steps ==> StepRow(h, s);
      }
    }
  }

  lemma OutboxExtends(h: Trace, op: Op)
    requires Possible(h, op) && Next(h, op) != h
    requires op.OpEmit? || op.OpClaimOutbox? || op.OpDeliver? || op.OpRetry? || op.OpReschedule?
    ensures Extends(h.t, Next(h, op).t)
  {
    var t, t' := h.t, Next(h, op).t;
    assert t'.requests == t.requests;
    assert StepsExtend(t.steps, t'.steps);
    assert EventsExtend(t.events, t'.events);
  }

  lemma ClaimErasuresExtends(t: Tables, t': Tables, now: Time, rows: set<Id>)
    requires rows <= ClaimableErasures(t, now) && t' == t.(steps := ClaimSteps(t.steps, ErasableSteps(t, rows), now))
    ensures Extends(t, t')
  {
    assert forall s :: s in rows ==> s in ClaimableErasures(t, now);
  }

  lemma OneStepExtends(t: Tables, t': Tables, s: Id, v: Step)
    requires s in t.steps && StepExtends(t.steps[s], v) && t'.steps == t.steps[s := v] && t'.events == t.events
    requires RequestsExtend(t.requests, t'.requests)
    ensures Extends(t, t')
  {
  }

  lemma UpdateExtends(t: Tables, id: Id, status: RequestStatus, t': Tables)
    requires UpdateStatus(t, id, status) == Ok(t')
    ensures Extends(t, t')
  {
    assert RequestsExtend(t.requests, t'.requests);
    assert t'.steps == t.steps || t'.steps == CancelSteps(t.steps, id);
    assert t'.events == t.events || t'.events == CancelEvents(t.events, id);
  }

  /** Rows are never removed and what they are about never changes. */
  lemma NextExtends(h: Trace, op: Op)
    requires Sound(h) && Possible(h, op)
    ensures Extends(h.t, Next(h, op).t)
  {
    var h' := Next(h, op);
    if h' != h {
      match op
      case OpCreate(_, _, _, _, _, _) => CreateIsSound(h, op);
      case OpClaimErasures(now, rows, _) => ClaimErasuresExtends(h.t, h'.t, now, rows);
      case OpErase(job) => OneStepExtends(h.t, h'.t, job.step, h'.t.steps[job.step]);
      case OpRetryErasure(job, _, _) => OneStepExtends(h.t, h'.t, job.step, h'.t.steps[job.step]);
      case OpUpdate(id, status) => UpdateExtends(h.t, id, status, h'.t);
      case _ => OutboxExtends(h, op);
    }
  }

  lemma RequestsStay(h: Trace, h': Trace)
    requires RequestRows(h) && CompletedOnce(h) && Extends(h.t, h'.t)
    requires h'.t.steps.Keys == h.t.steps.Keys && h'.t.requests == h.t.requests && h'.completions == h.completions
    ensures RequestRows(h') && CompletedOnce(h')
  {
    forall r | r in h'.t.requests ensures RequestRow(h', r) {
      assert RequestRow(h, r);
      RequestStays(h, h', r);
    }
  }

  lemma EraseIsSound(h: Trace, job: Job)
    requires Sound(h) && job in h.issued && Erase(h.t, job).Ok?
    requires Extends(h.t, Next(h, OpErase(job)).t)
    ensures Sound(Next(h, OpErase(job)))
  {
    var h' := Next(h, OpErase(job));
    assert JobRow(h, job);
    EraseKeepsRows(h, h', job);
    HistoriesStay(h, h');
    assert RequestRow(h, job.request);
    forall r | r in h'.t.requests ensures RequestRow(h', r) {
      assert RequestRow(h, r);
      if r != job.request {
        RequestStays(h, h', r);
      }
    }
  }

  lemma UpdateIsSound(h: Trace, id: Id, status: RequestStatus)
    requires Sound(h) && UpdateStatus(h.t, id, status).Ok?
    requires Extends(h.t, Next(h, OpUpdate(id, status)).t)
    ensures Sound(Next(h, OpUpdate(id, status)))
  {
    var h' := Next(h, OpUpdate(id, status));
    assert RequestRow(h, id);
    if Ended(status) {
      CancelKeepsRows(h, h', id, status);
    } else {
      AdvanceKeepsRows(h, h', id, status);
    }
    HistoriesStay(h, h');
    forall r | r in h'.t.requests ensures RequestRow(h', r) {
      assert RequestRow(h, r);
      if r != id {
        RequestStays(h, h', r);
      }
    }
  }

  lemma ClaimErasuresIsSound(h: Trace, op: Op)
    requires Sound(h) && op.OpClaimErasures? && Possible(h, op) && ClaimErasures(h.t, op.now, op.rows).Ok?
    requires Extends(h.t, Next(h, op).t)
    ensures Sound(Next(h, op))
  {
    var h' := Next(h, op);
    ClaimErasuresKeepsRows(h, h', op.now, op.rows);
    RequestsStay(h, h');
    HistoriesStay(h, h');
    forall j | j in h'.issued ensures JobRow(h', j) {
      if j !in h.issued {
        var s :| s in ErasableSteps(h.t, op.rows) && j == JobFor(h.t, s);
        assert s in ClaimableErasures(h.t, op.now);
      }
    }
  }

  /** The part of soundness an outbox step does not touch. */
  lemma OutboxKeepsTheRest(h: Trace, h': Trace)
    requires Sound(h) && Extends(h.t, h'.t) && h'.t.steps.Keys == h.t.steps.Keys && h'.t.requests == h.t.requests
    requires h' == h.(t := h'.t, claimedEvents := h'.claimedEvents) && h'.claimedEvents <= h'.t.events.Keys
    requires EventRows(h') && StepRows(h')
    ensures Sound(h')
  {
    RequestsStay(h, h');
    HistoriesStay(h, h');
  }

  lemma DeliverIsSound(h: Trace, h': Trace, id: Id, receipt: Receipt)
    requires Sound(h) && Extends(h.t, h'.t) && MarkDelivered(h.t, id, receipt) == Ok(h'.t) && h' == h.(t := h'.t)
    ensures Sound(h')
  {
    DeliverKeepsRows(h, h', id, receipt);
    HistoriesStay(h, h');
    OutboxKeepsTheRest(h, h');
  }

  lemma ClaimOutboxIsSound(h: Trace, h': Trace, now: Time, rows: set<Id>)
    requires Sound(h) && Extends(h.t, h'.t) && rows <= ClaimableEvents(h.t, now)
    requires ClaimOutbox(h.t, now, rows) == Ok(h'.t)
    requires h' == h.(t := h'.t, claimedEvents := h.claimedEvents + TakenEvents(h.t, rows))
    ensures Sound(h')
  {
    ClaimOutboxKeepsRows(h, h', now, rows);
    OutboxKeepsTheRest(h, h');
  }

  lemma OutboxIsSound(h: Trace, op: Op)
    requires Sound(h) && Possible(h, op) && Next(h, op) != h && Extends(h.t, Next(h, op).t)
    requires op.OpEmit? || op.OpClaimOutbox? || op.OpDeliver? || op.OpRetry? || op.OpReschedule?
    ensures Sound(Next(h, op))
  {
    var h' := Next(h, op);
    match op
    case OpClaimOutbox(now, rows, _) => ClaimOutboxIsSound(h, h', now, rows);
    case OpDeliver(id, receipt) => DeliverIsSound(h, h', id, receipt);
    case OpEmit(id, now) =>
      EmitKeepsRows(h, h', id, now);
      OutboxKeepsTheRest(h, h');
    case OpRetry(id, _, _) =>
      RetryOutboxKeepsRows(h, h', id, h'.t.events[id]);
      OutboxKeepsTheRest(h, h');
    case OpReschedule(id, _) =>
      RetryOutboxKeepsRows(h, h', id, h'.t.events[id]);
      OutboxKeepsTheRest(h, h');
    case _ =>
  }

  lemma StepIsSound(h: Trace, op: Op)
    requires Sound(h) && Possible(h, op)
    ensures Sound(Next(h, op))
  {
    var h' := Next(h, op);
    NextExtends(h, op);
    if h' != h {
      match op
      case OpCreate(_, _, _, _, _, _) => CreateIsSound(h, op);
      case OpClaimErasures(_, _, _) => ClaimErasuresIsSound(h, op);
      case OpErase(job) => EraseIsSound(h, job);
      case OpRetryErasure(job, at, max) =>
        assert JobRow(h, job);
        RetryErasureKeepsRows(h, h', job, at, max);
        RequestsStay(h, h');
        HistoriesStay(h, h');
      case OpUpdate(id, status) => UpdateIsSound(h, id, status);
      case _ => OutboxIsSound(h, op);
    }
  }

  /** However claims, lease expiries, retries and stale workers interleave. */
  lemma {:induction false} RunIsSound(ops: seq<Op>)
    requires Legal(ops)
    ensures Sound(Run(ops))
    decreases |ops|
  {
    if ops != [] {
      RunIsSound(ops[..|ops| - 1]);
      StepIsSound(Run(ops[..|ops| - 1]), ops[|ops| - 1]);
    }
  }

  // ---------------------------------------------------------------- what runs keep

  /** What later states owe to an earlier one: histories grow, rows stay, and delivered,
      finished, withdrawn and closed are for good. */
  ghost predicate Follows(h: Trace, h': Trace) {
    && Extends(h.t, h'.t)
    && h.promised <= h'.promised && h.issued <= h'.issued
    && h.claimedEvents <= h'.claimedEvents && h.claimedSteps <= h'.claimedSteps
    && (forall r ::
        r in h.t.requests && !Open(h.t.requests[r].status) ==> h'.t.requests[r].status == h.t.requests[r].status)
    && (forall s ::
        s in h.t.steps && h.t.steps[s].status in {Finished, Withdrawn} ==> h'.t.steps[s].status == h.t.steps[s].status)
    && (forall e :: e in h.t.events && h.t.events[e].status in {Delivered, Withdrawn} ==>
          h'.t.events[e].status == h.t.events[e].status && h'.t.events[e].receipt == h.t.events[e].receipt)
  }

  lemma FollowsChain(a: Trace, b: Trace, c: Trace)
    requires Follows(a, b) && Follows(b, c)
    ensures Follows(a, c)
  {
    assert forall s :: s in a.t.steps ==> StepExtends(a.t.steps[s], b.t.steps[s]);
    assert forall e :: e in a.t.events ==> EventExtends(a.t.events[e], b.t.events[e]);
  }

  lemma NextFollows(h: Trace, op: Op)
    requires Sound(h) && Possible(h, op)
    ensures Follows(h, Next(h, op))
  {
    NextExtends(h, op);
    var h' := Next(h, op);
    if h' != h {
      RequestsCloseForGood(h, op);
      match op
      case OpCreate(_, _, _, _, _, _) => CreateFollows(h, op);
      case OpDeliver(id, receipt) => DeliverFollows(h, id, receipt);
      case OpUpdate(id, status) => UpdateFollows(h, h', id, status);
      case OpClaimErasures(now, rows, _) => ClaimErasuresFollows(h, h', now, rows);
      case OpClaimOutbox(now, rows, _) => ClaimOutboxFollows(h, h', now, rows);
      case _ =>
    }
  }

  lemma ClaimOutboxFollows(h: Trace, h': Trace, now: Time, rows: set<Id>)
    requires rows <= ClaimableEvents(h.t, now) && Extends(h.t, h'.t)
    requires h'.t == h.t.(events := ClaimEvents(h.t.events, TakenEvents(h.t, rows), now))
    requires h' == h.(t := h'.t, claimedEvents := h.claimedEvents + TakenEvents(h.t, rows))
    ensures Follows(h, h')
  {
  }

  lemma ClaimErasuresFollows(h: Trace, h': Trace, now: Time, rows: set<Id>)
    requires rows <= ClaimableErasures(h.t, now) && Extends(h.t, h'.t) && h.issued <= h'.issued
    requires h'.t == h.t.(steps := ClaimSteps(h.t.steps, ErasableSteps(h.t, rows), now))
    requires h' == h.(t := h'.t, claimedSteps := h.claimedSteps + ErasableSteps(h.t, rows), issued := h'.issued)
    ensures Follows(h, h')
  {
  }

  lemma RequestsCloseForGood(h: Trace, op: Op)
    requires Sound(h) && Possible(h, op) && Extends(h.t, Next(h, op).t)
    ensures forall r ::
        r in h.t.requests && !Open(h.t.requests[r].status) ==>
            Next(h, op).t.requests[r].status == h.t.requests[r].status
  {
    if op.OpCreate? && Next(h, op) != h {
      CreateFollows(h, op);
    }
  }

  lemma CreateFollows(h: Trace, op: Op)
    requires Possible(h, op) && op.OpCreate? && Next(h, op) != h
    ensures var h' := Next(h, op);
      && (forall r :: r in h.t.requests ==> r in h'.t.requests && h'.t.requests[r] == h.t.requests[r])
      && (forall s :: s in h.t.steps ==> s in h'.t.steps && h'.t.steps[s] == h.t.steps[s])
      && (forall e :: e in h.t.events ==> e in h'.t.events && h'.t.events[e] == h.t.events[e])
  {
    if op.ask.deletion {
      var t1, told := Filed(h.t, op.key, op.ask, op.made.request), Announced(op.found.value, op.products);
      var t2 := FanOut(t1, op.made.request, told, op.made.pairs, op.now).value;
      FanOutPairsUp(t1, op.made.request, told, op.made.pairs, op.now, t2);
    }
  }

  lemma DeliverFollows(h: Trace, id: Id, receipt: Receipt)
    requires Sound(h) && Extends(h.t, Next(h, OpDeliver(id, receipt)).t) && Next(h, OpDeliver(id, receipt)) != h
    ensures Follows(h, Next(h, OpDeliver(id, receipt)))
  {
    assert EventRow(h, id);
    if h.t.events[id].step.Some? {
      assert StepRow(h, h.t.events[id].step.value);
    }
  }

  lemma UpdateFollows(h: Trace, h': Trace, id: Id, status: RequestStatus)
    requires UpdateStatus(h.t, id, status) == Ok(h'.t) && h' == h.(t := h'.t) && Extends(h.t, h'.t)
    ensures Follows(h, h')
  {
    assert h'.t.steps == h.t.steps || h'.t.steps == CancelSteps(h.t.steps, id);
    assert h'.t.events == h.t.events || h'.t.events == CancelEvents(h.t.events, id);
    assert h'.t.requests == h.t.requests[id := h'.t.requests[id]];
  }

  lemma {:induction false} PrefixIsLegal(ops: seq<Op>, k: nat)
    requires Legal(ops) && k <= |ops|
    ensures Legal(ops[..k])
    decreases |ops|
  {
    if k == |ops| {
      assert ops[..k] == ops;
    } else {
      PrefixIsLegal(ops[..|ops| - 1], k);
      assert ops[..|ops| - 1][..k] == ops[..k];
    }
  }

  /** The states after i and after i + 1 steps. */
  lemma RunUnfolds(ops: seq<Op>, i: nat)
    requires Legal(ops) && i < |ops|
    ensures Legal(ops[..i]) && Legal(ops[..i + 1]) && Possible(Run(ops[..i]), ops[i])
    ensures Run(ops[..i + 1]) == Next(Run(ops[..i]), ops[i])
  {
    PrefixIsLegal(ops, i);
    PrefixIsLegal(ops, i + 1);
    assert ops[..i + 1][..i] == ops[..i];
  }

  /** Delivered, finished, withdrawn, completed, rejected and cancelled are absorbing. */
  lemma {:induction false} RunFollows(ops: seq<Op>, i: nat)
    requires Legal(ops) && i <= |ops|
    ensures Legal(ops[..i]) && Follows(Run(ops[..i]), Run(ops))
    decreases |ops| - i
  {
    PrefixIsLegal(ops, i);
    if i == |ops| {
      assert ops[..i] == ops;
    } else {
      RunUnfolds(ops, i);
      RunIsSound(ops[..i]);
      NextFollows(Run(ops[..i]), ops[i]);
      RunFollows(ops, i + 1);
      FollowsChain(Run(ops[..i]), Run(ops[..i + 1]), Run(ops));
    }
  }

  /** Where a row of the next state comes from: a creation that found its subject, or an
      earlier row, completed only by an erasure. */
  ghost predicate RequestFrom(h: Trace, op: Op, id: Id, row: Request) {
    if id in h.t.requests then
      && row.(status := h.t.requests[id].status) == h.t.requests[id]
      && (row.status == Completed && h.t.requests[id].status != Completed ==>
            op.OpErase? && id == op.job.request && Erase(h.t, op.job).Ok?)
    else
      && op.OpCreate? && id == op.made.request && op.found.Ok?
      && row == Request(op.ask.deletion, op.ask.subject, op.ask.all, op.ask.product, Requested)
  }

  lemma RequestsCome(h: Trace, op: Op)
    requires Possible(h, op)
    ensures var h' := Next(h, op);
      forall id :: id in h'.t.requests ==> RequestFrom(h, op, id, h'.t.requests[id])
  {
    if op.OpCreate? && Next(h, op) != h && op.ask.deletion {
      var t1, told := Filed(h.t, op.key, op.ask, op.made.request), Announced(op.found.value, op.products);
      var t2 := FanOut(t1, op.made.request, told, op.made.pairs, op.now).value;
      FanOutPairsUp(t1, op.made.request, told, op.made.pairs, op.now, t2);
      assert Next(h, op).t.requests == t1.requests;
    }
  }

  // ---------------------------------------------------------------- main results

  /** Some step or event of the request was ever claimed. */
  ghost predicate EverClaimed(h: Trace, request: Id) {
    || (exists s :: s in h.claimedSteps && s in h.t.steps && h.t.steps[s].request == request)
    || (exists e :: e in h.claimedEvents && e in h.t.events && h.t.events[e].request == Some(request))
  }

  /** A request can be rejected or cancelled exactly when it is open and none of its steps
      or events was ever claimed. */
  lemma CancellableIffNeverClaimed(ops: seq<Op>, id: Id, status: RequestStatus)
    requires Legal(ops) && Ended(status)
    ensures var h := Run(ops);
      UpdateStatus(h.t, id, status).Ok? <==>
      id in h.t.requests && Open(h.t.requests[id].status) && !EverClaimed(h, id)
  {
    RunIsSound(ops);
    var h := Run(ops);
    if id in h.t.requests && Open(h.t.requests[id].status) {
      StartedIffClaimed(h, id);
    }
  }

  lemma StartedIffClaimed(h: Trace, id: Id)
    requires Sound(h) && id in h.t.requests && Open(h.t.requests[id].status)
    ensures Started(h.t, id) <==> EverClaimed(h, id)
  {
    if EverClaimed(h, id) {
      if s :| s in h.claimedSteps && s in h.t.steps && h.t.steps[s].request == id {
        assert StepRow(h, s);
        assert StepStarted(h.t.steps[s]);
      } else {
        var e :| e in h.claimedEvents && e in h.t.events && h.t.events[e].request == Some(id);
        assert EventRow(h, e);
        assert EventStarted(h.t.events[e]);
      }
    }
    if Started(h.t, id) {
      if e :| e in h.t.events && h.t.events[e].request == Some(id) && EventStarted(h.t.events[e]) {
        assert EventRow(h, e);
        assert e in h.claimedEvents;
      } else {
        var s :| s in h.t.steps && h.t.steps[s].request == id && StepStarted(h.t.steps[s]);
        StartedStepIsClaimed(h, id, s);
      }
    }
  }

  /** A started metric step means a delivered, hence claimed, event. */
  lemma StartedStepIsClaimed(h: Trace, id: Id, s: Id)
    requires Sound(h) && id in h.t.requests && Open(h.t.requests[id].status)
    requires s in h.t.steps && h.t.steps[s].request == id && StepStarted(h.t.steps[s])
    ensures EverClaimed(h, id)
  {
    assert StepRow(h, s);
    if h.t.steps[s].about.Some? {
      var e := h.eventOf[s];
      assert EventRow(h, e);
      assert e in h.claimedEvents;
    } else {
      assert s in h.claimedSteps;
    }
  }

  /** Once a request is rejected or cancelled it stays so, and none of its steps or events
      is claimed in any later state. */
  lemma CalledOffIsNeverClaimed(ops: seq<Op>, i: nat, id: Id)
    requires Legal(ops) && i <= |ops| && Legal(ops[..i])
    requires id in Run(ops[..i]).t.requests && Ended(Run(ops[..i]).t.requests[id].status)
    ensures id in Run(ops).t.requests && Run(ops).t.requests[id].status == Run(ops[..i]).t.requests[id].status
    ensures !EverClaimed(Run(ops), id)
  {
    RunFollows(ops, i);
    RunIsSound(ops);
    var h := Run(ops);
    assert id in h.t.requests;
    forall s | s in h.claimedSteps && s in h.t.steps ensures h.t.steps[s].request != id {
      assert StepRow(h, s);
    }
    forall e | e in h.claimedEvents && e in h.t.events ensures h.t.events[e].request != Some(id) {
      assert EventRow(h, e);
    }
  }

  /** No two committed erasures complete the same request. */
  lemma CompletedAtMostOnce(ops: seq<Op>, i: nat, j: nat)
    requires Legal(ops) && i < j < |ops| && ops[i].OpErase? && ops[j].OpErase?
    requires Legal(ops[..i]) && Legal(ops[..j])
    requires Erase(Run(ops[..i]).t, ops[i].job).Ok? && Erase(Run(ops[..j]).t, ops[j].job).Ok?
    ensures ops[i].job.request != ops[j].job.request
  {
    RunUnfolds(ops, i);
    PrefixIsLegal(ops, j);
    assert ops[..j][..i + 1] == ops[..i + 1];
    RunFollows(ops[..j], i + 1);
    var h := Run(ops[..i + 1]);
    assert h.t.requests[ops[i].job.request].status == Completed;
  }

  /** The alias was told: a step and an event of the request are about it, and the event
      was delivered with a completed receipt naming the event itself. */
  ghost predicate Acknowledged(t: Tables, request: Id, a: Announcement) {
    exists s, e :: s in t.steps && e in t.events && AcknowledgedBy(t, request, a, s, e)
  }

  ghost predicate AcknowledgedBy(t: Tables, request: Id, a: Announcement, s: Id, e: Id)
    requires s in t.steps && e in t.events
  {
    && t.steps[s].request == request && t.steps[s].about == Some(a) && t.steps[s].status == Finished
    && t.events[e].step == Some(s) && t.events[e].request == Some(request) && t.events[e].about == Some(a)
    && t.events[e].status == Delivered && t.events[e].receipt == Some(Receipt(e, true))
  }

  /** A completed request has told every alias announced when it was created. */
  lemma CompletionNeedsReceipts(ops: seq<Op>, i: nat, a: Announcement)
    requires Legal(ops) && i < |ops| && ops[i].OpCreate? && ops[i].ask.deletion && Legal(ops[..i])
    requires ops[i].key !in Run(ops[..i]).t.recorded && Possible(Run(ops[..i]), ops[i])
    requires Create(Run(ops[..i]).t, ops[i].key, ops[i].ask, ops[i].found, ops[i].products, ops[i].made, ops[i].now).Ok?
    requires a in Announced(ops[i].found.value, ops[i].products)
    requires ops[i].made.request in Run(ops).t.requests && Run(ops).t.requests[ops[i].made.request].status == Completed
    ensures Acknowledged(Run(ops).t, ops[i].made.request, a)
  {
    RunUnfolds(ops, i);
    var request := ops[i].made.request;
    assert (request, a) in Run(ops[..i + 1]).promised;
    RunFollows(ops, i + 1);
    RunIsSound(ops);
    KeptIsAcknowledged(Run(ops), request, a);
  }

  lemma KeptIsAcknowledged(h: Trace, request: Id, a: Announcement)
    requires Sound(h) && (request, a) in h.promised
    requires request in h.t.requests && h.t.requests[request].status == Completed
    ensures Acknowledged(h.t, request, a)
  {
    assert Kept(h, (request, a).0, (request, a).1);
    var s :| s in h.t.steps && h.t.steps[s].request == request && h.t.steps[s].about == Some(a);
    assert RequestRow(h, request) && StepRow(h, s);
    var e := h.eventOf[s];
    assert EventRow(h, e);
    assert AcknowledgedBy(h.t, request, a, s, e);
  }

  /** An erasure that commits was done by the step's latest claim, for what its request
      asked; earlier workers of the same step hold older versions. */
  lemma ErasureIsByLatestClaim(ops: seq<Op>, job: Job, other: Job)
    requires Legal(ops) && job in Run(ops).issued && other in Run(ops).issued && other.step == job.step
    requires Erase(Run(ops).t, job).Ok?
    ensures var t := Run(ops).t;
      && other.version <= job.version && (other.version == job.version ==> other == job)
      && job.request in t.requests && Open(t.requests[job.request].status)
      && TargetOf(job.subject, job.all, job.product)
         == TargetOf(t.requests[job.request].subject, t.requests[job.request].all, t.requests[job.request].product)
  {
    RunIsSound(ops);
    assert JobRow(Run(ops), job) && JobRow(Run(ops), other);
  }

  /** A worker that is not overtaken can commit: the erasure of a job just claimed succeeds,
      and closes exactly its step and its request. */
  lemma ClaimedJobCanErase(ops: seq<Op>, now: Time, rows: set<Id>, limit: nat, s: Id)
    requires Legal(ops) && OldestErasures(Run(ops).t, now, rows, limit) && ClaimErasures(Run(ops).t, now, rows).Ok?
    requires s in ErasableSteps(Run(ops).t, rows)
    ensures var (claimed, jobs) := ClaimErasures(Run(ops).t, now, rows).value;
      var job := JobFor(Run(ops).t, s);
      && job in jobs && Erase(claimed, job).Ok?
      && Erase(claimed, job).value.requests[job.request].status == Completed
      && Erase(claimed, job).value.steps[s].status == Finished
      && Erase(claimed, job).value.events == Run(ops).t.events
  {
    RunIsSound(ops);
    var t := Run(ops).t;
    assert StepRow(Run(ops), s) && s in ClaimableErasures(t, now);
    ClaimedMetricsStay(t, now, rows, t.steps[s].request);
  }

  /** Claims touch erasure steps only. */
  lemma ClaimedMetricsStay(t: Tables, now: Time, rows: set<Id>, request: Id)
    requires rows <= ClaimableErasures(t, now) && MetricStepsComplete(t, request)
    ensures MetricStepsComplete(t.(steps := ClaimSteps(t.steps, ErasableSteps(t, rows), now)), request)
  {
    assert forall s :: s in rows ==> s in ClaimableErasures(t, now);
  }

  /** A retry does not check its job's version: one from any earlier worker takes the lease
      from the worker that could have committed, whose erasure then fails. */
  lemma StaleRetryBreaksLease(ops: seq<Op>, stale: Job, current: Job, at: Time, max: nat)
    requires Legal(ops) && stale in Run(ops).issued && current in Run(ops).issued && stale.step == current.step
    requires Erase(Run(ops).t, current).Ok?
    ensures RetryErasure(Run(ops).t, stale, at, max).Ok?
    ensures Erase(RetryErasure(Run(ops).t, stale, at, max).value, current) == Err(Conflict)
  {
    RunIsSound(ops);
    assert JobRow(Run(ops), current);
  }

  // ------------------------------------------------- the transition table, and fan-out

  /** A request's status changes along the transition table in every step but one: an erasure
      completes a request that was never moved to processing. */
  lemma TransitionIsValidIff(h: Trace, op: Op, id: Id)
    requires Sound(h) && Possible(h, op) && id in h.t.requests
    ensures id in Next(h, op).t.requests
    ensures var before, after := h.t.requests[id].status, Next(h, op).t.requests[id].status;
      before != after ==> (ValidTransition(before, after) <==> !(op.OpErase? && before == Requested))
  {
    NextExtends(h, op);
    if !op.OpUpdate? && !op.OpErase? {
      OthersKeepStatus(h, op, id);
    }
  }

  lemma OthersKeepStatus(h: Trace, op: Op, id: Id)
    requires Possible(h, op) && id in h.t.requests && !op.OpUpdate? && !op.OpErase?
    ensures id in Next(h, op).t.requests && Next(h, op).t.requests[id] == h.t.requests[id]
  {
    if op.OpCreate? && Next(h, op) != h {
      CreateFollows(h, op);
    }
  }

  /** What is announced: exactly the aliases of a registered product with its own audience. */
  lemma {:induction false} AnnouncedIff(aliases: seq<Announcement>, products: map<Id, Id>, a: Announcement)
    ensures a in Announced(aliases, products) <==>
            a in aliases && a.product in products && products[a.product] == a.audience
  {
    if aliases != [] {
      AnnouncedIff(aliases[1..], products, a);
      assert aliases == [aliases[0]] + aliases[1..];
    }
  }

  /** Every row that fan-out adds is about one of the aliases told. */
  ghost predicate OnlyAbout(t: Tables, t': Tables, told: seq<Announcement>) {
    && (forall s :: s in t'.steps && s !in t.steps ==> t'.steps[s].about.Some? && t'.steps[s].about.value in told)
    && (forall e :: e in t'.events && e !in t.events ==> t'.events[e].about.Some? && t'.events[e].about.value in told)
  }

  lemma {:induction false} FanOutIsOnlyAbout(
      t: Tables, request: Id, told: seq<Announcement>, ids: seq<Pair>, now: Time, t': Tables)
    requires |told| == |ids| && FanOut(t, request, told, ids, now) == Ok(t')
    ensures OnlyAbout(t, t', told)
    decreases |ids|
  {
    if ids != [] {
      FanOutIsOnlyAbout(Tell(t, request, told[0], ids[0], now), request, told[1..], ids[1..], now, t');
      FanOutPairsUp(Tell(t, request, told[0], ids[0], now), request, told[1..], ids[1..], now, t');
      assert told == [told[0]] + told[1..];
    }
  }

  /** The alias is among those found, but not of a registered product with that audience. */
  predicate Unregistered(op: Op, a: Announcement) {
    op.OpCreate? && !(a.product in op.products && op.products[a.product] == a.audience)
  }

  /** A creation gives an unregistered alias no step, no event and no promise. */
  lemma UnregisteredIsSkipped(h: Trace, op: Op, a: Announcement)
    requires Possible(h, op) && Unregistered(op, a)
    ensures var h' := Next(h, op);
      && (forall s :: s in h'.t.steps && s !in h.t.steps ==> h'.t.steps[s].about != Some(a))
      && (forall e :: e in h'.t.events && e !in h.t.events ==> h'.t.events[e].about != Some(a))
      && (forall p :: p in h'.promised && p !in h.promised ==> p.1 != a)
  {
    if Next(h, op) != h && op.ask.deletion {
      var t1, told := Filed(h.t, op.key, op.ask, op.made.request), Announced(op.found.value, op.products);
      AnnouncedIff(op.found.value, op.products, a);
      var t2 := FanOut(t1, op.made.request, told, op.made.pairs, op.now).value;
      FanOutIsOnlyAbout(t1, op.made.request, told, op.made.pairs, op.now, t2);
    }
  }

  // ------------------------------------------------------------------ runs that show it

  /** One deletion of person 1 that finds one alias, of a product nobody registered. */
  const SKIPPED: Announcement := Announcement(5, 6, 7)
  const KEY: IdempotencyKey := IdempotencyKey(1, 1)
  const ASK: Ask := Ask(true, Person(1), true, None)
  const CREATE: Op := OpCreate(KEY, ASK, Ok([SKIPPED]), map[], FreshIds(10, 20, []), 0)
  const CLAIM: Op := OpClaimErasures(0, {20}, 1)
  const RECLAIM: Op := OpClaimErasures(LEASE + 1, {20}, 1)

  function JobAt(version: nat): Job {
    Job(20, 10, Person(1), true, None, version)
  }

  function RowAt(status: JobStatus, attempts: nat, until: Option<Time>, version: nat): Step {
    Step(10, None, status, attempts, 0, 0, until, version)
  }

  /** The tables of these runs, which differ in one step row and the request's status. */
  function Shown(step: Step, status: RequestStatus): Tables {
    Tables(map[10 := Request(true, Person(1), true, None, status)], map[20 := step], map[],
        map[KEY := Recorded(10, ASK)])
  }

  lemma RunAppends(ops: seq<Op>, op: Op)
    requires Legal(ops) && Possible(Run(ops), op)
    ensures Legal(ops + [op]) && Run(ops + [op]) == Next(Run(ops), op)
  {
    assert (ops + [op])[..|ops + [op]| - 1] == ops;
  }

  lemma AfterCreate()
    ensures Legal([CREATE])
    ensures Run([CREATE]) == Trace(Shown(RowAt(Pending, 0, None, 1), Requested), {}, {}, {}, [], map[], {})
  {
    assert Announced([SKIPPED], map[]) == [] by {
      assert [SKIPPED][1..] == [];
    }
    RunAppends([], CREATE);
    assert [] + [CREATE] == [CREATE];
    var t := Shown(RowAt(Pending, 0, None, 1), Requested);
    assert Create(EMPTY, KEY, ASK, Ok([SKIPPED]), map[], FreshIds(10, 20, []), 0) == Ok((t, 10));
    assert Promises(10, []) == {};
  }

  /** A claim of the one erasure step, whenever it is claimable. */
  lemma ClaimTakesStep(h: Trace, row: Step, now: Time)
    requires h.t == Shown(row, Requested) && row.about.None? && row.request == 10 && ErasureClaimable(row, now)
    ensures Possible(h, OpClaimErasures(now, {20}, 1))
    ensures Next(h, OpClaimErasures(now, {20}, 1))
         == h.(t := Shown(ClaimStep(row, now), Requested),
               claimedSteps := h.claimedSteps + {20},
               issued := h.issued + {JobAt(row.version + 1)})
  {
    assert ErasableSince(h.t, now).Keys == {20};
    assert Erasable(h.t, row);
    assert ErasableSteps(h.t, {20}) == {20};
    assert ClaimSteps(h.t.steps, {20}, now) == map[20 := ClaimStep(row, now)];
    assert JobFor(h.t, 20) == JobAt(row.version + 1);
    assert JobsFor(h.t, {20}) == {JobFor(h.t, 20)};
  }

  lemma AfterClaim()
    ensures Legal([CREATE, CLAIM])
    ensures Run([CREATE, CLAIM])
         == Trace(Shown(RowAt(Processing, 1, Some(LEASE), 2), Requested), {}, {20}, {JobAt(2)}, [], map[], {})
  {
    AfterCreate();
    ClaimTakesStep(Run([CREATE]), RowAt(Pending, 0, None, 1), 0);
    RunAppends([CREATE], CLAIM);
    assert [CREATE] + [CLAIM] == [CREATE, CLAIM];
  }

  lemma AfterReclaim()
    ensures Legal([CREATE, CLAIM, RECLAIM])
    ensures var h := Run([CREATE, CLAIM, RECLAIM]);
      && h.t == Shown(RowAt(Processing, 2, Some(LEASE + 1 + LEASE), 3), Requested)
      && h.issued == {JobAt(2), JobAt(3)}
  {
    AfterClaim();
    ClaimTakesStep(Run([CREATE, CLAIM]), RowAt(Processing, 1, Some(LEASE), 2), LEASE + 1);
    RunAppends([CREATE, CLAIM], RECLAIM);
    assert [CREATE, CLAIM] + [RECLAIM] == [CREATE, CLAIM, RECLAIM];
  }

  /** The forbidden edge is taken: created, claimed and erased, the request goes from
      requested to completed. */
  lemma RequestedIsCompleted()
    ensures Legal([CREATE, CLAIM]) && Legal([CREATE, CLAIM, OpErase(JobAt(2))])
    ensures var before, after := Run([CREATE, CLAIM]).t, Run([CREATE, CLAIM, OpErase(JobAt(2))]).t;
      && before.requests.Keys == {10} == after.requests.Keys
      && before.requests[10].status == Requested && after.requests[10].status == Completed
      && !ValidTransition(Requested, Completed)
  {
    AfterClaim();
    RunAppends([CREATE, CLAIM], OpErase(JobAt(2)));
    assert [CREATE, CLAIM] + [OpErase(JobAt(2))] == [CREATE, CLAIM, OpErase(JobAt(2))];
  }

  /** And it is completed without a step or event for the alias that was found but not
      registered. */
  lemma CompletedWithoutTelling()
    ensures Legal([CREATE, CLAIM, OpErase(JobAt(2))])
    ensures SKIPPED in CREATE.found.value && Unregistered(CREATE, SKIPPED)
    ensures var t := Run([CREATE, CLAIM, OpErase(JobAt(2))]).t;
      && 10 in t.requests && t.requests[10].status == Completed && t.events == map[]
      && forall s :: s in t.steps ==> t.steps[s].about.None?
  {
    AfterClaim();
    RequestedIsCompleted();
    RunAppends([CREATE, CLAIM], OpErase(JobAt(2)));
    assert [CREATE, CLAIM] + [OpErase(JobAt(2))] == [CREATE, CLAIM, OpErase(JobAt(2))];
    assert [SKIPPED][0] == SKIPPED;
  }

  /** Two workers hold jobs of one step after the first one's lease ran out; the second could
      commit until the first one's retry takes the lease from it. */
  lemma StaleRetryHappens()
    ensures Legal([CREATE, CLAIM, RECLAIM])
    ensures var h := Run([CREATE, CLAIM, RECLAIM]);
      && JobAt(2) in h.issued && JobAt(3) in h.issued && JobAt(2).step == JobAt(3).step
      && Erase(h.t, JobAt(3)).Ok?
      && RetryErasure(h.t, JobAt(2), LEASE + 2, 5).Ok?
      && Erase(RetryErasure(h.t, JobAt(2), LEASE + 2, 5).value, JobAt(3)) == Err(Conflict)
  {
    AfterReclaim();
    StaleRetryBreaksLease([CREATE, CLAIM, RECLAIM], JobAt(2), JobAt(3), LEASE + 2, 5);
  }

  // ------------------------------------------------------------- the transactions

  /** The claim loop over the outbox rows: closed requests are passed over. */
  method ClaimEach(t: Tables, now: Time, rows: set<Id>) returns (r: Result<map<Id, Event>>)
    requires rows <= t.events.Keys
    ensures r.Ok? <==> ClaimOutbox(t, now, rows).Ok?
    ensures r.Ok? ==> r.value == ClaimOutbox(t, now, rows).value.events
    ensures r.Err? ==> r.error == NotFound
  {
    var events, rest := t.events, rows;
    while rest != {}
      invariant rest <= rows
      invariant forall e ::
          e in rows && e !in rest && t.events[e].request.Some? ==> t.events[e].request.value in t.requests
      invariant events.Keys == t.events.Keys
      invariant forall e :: e in t.events ==>
                  events[e] == if e in rows && e !in rest && Taken(t, t.events[e])
                      then ClaimEvent(t.events[e], now) else t.events[e]
      decreases rest
    {
      var e :| e in rest;
      rest := rest - {e};
      var row := t.events[e];
      if row.request.Some? && row.request.value !in t.requests {
        return Err(NotFound);
      }
      if row.request.None? || Open(t.requests[row.request.value].status) {
        events := events[e := ClaimEvent(row, now)];
      }
    }
    assert events == ClaimEvents(t.events, TakenEvents(t, rows), now);
    return Ok(events);
  }

  method CheckMetricSteps(t: Tables, request: Id) returns (complete: bool)
    ensures complete == MetricStepsComplete(t, request)
  {
    var rest := t.steps.Keys;
    while rest != {}
      invariant rest <= t.steps.Keys
      invariant forall s ::
          s in t.steps && s !in rest && t.steps[s].request == request && t.steps[s].about.Some? ==>
              t.steps[s].status == Finished
      decreases rest
    {
      var s :| s in rest;
      rest := rest - {s};
      if t.steps[s].request == request && t.steps[s].about.Some? && t.steps[s].status != Finished {
        return false;
      }
    }
    return true;
  }

  /** The claim loop over the erasure steps. */
  method LeaseEach(t: Tables, now: Time, rows: set<Id>) returns (r: Result<(map<Id, Step>, set<Job>)>)
    requires rows <= t.steps.Keys
    ensures r.Ok? <==> ClaimErasures(t, now, rows).Ok?
    ensures r.Ok? ==> r.value == (ClaimErasures(t, now, rows).value.0.steps, ClaimErasures(t, now, rows).value.1)
    ensures r.Err? ==> r.error == NotFound
  {
    var steps, rest, jobs := t.steps, rows, {};
    while rest != {}
      invariant rest <= rows
      invariant forall s :: s in rows && s !in rest ==> t.steps[s].request in t.requests
      invariant steps.Keys == t.steps.Keys
      invariant forall s :: s in t.steps ==>
                  steps[s] == if s in rows && s !in rest && Erasable(t, t.steps[s])
                      then ClaimStep(t.steps[s], now) else t.steps[s]
      invariant jobs == set s | s in rows && s !in rest && Erasable(t, t.steps[s]) :: JobFor(t, s)
      decreases rest
    {
      var s :| s in rest;
      rest := rest - {s};
      if t.steps[s].request !in t.requests {
        return Err(NotFound);
      }
      var complete := CheckMetricSteps(t, t.steps[s].request);
      if Open(t.requests[t.steps[s].request].status) && complete {
        steps := steps[s := ClaimStep(t.steps[s], now)];
        jobs := jobs + {JobFor(t, s)};
      }
    }
    var taken := ErasableSteps(t, rows);
    assert steps == ClaimSteps(t.steps, taken, now);
    assert jobs == JobsFor(t, taken);
    return Ok((steps, jobs));
  }

  /** The two loops that look for any sign of a started delivery. */
  method DeliveryStarted(t: Tables, request: Id) returns (started: bool)
    ensures started == Started(t, request)
  {
    var rest := t.steps.Keys;
    while rest != {}
      invariant rest <= t.steps.Keys
      invariant forall s :: s in t.steps && s !in rest && t.steps[s].request == request ==> !StepStarted(t.steps[s])
      decreases rest
    {
      var s :| s in rest;
      rest := rest - {s};
      if t.steps[s].request == request && (t.steps[s].status != Pending || t.steps[s].attempts > 0) {
        assert StepStarted(t.steps[s]);
        return true;
      }
    }
    rest := t.events.Keys;
    while rest != {}
      invariant rest <= t.events.Keys
      invariant forall e ::
          e in t.events && e !in rest && t.events[e].request == Some(request) ==> !EventStarted(t.events[e])
      decreases rest
    {
      var e :| e in rest;
      rest := rest - {e};
      var row := t.events[e];
      if row.request == Some(request) && (row.status != Pending || row.attempts > 0 || row.polls > 0) {
        assert EventStarted(t.events[e]);
        return true;
      }
    }
    return false;
  }

  /** The fan-out loop: unregistered aliases are skipped, the rest get a step and an event. */
  method AnnounceEach(
      start: Tables, request: Id, aliases: seq<Announcement>, products: map<Id, Id>, ids: seq<Pair>, now: Time)
    returns (r: Result<Tables>)
    requires |ids| == |Announced(aliases, products)|
    ensures r == FanOut(start, request, Announced(aliases, products), ids, now)
  {
    var t, next := start, 0;
    for i := 0 to |aliases|
      invariant next + |Announced(aliases[i..], products)| == |ids|
      invariant FanOut(start, request, Announced(aliases, products), ids, now)
             == FanOut(t, request, Announced(aliases[i..], products), ids[next..], now)
    {
      var a := aliases[i];
      assert aliases[i..][1..] == aliases[i + 1..];
      if a.product !in products || a.audience != products[a.product] {
        continue;
      }
      var told := Announced(aliases[i..], products);
      assert told == [a] + Announced(aliases[i + 1..], products) && told[1..] == Announced(aliases[i + 1..], products);
      assert ids[next..][0] == ids[next] && ids[next..][1..] == ids[next + 1..];
      if ids[next].step in t.steps || ids[next].event in t.events {
        return Err(Conflict);
      }
      t := Tell(t, request, a, ids[next], now);
      next := next + 1;
    }
    return Ok(t);
  }

  class SagaStore {
    var t: Tables

    method CreateRequest(
        key: IdempotencyKey, ask: Ask, found: Result<seq<Announcement>>, products: map<Id, Id>, made: FreshIds,
        now: Time)
      returns (r: Result<Id>)
      requires Supplies(made, found, products)
      modifies this
      ensures var spec := Create(old(t), key, ask, found, products, made, now);
        if spec.Ok? then r == Ok(spec.value.1) && t == spec.value.0 else r == Err(spec.error) && t == old(t)
    {
      if key in t.recorded {
        if t.recorded[key].ask != ask {
          return Err(Conflict);
        }
        if t.recorded[key].request !in t.requests {
          return Err(NotFound);
        }
        return Ok(t.recorded[key].request);
      }
      if found.Err? {
        return Err(found.error);
      }
      if made.request in t.requests {
        return Err(Conflict);
      }
      var row := Request(ask.deletion, ask.subject, ask.all, ask.product, Requested);
      var filed := t.(requests := t.requests[made.request := row],
          recorded := t.recorded[key := Recorded(made.request, ask)]);
      if ask.deletion {
        var told := AnnounceEach(filed, made.request, found.value, products, made.pairs, now);
        if told.Err? {
          return Err(told.error);
        }
        if made.erasure in told.value.steps {
          return Err(Conflict);
        }
        filed := told.value.(steps := told.value.steps[made.erasure := NewStep(made.request, None, now)]);
      }
      t := filed;
      return Ok(made.request);
    }

    method UpdatePrivacyRequestStatus(id: Id, status: RequestStatus) returns (r: Result<()>)
      modifies this
      ensures var spec := UpdateStatus(old(t), id, status);
        if spec.Ok? then r == Ok(()) && t == spec.value else r == Err(spec.error) && t == old(t)
    {
      if status == Completed {
        return Err(Conflict);
      }
      if id !in t.requests {
        return Err(NotFound);
      }
      var row := t.requests[id];
      if !ValidTransition(row.status, status) {
        return Err(Conflict);
      }
      var terminal := status == Rejected || status == Cancelled;
      if terminal {
        var started := DeliveryStarted(t, id);
        if started {
          return Err(Conflict);
        }
      }
      t := t.(requests := t.requests[id := row.(status := status)]);
      if terminal {
        t := t.(steps := CancelSteps(t.steps, id));
        t := t.(events := CancelEvents(t.events, id));
      }
      return Ok(());
    }

    method ClaimOutboxBatch(now: Time, limit: nat) returns (r: Result<set<Id>>, ghost rows: set<Id>)
      modifies this
      ensures OldestEvents(old(t), now, rows, limit)
      ensures var spec := ClaimOutbox(old(t), now, rows);
        if spec.Ok? then r == Ok(TakenEvents(old(t), rows)) && t == spec.value else r == Err(spec.error) && t == old(t)
    {
      var picked := TakeOldest(ClaimableSince(t, now), limit);
      rows := picked;
      var claimed := ClaimEach(t, now, picked);
      if claimed.Err? {
        return Err(claimed.error), rows;
      }
      r := Ok(TakenEvents(t, picked));
      t := t.(events := claimed.value);
    }

    method MarkOutboxDelivered(id: Id, receipt: Receipt) returns (r: Result<()>)
      modifies this
      ensures var spec := MarkDelivered(old(t), id, receipt);
        if spec.Ok? then r == Ok(()) && t == spec.value else r == Err(spec.error) && t == old(t)
    {
      if receipt.names != id || !receipt.completed {
        return Err(Invalid);
      }
      if id !in t.events {
        return Err(NotFound);
      }
      var row := t.events[id];
      if row.status != Processing {
        return Err(Conflict);
      }
      var before := t;
      t := t.(events := t.events[id := row.(status := Delivered, lockedAt := None, receipt := Some(receipt))]);
      if row.step.None? {
        return Ok(());
      }
      if row.step.value !in t.steps {
        t := before;
        return Err(NotFound);
      }
      var step := t.steps[row.step.value];
      if step.status == Finished {
        return Ok(());
      }
      t := t.(steps := t.steps[row.step.value := step.(status := Finished, leaseUntil := None,
          version := step.version + 1)]);
      return Ok(());
    }

    method RetryOutboxEvent(id: Id, availableAt: Time, maxAttempts: nat) returns (r: Result<()>)
      modifies this
      ensures var spec := RetryOutbox(old(t), id, availableAt, maxAttempts);
        if spec.Ok? then r == Ok(()) && t == spec.value else r == Err(spec.error) && t == old(t)
    {
      if id !in t.events {
        return Err(NotFound);
      }
      var row := t.events[id];
      if row.status != Processing {
        return Err(Conflict);
      }
      var status := Pending;
      if row.attempts + 1 >= maxAttempts {
        status := ManualDlq;
      }
      t := t.(events := t.events[id := row.(attempts := row.attempts + 1, status := status,
          availableAt := availableAt, lockedAt := None)]);
      return Ok(());
    }

    method RescheduleOutboxEvent(id: Id, availableAt: Time) returns (r: Result<()>)
      modifies this
      ensures var spec := RescheduleOutbox(old(t), id, availableAt);
        if spec.Ok? then r == Ok(()) && t == spec.value else r == Err(spec.error) && t == old(t)
    {
      if id !in t.events {
        return Err(NotFound);
      }
      var row := t.events[id];
      if row.status != Processing {
        return Err(Conflict);
      }
      t := t.(events := t.events[id := row.(polls := row.polls + 1, status := Pending, availableAt := availableAt,
          lockedAt := None)]);
      return Ok(());
    }

    method ClaimPrivacyErasures(now: Time, limit: nat) returns (r: Result<set<Job>>, ghost rows: set<Id>)
      modifies this
      ensures OldestErasures(old(t), now, rows, limit)
      ensures var spec := ClaimErasures(old(t), now, rows);
        if spec.Ok? then r == Ok(spec.value.1) && t == spec.value.0 else r == Err(spec.error) && t == old(t)
    {
      var picked := TakeOldest(ErasableSince(t, now), limit);
      rows := picked;
      var leased := LeaseEach(t, now, picked);
      if leased.Err? {
        return Err(leased.error), rows;
      }
      t := t.(steps := leased.value.0);
      r := Ok(leased.value.1);
    }

    method RetryPrivacyErasure(job: Job, availableAt: Time, maxAttempts: nat) returns (r: Result<()>)
      modifies this
      ensures var spec := RetryErasure(old(t), job, availableAt, maxAttempts);
        if spec.Ok? then r == Ok(()) && t == spec.value else r == Err(spec.error) && t == old(t)
    {
      if job.step !in t.steps {
        return Err(NotFound);
      }
      var step := t.steps[job.step];
      if step.status != Processing {
        return Err(Conflict);
      }
      var status := Retry;
      if step.attempts >= maxAttempts {
        status := ManualDlq;
      }
      t := t.(steps := t.steps[job.step := step.(status := status, availableAt := availableAt, leaseUntil := None,
          version := step.version + 1)]);
      return Ok(());
    }

    /** The saga's side of an erasure; the rows it removes are those of AccountStore.Store.EraseJob. */
    method CompletePrivacyJob(job: Job) returns (r: Result<()>)
      modifies this
      ensures var spec := Erase(old(t), job);
        if spec.Ok? then r == Ok(()) && t == spec.value else r == Err(spec.error) && t == old(t)
    {
      if job.request !in t.requests || !Open(t.requests[job.request].status) {
        return Err(NotFound);
      }
      if job.step !in t.steps {
        return Err(NotFound);
      }
      var step := t.steps[job.step];
      if step.status != Processing || step.version != job.version {
        return Err(Conflict);
      }
      var complete := CheckMetricSteps(t, job.request);
      if !complete {
        return Err(Conflict);
      }
      t := t.(steps := t.steps[job.step := step.(status := Finished, leaseUntil := None, version := step.version + 1)]);
      t := t.(requests := t.requests[job.request := t.requests[job.request].(status := Completed)]);
      return Ok(());
    }
  }
}
