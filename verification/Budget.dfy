/** The limiter inside the whole service: whatever else runs, the mails claimed for delivery
    stay within the daily budget and one per second. */
module Budget {
  import opened Common
  import A = Accounts
  import L = RateLimiter
  import Registry
  import Service

  /** The limiter operation a step performs. */
  ghost function Entry(w: Service.World, s: Service.Step): Option<L.Op>
    requires Service.Possible(w, s)
  {
    match s.op
    case Create(id, c, v, contact, limit) =>
      var r := A.Create(w.t, id, c, v, contact, limit, s.now);
      if r.Ok? && r.value.1 then Some(L.Reserve(s.now, id, A.ContactLimits(contact))) else None
    case Claim(owner, _, limit, _) =>
      if Claims(w, s) then Some(L.Reserve(s.now, owner, A.SendLimits(limit))) else None
    case Cleanup(limit, sweep) => Some(L.Forget(s.now, limit, sweep.events))
    case _ => None
  }

  /** The step leases a challenge for delivery. */
  ghost predicate Claims(w: Service.World, s: Service.Step)
    requires Service.Possible(w, s)
  {
    && s.op.Claim?
    && (var r := A.Claim(w.t, s.op.owner, s.op.products, s.op.limit, s.now, s.op.pick);
        r.Ok? && A.LeasedBy(w.t, r.value.0, r.value.1, s.op.owner, s.op.limit, s.now))
  }

  ghost function Book(g: L.Ledger, w: Service.World, s: Service.Step): L.Ledger
    requires Service.Possible(w, s)
  {
    match Entry(w, s)
    case None => g.(clock := s.now)
    case Some(op) => L.Next(g, op)
  }

  /** Everything ever reserved in a run. */
  ghost function Books(keys: Registry.Keyring, steps: seq<Service.Step>): L.Ledger
    requires Service.Legal(keys, steps)
    decreases |steps|
  {
    if steps == [] then L.EMPTY else
      Book(Books(keys, steps[..|steps| - 1]), Service.Run(keys, steps[..|steps| - 1]), steps[|steps| - 1])
  }

  /** How many deliveries were claimed in the closed interval from..from + span. */
  ghost function Claimed(keys: Registry.Keyring, steps: seq<Service.Step>, from: int, span: nat): nat
    requires Service.Legal(keys, steps)
    decreases |steps|
  {
    if steps == [] then 0 else
      var before, last := steps[..|steps| - 1], steps[|steps| - 1];
      Claimed(keys, before, from, span)
      + (if Claims(Service.Run(keys, before), last) && from <= last.now <= from + span then 1 else 0)
  }

  function LimitOf(b: Id, dailyLimit: nat): L.Limit {
    if b == 0 then L.Limit(0, DAY, dailyLimit) else if b == 1 then L.Limit(1, SECOND, 1)
    else if b % 2 == 0 then L.Limit(b, 15 * MINUTE, 6) else L.Limit(b, MINUTE, 1)
  }

  /** One limit per bucket: the two of the sender and two for each contact. */
  ghost function Policy(contacts: set<Id>, dailyLimit: nat): map<Id, L.Limit> {
    map b | b in {0, 1} + (set c | c in contacts :: 2 * c + 2) + (set c | c in contacts :: 2 * c + 3) ::
        LimitOf(b, dailyLimit)
  }

  /** Every sender runs with the same daily limit. */
  ghost predicate Uses(s: Service.Step, contacts: set<Id>, dailyLimit: nat) {
    && (s.op.Claim? ==> s.op.limit == dailyLimit)
    && (s.op.Create? ==> s.op.contact in contacts)
  }

  ghost predicate Kept(g: L.Ledger, w: Service.World, policy: map<Id, L.Limit>) {
    g.events == w.t.events && g.clock == w.clock && L.Remembers(g) && L.Bounded(g.history, policy)
  }

  lemma LimitsFit(now: Time, id: Id, contacts: set<Id>, dailyLimit: nat, contact: Id)
    ensures L.UsesPolicy(L.Reserve(now, id, A.SendLimits(dailyLimit)), Policy(contacts, dailyLimit))
    ensures contact in contacts ==>
        L.UsesPolicy(L.Reserve(now, id, A.ContactLimits(contact)), Policy(contacts, dailyLimit))
  {
    var policy := Policy(contacts, dailyLimit);
    assert 0 in policy && 1 in policy;
    if contact in contacts {
      assert 2 * contact + 2 in policy && 2 * contact + 3 in policy;
      assert (2 * contact + 2) % 2 == 0 && (2 * contact + 3) % 2 == 1;
    }
  }

  lemma EntryFits(w: Service.World, s: Service.Step, g: L.Ledger, contacts: set<Id>, dailyLimit: nat)
    requires Service.Possible(w, s) && g.events == w.t.events && g.clock == w.clock && Uses(s, contacts, dailyLimit)
    requires Entry(w, s).Some?
    ensures L.Possible(g, Entry(w, s).value) && L.UsesPolicy(Entry(w, s).value, Policy(contacts, dailyLimit))
    ensures Entry(w, s).value.now == s.now
  {
    match s.op
    case Create(id, _, _, contact, _) => LimitsFit(s.now, id, contacts, dailyLimit, contact);
    case Claim(owner, _, _, _) => LimitsFit(s.now, owner, contacts, dailyLimit, 0);
    case _ =>
  }

  /** What an entry does to the table of events. */
  ghost predicate Explains(entry: Option<L.Op>, before: set<L.Event>, after: set<L.Event>, now: Time) {
    match entry
    case None => after == before
    case Some(Reserve(at, id, limits)) => at == now && L.Reserved(before, now, id, limits) == Ok(after)
    case Some(Forget(at, _, deleted)) => at == now && after == before - deleted
  }

  /** The table of the service and the ledger agree. */
  lemma EventsFollow(w: Service.World, s: Service.Step, g: L.Ledger)
    requires Service.Possible(w, s) && g.events == w.t.events
    ensures Book(g, w, s).events == Service.After(w, s).events && Book(g, w, s).clock == s.now
  {
    EntryExplains(w, s);
    ExplainedFollows(g, Entry(w, s), Service.After(w, s).events, s.now);
  }

  lemma ExplainedFollows(g: L.Ledger, entry: Option<L.Op>, after: set<L.Event>, now: Time)
    requires Explains(entry, g.events, after, now)
    ensures var g' := match entry case None => g.(clock := now) case Some(op) => L.Next(g, op);
      g'.events == after && g'.clock == now
  {
  }

  lemma EntryExplains(w: Service.World, s: Service.Step)
    requires Service.Possible(w, s)
    ensures Explains(Entry(w, s), w.t.events, Service.After(w, s).events, s.now)
  {
    if s.op.Create? {
      CreateReserves(w, s);
    } else if s.op.Claim? {
      ClaimReserves(w, s);
    } else if !s.op.Cleanup? {
      OthersKeepEvents(w, s);
    }
  }

  lemma OthersKeepEvents(w: Service.World, s: Service.Step)
    requires Service.Possible(w, s) && !s.op.Create? && !s.op.Claim? && !s.op.Cleanup?
    ensures Service.After(w, s).events == w.t.events
  {
    if s.op.Complete? {
      var r := A.Complete(w.t, w.saga.t.requests, w.keys, s.op.proof, s.now);
      if r.Ok? {
        A.CompleteHasEffect(w.t, w.saga.t.requests, w.keys, s.op.proof, s.now, r.value.0, r.value.1);
      }
    } else if s.op.Rotate? && A.Rotate(w.t, w.saga.t.requests, s.op.used, s.op.next, s.now).Ok? {
      A.RotateHasEffect(w.t, w.saga.t.requests, s.op.used, s.op.next, s.now);
    }
  }

  lemma CreateReserves(w: Service.World, s: Service.Step)
    requires Service.Possible(w, s) && s.op.Create?
    ensures Explains(Entry(w, s), w.t.events, Service.After(w, s).events, s.now)
  {
  }

  lemma ClaimReserves(w: Service.World, s: Service.Step)
    requires Service.Possible(w, s) && s.op.Claim?
    ensures Explains(Entry(w, s), w.t.events, Service.After(w, s).events, s.now)
  {
    var r := A.Claim(w.t, s.op.owner, s.op.products, s.op.limit, s.now, s.op.pick);
    if r.Ok? {
      A.ClaimHasEffect(w.t, s.op.owner, s.op.products, s.op.limit, s.now, s.op.pick, r.value.0, r.value.1);
    }
  }

  lemma StepIsKept(w: Service.World, s: Service.Step, g: L.Ledger, contacts: set<Id>, dailyLimit: nat)
    requires Service.Possible(w, s) && Kept(g, w, Policy(contacts, dailyLimit)) && Uses(s, contacts, dailyLimit)
    ensures Kept(Book(g, w, s), Service.Next(w, s), Policy(contacts, dailyLimit))
  {
    EventsFollow(w, s, g);
    if Entry(w, s).Some? {
      EntryFits(w, s, g, contacts, dailyLimit);
      L.StaysRemembered(g, Entry(w, s).value);
      L.StaysBounded(g, Entry(w, s).value, Policy(contacts, dailyLimit));
    }
  }

  lemma {:induction false} RunIsKept(
      keys: Registry.Keyring, steps: seq<Service.Step>, contacts: set<Id>, dailyLimit: nat)
    requires Service.Legal(keys, steps) && forall s :: s in steps ==> Uses(s, contacts, dailyLimit)
    ensures Kept(Books(keys, steps), Service.Run(keys, steps), Policy(contacts, dailyLimit))
    decreases |steps|
  {
    if steps == [] {
      L.WindowsAreNeverOverdrawn([], Policy(contacts, dailyLimit));
    } else {
      var before, last := steps[..|steps| - 1], steps[|steps| - 1];
      assert last in steps;
      RunIsKept(keys, before, contacts, dailyLimit);
      StepIsKept(Service.Run(keys, before), last, Books(keys, before), contacts, dailyLimit);
    }
  }

  /** Each claim leaves one more reservation in each of the sender's buckets. */
  lemma ClaimIsTaken(g: L.Ledger, w: Service.World, s: Service.Step, l: L.Limit, from: int)
    requires Service.Possible(w, s) && L.Remembers(g) && g.events == w.t.events && g.clock == w.clock
    requires s.op.Claim? && Claims(w, s) && l in A.SendLimits(s.op.limit) && from <= s.now <= from + l.window
    ensures |L.Taken(Book(g, w, s).history, l, from)| == |L.Taken(g.history, l, from)| + 1
  {
    ClaimReserves(w, s);
    var row := L.Event(l.bucket, s.now, s.op.owner);
    assert row in L.Reservations(s.now, s.op.owner, A.SendLimits(s.op.limit));
    assert row !in g.history;
    assert L.Taken(Book(g, w, s).history, l, from) == L.Taken(g.history, l, from) + {row};
  }

  lemma TakenGrows(g: L.Ledger, w: Service.World, s: Service.Step, l: L.Limit, from: int)
    requires Service.Possible(w, s)
    ensures |L.Taken(g.history, l, from)| <= |L.Taken(Book(g, w, s).history, l, from)|
  {
    L.Smaller(L.Taken(g.history, l, from), L.Taken(Book(g, w, s).history, l, from));
  }

  lemma {:induction false} ClaimsAreTaken(
      keys: Registry.Keyring, steps: seq<Service.Step>, contacts: set<Id>, dailyLimit: nat, l: L.Limit, from: int)
    requires Service.Legal(keys, steps) && (forall s :: s in steps ==> Uses(s, contacts, dailyLimit))
    requires l in A.SendLimits(dailyLimit)
    ensures Claimed(keys, steps, from, l.window) <= |L.Taken(Books(keys, steps).history, l, from)|
    decreases |steps|
  {
    if steps != [] {
      var before, last := steps[..|steps| - 1], steps[|steps| - 1];
      assert last in steps;
      ClaimsAreTaken(keys, before, contacts, dailyLimit, l, from);
      RunIsKept(keys, before, contacts, dailyLimit);
      var w, g := Service.Run(keys, before), Books(keys, before);
      TakenGrows(g, w, last, l, from);
      if Claims(w, last) && from <= last.now <= from + l.window {
        ClaimIsTaken(g, w, last, l, from);
      }
    }
  }

  /** In every run with one daily limit, at most that many deliveries are claimed in any 24
      hours and at most one in any second, although cleanup forgets old reservations. */
  lemma MailStaysWithinBudget(
      keys: Registry.Keyring, steps: seq<Service.Step>, contacts: set<Id>, dailyLimit: nat, from: int)
    requires Service.Legal(keys, steps) && forall s :: s in steps ==> Uses(s, contacts, dailyLimit)
    ensures Claimed(keys, steps, from, DAY) <= dailyLimit
    ensures Claimed(keys, steps, from, SECOND) <= 1
  {
    RunIsKept(keys, steps, contacts, dailyLimit);
    var policy := Policy(contacts, dailyLimit);
    var daily, global := L.Limit(0, DAY, dailyLimit), L.Limit(1, SECOND, 1);
    ClaimsAreTaken(keys, steps, contacts, dailyLimit, daily, from);
    ClaimsAreTaken(keys, steps, contacts, dailyLimit, global, from);
    assert policy[0] == daily && policy[1] == global;
  }

  // ------------------------------------------------------------- requests per contact

  /** The step creates a challenge for this contact. */
  ghost predicate Creates(w: Service.World, s: Service.Step, contact: Id)
    requires Service.Possible(w, s)
  {
    && s.op.Create? && s.op.contact == contact
    && (var r := A.Create(w.t, s.op.id, s.op.c, s.op.v, s.op.contact, s.op.limit, s.now); r.Ok? && r.value.1)
  }

  ghost function Created(keys: Registry.Keyring, steps: seq<Service.Step>, contact: Id, from: int, span: nat): nat
    requires Service.Legal(keys, steps)
    decreases |steps|
  {
    if steps == [] then 0 else
      var before, last := steps[..|steps| - 1], steps[|steps| - 1];
      Created(keys, before, contact, from, span)
      + (if Creates(Service.Run(keys, before), last, contact) && from <= last.now <= from + span then 1 else 0)
  }

  lemma CreationIsTaken(g: L.Ledger, w: Service.World, s: Service.Step, contact: Id, l: L.Limit, from: int)
    requires Service.Possible(w, s) && L.Remembers(g) && g.events == w.t.events && g.clock == w.clock
    requires Creates(w, s, contact) && l in A.ContactLimits(contact) && from <= s.now <= from + l.window
    ensures |L.Taken(Book(g, w, s).history, l, from)| == |L.Taken(g.history, l, from)| + 1
  {
    CreateReserves(w, s);
    var row := L.Event(l.bucket, s.now, s.op.id);
    assert row in L.Reservations(s.now, s.op.id, A.ContactLimits(contact));
    assert row !in g.history;
    assert L.Taken(Book(g, w, s).history, l, from) == L.Taken(g.history, l, from) + {row};
  }

  lemma {:induction false} CreationsAreTaken(
      keys: Registry.Keyring, steps: seq<Service.Step>, contacts: set<Id>, dailyLimit: nat, contact: Id, l: L.Limit,
      from: int)
    requires Service.Legal(keys, steps) && (forall s :: s in steps ==> Uses(s, contacts, dailyLimit))
    requires l in A.ContactLimits(contact)
    ensures Created(keys, steps, contact, from, l.window) <= |L.Taken(Books(keys, steps).history, l, from)|
    decreases |steps|
  {
    if steps != [] {
      var before, last := steps[..|steps| - 1], steps[|steps| - 1];
      assert last in steps;
      CreationsAreTaken(keys, before, contacts, dailyLimit, contact, l, from);
      RunIsKept(keys, before, contacts, dailyLimit);
      var w, g := Service.Run(keys, before), Books(keys, before);
      TakenGrows(g, w, last, l, from);
      if Creates(w, last, contact) && from <= last.now <= from + l.window {
        CreationIsTaken(g, w, last, contact, l, from);
      }
    }
  }

  /** In every run at most six challenges are created for one contact in any fifteen minutes,
      and at most one in any minute. */
  lemma ContactStaysWithinBudget(
      keys: Registry.Keyring, steps: seq<Service.Step>, contacts: set<Id>, dailyLimit: nat, contact: Id, from: int)
    requires Service.Legal(keys, steps) && (forall s :: s in steps ==> Uses(s, contacts, dailyLimit))
    requires contact in contacts
    ensures Created(keys, steps, contact, from, 15 * MINUTE) <= 6
    ensures Created(keys, steps, contact, from, MINUTE) <= 1
  {
    RunIsKept(keys, steps, contacts, dailyLimit);
    var policy, limits := Policy(contacts, dailyLimit), A.ContactLimits(contact);
    LimitsFit(0, 0, contacts, dailyLimit, contact);
    assert limits[0] in limits && limits[1] in limits;
    assert L.Reserve(0, 0, limits).limits == limits;
    CreationsAreTaken(keys, steps, contacts, dailyLimit, contact, limits[0], from);
    CreationsAreTaken(keys, steps, contacts, dailyLimit, contact, limits[1], from);
    assert policy[limits[0].bucket] == limits[0] && policy[limits[1].bucket] == limits[1];
  }
}
