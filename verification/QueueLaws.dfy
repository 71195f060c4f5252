/** What each transaction of the mail queue decides, in terms of the rows it finds, and what
    that means over whole runs: leases and retry times are kept, wrong codes are counted, and
    cleanup removes only what has expired. */
module QueueLaws {
  import opened Common
  import A = Accounts
  import C = Challenges
  import RateLimiter
  import Registry
  import Saga
  import Service

  /** The world after the first k steps. */
  ghost function WorldAt(keys: Registry.Keyring, steps: seq<Service.Step>, k: nat): Service.World
    requires Service.Legal(keys, steps) && k <= |steps|
  {
    Service.PrefixIsLegal(keys, steps, k);
    Service.Run(keys, steps[..k])
  }

  /** A row that is there before and after a step of a run moved along an edge of its own. */
  lemma RowMoved(keys: Registry.Keyring, steps: seq<Service.Step>, k: nat, id: Id)
    requires Service.Legal(keys, steps) && k < |steps|
    requires id in WorldAt(keys, steps, k).t.challenges && id in WorldAt(keys, steps, k + 1).t.challenges
    ensures var c, c' := WorldAt(keys, steps, k).t.challenges[id], WorldAt(keys, steps, k + 1).t.challenges[id];
      C.Change(c, c', steps[k].now) && C.Attributed(c, c', id, steps[k])
  {
    Service.RunUnfolds(keys, steps, k);
    C.RunIsSound(keys, steps[..k]);
    var w := Service.Run(keys, steps[..k]);
    assert forall x :: x in w.t.challenges ==> C.Row(w, C.ClaimedAt(keys, steps[..k]), x);
    C.StepMoves(w, steps[k]);
    MovedIsAttributed(w.t, Service.After(w, steps[k]), steps[k], id);
  }

  lemma MovedIsAttributed(t: A.Tables, t': A.Tables, s: Service.Step, id: Id)
    requires C.Adds(t, t', s) || C.Moves(t, t', s)
    requires id in t.challenges && id in t'.challenges
    ensures C.Change(t.challenges[id], t'.challenges[id], s.now)
    ensures C.Attributed(t.challenges[id], t'.challenges[id], id, s)
  {
    if C.Moves(t, t', s) {
      assert C.RowMoves(t, t', id, s);
    }
  }

  // ------------------------------------------------------------- times that are kept

  /** From step i on the challenge stays queued until step j. */
  ghost predicate QueuedUntil(keys: Registry.Keyring, steps: seq<Service.Step>, i: nat, j: nat, id: Id)
    requires Service.Legal(keys, steps) && j <= |steps|
  {
    forall k :: i < k <= j ==>
      id in WorldAt(keys, steps, k).t.challenges && WorldAt(keys, steps, k).t.challenges[id].state == A.Requested
  }

  lemma {:induction false} WaitKeepsTime(keys: Registry.Keyring, steps: seq<Service.Step>, i: nat, j: nat, id: Id)
    requires Service.Legal(keys, steps) && i < j <= |steps| && QueuedUntil(keys, steps, i, j, id)
    ensures WorldAt(keys, steps, j).t.challenges[id].availableAt ==
        WorldAt(keys, steps, i + 1).t.challenges[id].availableAt
    decreases j - i
  {
    if i + 1 < j {
      WaitKeepsTime(keys, steps, i, j - 1, id);
      RowMoved(keys, steps, j - 1, id);
    }
  }

  /** A deferred mail is not leased again before the retry time its sender gave. */
  lemma DeferredMailWaits(keys: Registry.Keyring, steps: seq<Service.Step>, i: nat, j: nat, id: Id)
    requires Service.Legal(keys, steps) && i < j < |steps| && QueuedUntil(keys, steps, i, j, id)
    requires id in WorldAt(keys, steps, i).t.challenges
    requires WorldAt(keys, steps, i).t.challenges[id].state == A.Delivering
    requires id in WorldAt(keys, steps, j + 1).t.challenges
    requires WorldAt(keys, steps, j + 1).t.challenges[id].state == A.Delivering
    ensures steps[i].op.Defer? && steps[i].op.id == id && steps[i].op.retryAt <= steps[j].now
  {
    RowMoved(keys, steps, i, id);
    WaitKeepsTime(keys, steps, i, j, id);
    RowMoved(keys, steps, j, id);
  }

  /** A claim changes a delivery under way only when ninety seconds have passed since it was
      claimed, and then only to uncertain, with the code still provable. */
  lemma LeaseIsRespected(keys: Registry.Keyring, steps: seq<Service.Step>, k: nat, id: Id)
    requires Service.Legal(keys, steps) && k < |steps| && steps[k].op.Claim? && Service.Legal(keys, steps[..k])
    requires id in WorldAt(keys, steps, k).t.challenges && id in WorldAt(keys, steps, k + 1).t.challenges
    requires WorldAt(keys, steps, k).t.challenges[id].state == A.Delivering
    ensures var c, c' := WorldAt(keys, steps, k).t.challenges[id], WorldAt(keys, steps, k + 1).t.challenges[id];
      c' != c ==> id in C.ClaimedAt(keys, steps[..k]) && C.ClaimedAt(keys, steps[..k])[id] + 90 * SECOND <= steps[k].now
  {
    RowMoved(keys, steps, k, id);
    C.RunIsSound(keys, steps[..k]);
    assert C.Row(WorldAt(keys, steps, k), C.ClaimedAt(keys, steps[..k]), id);
  }

  // --------------------------------------------------------------- what a proof decides

  /** A presented proof reaches the comparison of its code. */
  predicate Judged(t: A.Tables, p: A.Proof) {
    && p.challenge in t.challenges
    && (var c := t.challenges[p.challenge];
        && c.product == p.product && c.installation == p.installation && c.otpKey == p.otpKey && c.nonce == p.nonce
        && c.attempts < 5 && (c.state == A.Delivering || c.state == A.Delivered || c.state == A.Uncertain))
    && A.FlowKey(p.product, p.installation) in t.flows
    && t.flows[A.FlowKey(p.product, p.installation)].challenge == p.challenge
    && p.installation in t.registry.installations
    && !t.registry.installations[p.installation].disabled
    && t.registry.installations[p.installation].product == p.product
  }

  /** A proof that is not judged is not found. A judged one past the expiry closes the
      challenge; a wrong code in time counts one attempt and locks at five; nothing else
      changes. Only the right code in time can go on. */
  lemma CompletionDecides(t: A.Tables, requests: map<Id, Saga.Request>, k: Registry.Keyring, p: A.Proof, now: Time)
    ensures !Judged(t, p) ==> A.Complete(t, requests, k, p, now) == Err(NotFound)
    ensures Judged(t, p) && t.challenges[p.challenge].expiresAt <= now ==>
      var r := A.Complete(t, requests, k, p, now);
      && r.Ok? && r.value.1.Rejected?
      && r.value.0 == t.(challenges := t.challenges[p.challenge := A.Scrub(t.challenges[p.challenge], A.Expired)])
    ensures (Judged(t, p) && now < t.challenges[p.challenge].expiresAt
             && t.challenges[p.challenge].code != Some(p.code)) ==>
      var r, c := A.Complete(t, requests, k, p, now), t.challenges[p.challenge];
      && r.Ok? && r.value.1.Rejected? && p.challenge in r.value.0.challenges
      && (var c' := r.value.0.challenges[p.challenge];
          && r.value.0 == t.(challenges := t.challenges[p.challenge := c'])
          && c'.attempts == c.attempts + 1
          && (if c.attempts + 1 == 5 then c'.state == A.Locked && c'.code == None && !c'.hasCipher && c'.lease == None
              else c' == c.(attempts := c.attempts + 1)))
    ensures (Judged(t, p) && now < t.challenges[p.challenge].expiresAt
             && t.challenges[p.challenge].code == Some(p.code)) ==>
      A.Complete(t, requests, k, p, now).Ok? ==> A.Complete(t, requests, k, p, now).value.1.Issued?
  {
    GateIsJudged(t, p);
    if Judged(t, p) && now < t.challenges[p.challenge].expiresAt {
      if t.challenges[p.challenge].code != Some(p.code) {
        WrongCodeDecides(t, requests, k, p, now);
      } else {
        RightCodeDecides(t, requests, k, p, now);
      }
    }
  }

  lemma WrongCodeDecides(t: A.Tables, requests: map<Id, Saga.Request>, k: Registry.Keyring, p: A.Proof, now: Time)
    requires Judged(t, p) && now < t.challenges[p.challenge].expiresAt && t.challenges[p.challenge].code != Some(p.code)
    ensures A.Complete(t, requests, k, p, now)
         == Ok((t.(challenges := t.challenges[p.challenge := A.Miss(t.challenges[p.challenge])]), A.Rejected))
  {
    GateIsJudged(t, p);
  }

  lemma RightCodeDecides(t: A.Tables, requests: map<Id, Saga.Request>, k: Registry.Keyring, p: A.Proof, now: Time)
    requires Judged(t, p) && now < t.challenges[p.challenge].expiresAt && t.challenges[p.challenge].code == Some(p.code)
    ensures A.Complete(t, requests, k, p, now).Ok? ==> A.Complete(t, requests, k, p, now).value.1.Issued?
  {
    GateIsJudged(t, p);
    var r := A.Complete(t, requests, k, p, now);
    if r.Ok? {
      A.CompleteHasEffect(t, requests, k, p, now, r.value.0, r.value.1);
    }
  }

  lemma GateIsJudged(t: A.Tables, p: A.Proof)
    ensures A.CheckProof(t, p) == if Judged(t, p) then Ok(t.challenges[p.challenge]) else Err(NotFound)
  {
  }

  // --------------------------------------------------------------- wrong codes are counted

  /** The step presents a wrong code for this challenge, in time, and it is judged. */
  ghost predicate Missed(w: Service.World, s: Service.Step, id: Id) {
    && s.op.Complete? && s.op.proof.challenge == id && Judged(w.t, s.op.proof)
    && s.now < w.t.challenges[id].expiresAt && w.t.challenges[id].code != Some(s.op.proof.code)
  }

  ghost function Count(wrong: map<Id, nat>, w: Service.World, s: Service.Step, t': A.Tables): map<Id, nat> {
    map id | id in t'.challenges ::
      (if id in w.t.challenges && id in wrong then wrong[id] else 0) + (if Missed(w, s, id) then 1 else 0)
  }

  /** The wrong codes judged so far for each present challenge. */
  ghost function Wrong(keys: Registry.Keyring, steps: seq<Service.Step>): map<Id, nat>
    requires Service.Legal(keys, steps)
    decreases |steps|
  {
    if steps == [] then map[] else
      var before, last := steps[..|steps| - 1], steps[|steps| - 1];
      var w := Service.Run(keys, before);
      Count(Wrong(keys, before), w, last, Service.After(w, last))
  }

  ghost predicate Counted(t: A.Tables, wrong: map<Id, nat>) {
    forall id :: id in t.challenges ==> id in wrong && t.challenges[id].attempts == wrong[id]
  }

  lemma AttemptIsCounted(w: Service.World, s: Service.Step, claimedAt: map<Id, Time>, id: Id)
    requires Service.Possible(w, s) && C.Sound(w, claimedAt) && id in Service.After(w, s).challenges
    ensures id in w.t.challenges ==>
              Service.After(w, s).challenges[id].attempts ==
                  w.t.challenges[id].attempts + (if Missed(w, s, id) then 1 else 0)
    ensures id !in w.t.challenges ==> Service.After(w, s).challenges[id].attempts == 0 && !Missed(w, s, id)
  {
    assert forall x :: x in w.t.challenges ==> C.Row(w, claimedAt, x);
    C.StepMoves(w, s);
    NewOrAttributed(w.t, Service.After(w, s), s, id);
    if s.op.Complete? {
      CompleteAttempts(w, s, id);
    }
  }

  lemma NewOrAttributed(t: A.Tables, t': A.Tables, s: Service.Step, id: Id)
    requires (C.Adds(t, t', s) || C.Moves(t, t', s)) && id in t'.challenges
    ensures id in t.challenges ==> C.Attributed(t.challenges[id], t'.challenges[id], id, s)
    ensures id !in t.challenges ==> s.op.Create? && t'.challenges[id].attempts == 0
  {
    if C.Moves(t, t', s) {
      assert C.RowMoves(t, t', id, s);
    }
    if id in t.challenges {
      MovedIsAttributed(t, t', s, id);
    }
  }

  lemma CompleteAttempts(w: Service.World, s: Service.Step, id: Id)
    requires Service.Possible(w, s) && s.op.Complete? && id in w.t.challenges && id in Service.After(w, s).challenges
    ensures Service.After(w, s).challenges[id].attempts ==
            w.t.challenges[id].attempts + (if Missed(w, s, id) then 1 else 0)
  {
    ProofAttempts(w.t, w.saga.t.requests, w.keys, s.op.proof, s.now, id);
  }

  lemma ProofAttempts(
      t: A.Tables, requests: map<Id, Saga.Request>, k: Registry.Keyring, p: A.Proof, now: Time, id: Id)
    requires id in t.challenges
    ensures var r := A.Complete(t, requests, k, p, now);
      var t' := if r.Ok? then r.value.0 else t;
      && id in t'.challenges
      && t'.challenges[id].attempts == t.challenges[id].attempts +
           (if id == p.challenge && Judged(t, p) && now < t.challenges[id].expiresAt &&
               t.challenges[id].code != Some(p.code)
            then 1 else 0)
  {
    CompletionDecides(t, requests, k, p, now);
    var r := A.Complete(t, requests, k, p, now);
    if r.Ok? && r.value.1.Issued? {
      A.CompleteHasEffect(t, requests, k, p, now, r.value.0, r.value.1);
    }
  }

  /** In every run a challenge's attempts are the wrong codes that were judged for it. */
  lemma {:induction false} WrongCodesAreCounted(keys: Registry.Keyring, steps: seq<Service.Step>)
    requires Service.Legal(keys, steps)
    ensures Counted(Service.Run(keys, steps).t, Wrong(keys, steps))
    decreases |steps|
  {
    if steps != [] {
      var before, last := steps[..|steps| - 1], steps[|steps| - 1];
      WrongCodesAreCounted(keys, before);
      C.RunIsSound(keys, before);
      var w := Service.Run(keys, before);
      forall id | id in Service.After(w, last).challenges
        ensures id in Wrong(keys, steps) && Service.After(w, last).challenges[id].attempts == Wrong(keys, steps)[id]
      {
        AttemptIsCounted(w, last, C.ClaimedAt(keys, before), id);
      }
    }
  }

  // ------------------------------------------------------ what claim and defer decide

  /** Why a due challenge is not sent, if it is not. */
  predicate Current(t: A.Tables, id: Id, c: A.Challenge) {
    && A.FlowKey(c.product, c.installation) in t.flows
    && t.flows[A.FlowKey(c.product, c.installation)].challenge == id
    && c.installation in t.registry.installations && !t.registry.installations[c.installation].disabled
    && t.registry.installations[c.installation].product == c.product
  }

  /** A claim of a due challenge that is current, unexpired, and whose verification nobody
      else is working on leases it for ninety seconds and makes its code provable for ten
      minutes, exactly if the budget has room; otherwise it closes it. */
  lemma ClaimDecides(t: A.Tables, owner: Id, products: set<Id>, limit: nat, now: Time, id: Id)
    requires A.Picks(t, products, now, {id}) && products != {} && 1 <= limit <= 10000
    requires id in t.challenges && C.Shape(t.challenges[id])
    ensures t.challenges[id].state in {A.Requested, A.Delivering}
    ensures t.challenges[id].state == A.Delivering ==>
      A.Claim(t, owner, products, limit, now, {id})
      == Ok((t.(challenges := t.challenges[id := Unsettled(t.challenges[id])]), id))
    ensures t.challenges[id].state == A.Requested && Closes(t, id, now).Some? ==>
      A.Claim(t, owner, products, limit, now, {id})
      == Ok((t.(challenges := t.challenges[id := A.Scrub(t.challenges[id], Closes(t, id, now).value)]), id))
  {
    A.PickIsQueued(t, products, now, {id}, id);
  }

  /** An abandoned delivery: nobody knows whether the mail went out, so the code stays. */
  function Unsettled(c: A.Challenge): A.Challenge {
    c.(state := A.Uncertain, hasCipher := false, lease := None)
  }

  /** Replaced, on an unusable installation or without its verification: cancelled. Past its
      own or its verification's expiry: expired. */
  function Closes(t: A.Tables, id: Id, now: Time): Option<A.State>
    requires id in t.challenges
  {
    if !Current(t, id, t.challenges[id]) then Some(A.Cancelled)
    else if t.challenges[id].expiresAt <= now then Some(A.Expired)
    else if id !in t.verifications then Some(A.Cancelled)
    else if t.verifications[id].expiresAt <= now then Some(A.Expired)
    else None
  }

  lemma ClaimLeases(t: A.Tables, owner: Id, products: set<Id>, limit: nat, now: Time, id: Id)
    requires A.Picks(t, products, now, {id}) && products != {} && 1 <= limit <= 10000
    requires id in t.challenges && id in t.verifications && C.Coupled(t, id) && C.Shape(t.challenges[id])
    requires t.challenges[id].state == A.Requested && Current(t, id, t.challenges[id])
    requires now < t.challenges[id].expiresAt
    requires !t.verifications[id].verified && !t.verifications[id].busy
    ensures var budget := [RateLimiter.Limit(0, 24 * HOUR, limit), RateLimiter.Limit(1, SECOND, 1)];
      var r := A.Claim(t, owner, products, limit, now, {id});
      && (r.Ok? <==> RateLimiter.Commits(t.events, now, owner, budget))
      && (r.Ok? ==> r.value.1 == id && LeasedRows(t, r.value.0, id, owner, now)
                    && r.value.0.events == t.events + RateLimiter.Reservations(now, owner, budget))
  {
    A.PickIsQueued(t, products, now, {id}, id);
  }

  ghost predicate LeasedRows(t: A.Tables, t': A.Tables, id: Id, owner: Id, now: Time)
    requires id in t.challenges && id in t.verifications
  {
    && t'.challenges == t.challenges[id := t.challenges[id].(
         state := A.Delivering, lease := Some(A.Lease(owner, now + 90 * SECOND)), expiresAt := now + 10 * MINUTE)]
    && t'.verifications == t.verifications[id := t.verifications[id].(expiresAt := now + 10 * MINUTE)]
    && t' == t.(challenges := t'.challenges, verifications := t'.verifications, events := t'.events)
  }

  /** The row a claim works on: an abandoned delivery of one of the products if there is one,
      and the oldest of its kind. */
  lemma ClaimPicksOldest(t: A.Tables, products: set<Id>, now: Time, id: Id)
    requires A.Picks(t, products, now, {id})
    ensures id in t.challenges && t.challenges[id].product in products
    ensures forall x :: x in t.challenges && A.Stuck(t.challenges[x], products, now) ==>
              A.Stuck(t.challenges[id], products, now) && t.challenges[id].createdAt <= t.challenges[x].createdAt
    ensures forall x ::
        x in t.challenges && A.Due(t.challenges[x], products, now) && !A.Stuck(t.challenges[id], products, now) ==>
              A.Due(t.challenges[id], products, now) && t.challenges[id].createdAt <= t.challenges[x].createdAt
  {
    forall x | x in t.challenges && A.Stuck(t.challenges[x], products, now)
      ensures A.Stuck(t.challenges[id], products, now) && t.challenges[id].createdAt <= t.challenges[x].createdAt
    {
      assert x in A.StuckRows(t, products, now);
      assert id in {id};
    }
    assert id in {id};
    if A.StuckRows(t, products, now) == map[] {
      forall x | x in t.challenges && A.Due(t.challenges[x], products, now)
        ensures A.Due(t.challenges[id], products, now) && t.challenges[id].createdAt <= t.challenges[x].createdAt
      {
        assert x in A.DueRows(t, products, now);
      }
    }
  }

  /** A defer by the owner, in time and with a verification nobody else is working on, puts
      the challenge back with its code, available from the retry time, both rows expiring 48
      hours after creation; past that it expires the challenge. */
  lemma DeferDecides(t: A.Tables, id: Id, owner: Id, retryAt: Time, now: Time)
    requires id in t.challenges && C.Coupled(t, id) && C.Shape(t.challenges[id]) && now < retryAt <= now + 24 * HOUR
    requires A.Owns(t.challenges[id], owner)
    ensures var c := t.challenges[id];
      && (A.Defer(t, id, owner, retryAt, now).Ok? <==>
            id in t.verifications && !t.verifications[id].verified && !t.verifications[id].busy)
      && (A.Defer(t, id, owner, retryAt, now).Ok? ==>
            A.Defer(t, id, owner, retryAt, now).value ==
              if c.createdAt + 48 * HOUR <= retryAt then
                t.(challenges := t.challenges[id := A.Scrub(c, A.Expired)])
              else
                t.(challenges := t.challenges[id := c.(
                     state := A.Requested, availableAt := retryAt, lease := None,
                         expiresAt := c.createdAt + 48 * HOUR)],
                   verifications := t.verifications[id := t.verifications[id].(expiresAt := c.createdAt + 48 * HOUR)]))
  {
  }

  /** Nobody else can settle or defer a delivery, and a settled one is acknowledged as it is. */
  lemma OnlyOwnerReports(t: A.Tables, id: Id, owner: Id, outcome: A.State, retryAt: Time, now: Time)
    requires id in t.challenges && C.Shape(t.challenges[id]) && !A.Owns(t.challenges[id], owner)
    requires outcome in {A.Delivered, A.DeliveryFailed, A.Uncertain} && now < retryAt <= now + 24 * HOUR
    ensures A.Finish(t, id, owner, outcome)
         == if t.challenges[id].state in {A.Requested, A.Delivering} then Err(Conflict) else Ok(t)
    ensures A.Defer(t, id, owner, retryAt, now)
         == if t.challenges[id].state in {A.Requested, A.Delivering} then Err(Conflict) else Ok(t)
  {
  }

  /** Reports about a missing challenge, to an impossible outcome, or with a retry time that is
      past or more than a day away are refused. */
  lemma MalformedReportIsRefused(t: A.Tables, id: Id, owner: Id, outcome: A.State, retryAt: Time, now: Time)
    ensures retryAt <= now || retryAt > now + 24 * HOUR ==> A.Defer(t, id, owner, retryAt, now) == Err(Invalid)
    ensures outcome !in {A.Delivered, A.DeliveryFailed, A.Uncertain} ==> A.Finish(t, id, owner, outcome) == Err(Invalid)
    ensures id !in t.challenges && now < retryAt <= now + 24 * HOUR ==>
              A.Defer(t, id, owner, retryAt, now) == Err(NotFound)
    ensures id !in t.challenges && outcome in {A.Delivered, A.DeliveryFailed, A.Uncertain} ==>
              A.Finish(t, id, owner, outcome) == Err(NotFound)
  {
  }

  /** A claim needs a daily limit between one and ten thousand, and something to work on. */
  lemma IdleClaimIsRefused(t: A.Tables, owner: Id, products: set<Id>, limit: nat, now: Time, pick: set<Id>)
    requires A.Picks(t, products, now, pick)
    ensures limit < 1 || limit > 10000 ==> A.Claim(t, owner, products, limit, now, pick) == Err(Invalid)
    ensures 1 <= limit <= 10000 && (products == {} || pick == {}) ==>
              A.Claim(t, owner, products, limit, now, pick) == Err(NotFound)
    ensures pick == {} <==>
              forall x :: x in t.challenges ==>
                !A.Stuck(t.challenges[x], products, now) && !A.Due(t.challenges[x], products, now)
  {
    if pick == {} {
      assert A.StuckRows(t, products, now).Keys == {} && A.DueRows(t, products, now).Keys == {};
      forall x | x in t.challenges
        ensures !A.Stuck(t.challenges[x], products, now) && !A.Due(t.challenges[x], products, now)
      {
        assert x !in A.StuckRows(t, products, now) && x !in A.DueRows(t, products, now);
      }
    } else {
      var id :| id in pick;
      A.PickIsQueued(t, products, now, pick, id);
    }
  }

  // ---------------------------------------------------------------- what create decides

  /** A new challenge is stored exactly as asked if its installation is usable, it expires
      within 48 hours of now and of its creation, there is room in the queue and in both
      contact budgets, and no verification has its identifier. */
  ghost predicate CanCreate(t: A.Tables, id: Id, c: A.Challenge, contact: Id, limit: nat, now: Time) {
    && now < c.expiresAt <= now + 48 * HOUR && c.expiresAt <= c.createdAt + 48 * HOUR
    && A.Taken(t, A.FlowKey(c.product, c.installation), now) < limit
    && RateLimiter.Commits(t.events, now, id, ContactBudget(contact))
    && c.installation in t.registry.installations && !t.registry.installations[c.installation].disabled
    && t.registry.installations[c.installation].product == c.product
    && id !in t.verifications
  }

  function ContactBudget(contact: Id): seq<RateLimiter.Limit> {
    [RateLimiter.Limit(2 * contact + 2, 15 * MINUTE, 6), RateLimiter.Limit(2 * contact + 3, MINUTE, 1)]
  }

  /** A request the service accepts: a fresh challenge with its code and ciphertext, available
      from its creation on and before it expires, and a verification that agrees with it. */
  predicate Acceptable(c: A.Challenge, v: A.Verification) {
    && c.state == A.Requested && c.attempts == 0 && c.lease == None && c.code.Some? && c.hasCipher
    && c.createdAt <= c.availableAt && c.availableAt < c.expiresAt && v.expiresAt == c.expiresAt
    && v.product == c.product && v.installation == Some(c.installation) && v.index == c.index
    && v.plain && !v.verified
  }

  lemma AcceptableIffValid(c: A.Challenge, v: A.Verification)
    ensures Acceptable(c, v) <==> A.ValidInput(c, v)
  {
  }

  /** A repeated request finds the challenge it made; another one under the same identifier is
      refused, and so is a malformed one. */
  lemma CreationIsIdempotent(t: A.Tables, id: Id, c: A.Challenge, v: A.Verification, contact: Id, limit: nat, now: Time)
    requires !Acceptable(c, v) || limit < 1 || limit > 10000 || id in t.challenges
    ensures A.Create(t, id, c, v, contact, limit, now) ==
      if !Acceptable(c, v) || limit < 1 || limit > 10000 then Err(Invalid)
      else if t.challenges[id].product == c.product && t.challenges[id].installation == c.installation
              && t.challenges[id].fingerprint == c.fingerprint then Ok((t, false))
      else Err(Conflict)
  {
    AcceptableIffValid(c, v);
  }

  lemma CreationDecides(t: A.Tables, id: Id, c: A.Challenge, v: A.Verification, contact: Id, limit: nat, now: Time)
    requires Acceptable(c, v) && 1 <= limit <= 10000 && id !in t.challenges
    ensures A.Create(t, id, c, v, contact, limit, now).Ok? <==> CanCreate(t, id, c, contact, limit, now)
    ensures A.Create(t, id, c, v, contact, limit, now).Ok? ==>
      && A.Create(t, id, c, v, contact, limit, now).value.1
      && StoredAsAsked(t, A.Create(t, id, c, v, contact, limit, now).value.0, id, c, v, contact, now)
  {
    AcceptableIffValid(c, v);
    if A.Create(t, id, c, v, contact, limit, now).Ok? {
      CreationStores(t, id, c, v, contact, limit, now, A.Create(t, id, c, v, contact, limit, now).value.0);
    }
  }

  lemma CreationStores(
      t: A.Tables, id: Id, c: A.Challenge, v: A.Verification, contact: Id, limit: nat, now: Time, t': A.Tables)
    requires id !in t.challenges && A.Create(t, id, c, v, contact, limit, now) == Ok((t', true))
    ensures StoredAsAsked(t, t', id, c, v, contact, now)
  {
    assert t' == A.Enqueue(A.CancelReplaced(t, A.Key(c)).(events := t'.events), id, c, v);
    EnqueueStores(t, id, c, v, contact, now, t');
  }

  lemma EnqueueStores(t: A.Tables, id: Id, c: A.Challenge, v: A.Verification, contact: Id, now: Time, t': A.Tables)
    requires id !in t.challenges && t' == A.Enqueue(A.CancelReplaced(t, A.Key(c)).(events := t'.events), id, c, v)
    requires t'.events == t.events + RateLimiter.Reservations(now, id, ContactBudget(contact))
    ensures StoredAsAsked(t, t', id, c, v, contact, now)
  {
    var key := A.Key(c);
    var t1 := A.CancelReplaced(t, key);
    assert t1 == t.(challenges := t1.challenges);
    forall x | x in t.challenges
        ensures t1.challenges.Keys == t.challenges.Keys && t1.challenges[x] == CancelledBy(t, key, x) {
      CancelsOne(t, key, x);
    }
    assert t1.challenges.Keys == t.challenges.Keys;
  }

  function CancelledBy(t: A.Tables, key: A.FlowKey, x: Id): A.Challenge
    requires x in t.challenges
  {
    if key in t.flows && t.flows[key].challenge == x && A.Key(t.challenges[x]) == key && A.Live(t.challenges[x].state)
    then A.Scrub(t.challenges[x], A.Cancelled) else t.challenges[x]
  }

  lemma CancelsOne(t: A.Tables, key: A.FlowKey, x: Id)
    requires x in t.challenges
    ensures A.CancelReplaced(t, key).challenges.Keys == t.challenges.Keys
    ensures A.CancelReplaced(t, key).challenges[x] == CancelledBy(t, key, x)
  {
  }

  /** The flow leads to the new challenge and keeps its session; the challenge it led to
      before, if it was live and of this installation, is cancelled; nothing else changes. */
  ghost predicate StoredAsAsked(
      t: A.Tables, t': A.Tables, id: Id, c: A.Challenge, v: A.Verification, contact: Id, now: Time)
  {
    var key := A.FlowKey(c.product, c.installation);
    && t'.flows == t.flows[key := A.Flow(id, if key in t.flows then t.flows[key].session else None)]
    && t'.verifications == t.verifications[id := v.(busy := false)]
    && t'.events == t.events + RateLimiter.Reservations(now, id, ContactBudget(contact))
    && id in t'.challenges && t'.challenges[id] == c && t'.challenges.Keys == t.challenges.Keys + {id}
    && (forall x :: x in t.challenges && x != id ==> t'.challenges[x] == CancelledBy(t, key, x))
    && t'.sessions == t.sessions && t'.tokens == t.tokens && t'.profiles == t.profiles && t'.registry == t.registry
  }

  /** The queue is what waits for mail: requested or being delivered, and not expired. */
  function WaitingFor(challenges: map<Id, A.Challenge>, now: Time): set<Id> {
    set id | id in challenges && challenges[id].expiresAt > now
             && (challenges[id].state == A.Requested || challenges[id].state == A.Delivering)
  }

  /** A challenge is created only if, without the one it replaces, fewer than the limit wait;
      afterwards at most the limit do. */
  lemma CreationRespectsCapacity(
      t: A.Tables, id: Id, c: A.Challenge, v: A.Verification, contact: Id, limit: nat, now: Time, t': A.Tables)
    requires A.Create(t, id, c, v, contact, limit, now) == Ok((t', true))
    ensures |WaitingFor(t'.challenges, now)| <= limit && id in WaitingFor(t'.challenges, now)
  {
    assert A.Queue(t'.challenges, now) == WaitingFor(t'.challenges, now);
    var s := Service.Step(now, Service.Create(id, c, v, contact, limit));
    C.CreateAdds(t, s, t');
    C.CreationFits(t, t', s);
  }

  // ------------------------------------------------------------------ what cleanup takes

  lemma CleanupRows(t: A.Tables, w: A.Sweep)
    ensures A.Cleanup(t, w).challenges == A.ScrubAll(t.challenges, w.expired) - w.dead
    ensures A.Cleanup(t, w).tokens == t.tokens - w.tokens && A.Cleanup(t, w).sessions == t.sessions - w.sessions
    ensures A.Cleanup(t, w).profiles == t.profiles && A.Cleanup(t, w).registry == t.registry
  {
  }

  /** A cleanup expires only overdue live challenges and deletes only those expired for more
      than 48 hours. */
  lemma CleanupTakesOnlyDead(t: A.Tables, now: Time, limit: nat, w: A.Sweep, id: Id)
    requires A.Sweeps(t, now, limit, w) && id in t.challenges
    ensures var t', c := A.Cleanup(t, w), t.challenges[id];
      && (id !in t'.challenges ==> c.expiresAt + 48 * HOUR < now)
      && (id in t'.challenges && t'.challenges[id] != c ==>
            A.Live(c.state) && c.expiresAt <= now && t'.challenges[id] == A.Scrub(c, A.Expired))
  {
    CleanupRows(t, w);
    assert id in w.expired ==> id in A.OverdueRows(t, now);
    assert id in w.dead ==> id in A.DeadRows(A.Swept1(t, w), now);
  }

  /** It deletes only expired tokens and sessions, adds none, and touches no product account. */
  lemma CleanupTakesOnlyExpired(t: A.Tables, now: Time, limit: nat, w: A.Sweep)
    requires A.Sweeps(t, now, limit, w)
    ensures var t' := A.Cleanup(t, w);
      && (forall k :: k in t.tokens && k !in t'.tokens ==> t.tokens[k].expiresAt <= now)
      && (forall k :: k in t'.tokens ==> k in t.tokens && t'.tokens[k] == t.tokens[k])
      && (forall s :: s in t.sessions && s !in t'.sessions ==> t.sessions[s].expiresAt <= now)
      && (forall s :: s in t'.sessions ==> s in t.sessions && t'.sessions[s] == t.sessions[s])
      && t'.challenges.Keys <= t.challenges.Keys && t'.profiles == t.profiles && t'.registry == t.registry
  {
    CleanupRows(t, w);
    assert forall k :: k in w.tokens ==> k in A.OldTokens(t, now);
    assert forall s :: s in w.sessions ==> s in A.OldSessions(t, now);
  }

  /** A flow loses its session only when that is deleted, and is deleted only without one and
      with its challenge gone or long expired. */
  lemma CleanupSparesFlows(t: A.Tables, now: Time, limit: nat, w: A.Sweep, k: A.FlowKey)
    requires A.Sweeps(t, now, limit, w) && k in t.flows
    ensures var t', f := A.Cleanup(t, w), t.flows[k];
      && (k in t'.flows ==>
            t'.flows[k] == if f.session.Some? && f.session.value in w.sessions then A.Flow(f.challenge, None) else f)
      && (k !in t'.flows ==>
            && (f.session.Some? ==> f.session.value in w.sessions)
            && (f.challenge in t.challenges ==> f.challenge in w.dead))
  {
    var t2 := A.Swept2(t, w);
    assert t2.challenges == A.ScrubAll(t.challenges, w.expired) - w.dead;
    if k in t2.flows {
      assert A.Swept3(t, w).flows[k] == A.Unlink(t.flows[k], w.sessions);
    }
  }

  /** A statement that found fewer rows than its limit leaves no expired row behind. */
  lemma CleanupIsThorough(t: A.Tables, now: Time, limit: nat, w: A.Sweep)
    requires A.Sweeps(t, now, limit, w)
    ensures |w.tokens| < limit ==> forall k :: k in A.Cleanup(t, w).tokens ==> t.tokens[k].expiresAt > now
    ensures |w.sessions| < limit ==> forall s :: s in A.Cleanup(t, w).sessions ==> t.sessions[s].expiresAt > now
  {
    CleanupRows(t, w);
    if |w.tokens| < limit {
      assert w.tokens == A.OldTokens(t, now).Keys;
    }
    if |w.sessions| < limit {
      assert w.sessions == A.OldSessions(t, now).Keys;
    }
  }

  lemma CleanupExpiresAll(t: A.Tables, now: Time, limit: nat, w: A.Sweep, id: Id)
    requires A.Sweeps(t, now, limit, w) && id in A.Cleanup(t, w).challenges
    ensures |w.expired| < limit && A.Live(A.Cleanup(t, w).challenges[id].state) ==>
              A.Cleanup(t, w).challenges[id].expiresAt > now
    ensures |w.dead| < limit ==> A.Cleanup(t, w).challenges[id].expiresAt + 48 * HOUR >= now
  {
    CleanupRows(t, w);
    if |w.expired| < limit {
      assert w.expired == A.OverdueRows(t, now).Keys;
    }
    if |w.dead| < limit {
      assert w.dead == A.DeadRows(A.Swept1(t, w), now).Keys;
    }
  }
}
