/** One concrete run of the whole service, step by step, that reaches the two surprising
    states: a defer that brings an expired row back into the queue count, and a refresh token
    that outlives its session and escapes the erasure of its person. */
module Scenario {
  import opened Common
  import A = Accounts
  import C = Challenges
  import D = Deletion
  import E = ErasureLaws
  import RateLimiter
  import Registry
  import Saga
  import Service

  const KEYS: Registry.Keyring := Registry.Keyring([1], 1)
  const INDEX: Registry.Digest := Registry.Digest(1, 99)
  const KEY: A.FlowKey := A.FlowKey(5, 7)

  /** Installation 7 of product 5, before and after person 8 is bound to it. */
  const DEVICE: Registry.Tables := Registry.EMPTY.(installations := map[7 := Registry.Installation(5, None, false)])
  const ENROLLED: Registry.Tables := Registry.EMPTY.(
    persons := map[8 := Registry.Person(false)],
    identities := map[30 := Registry.Identity(8, 5, A.ACCOUNT, Registry.WithinProduct(5))],
    indexes := map[Registry.KeyAt(A.ACCOUNT, Registry.WithinProduct(5), 1, 99) := 30],
    accounts := map[6 := Registry.Account(8, true)],
    accountOf := map[8 := 6],
    installations := map[7 := Registry.Installation(5, Some(8), false)])

  const ASKED: A.Challenge := A.Challenge(
    5, 7, 0, 0, 0, Some(42), true, INDEX, A.Requested, 0, 0, None, 0, A.QUEUE_TTL)
  const PENDING: A.Verification := A.Verification(5, Some(7), true, INDEX, A.QUEUE_TTL, false, false)
  const SENT: A.Challenge := A.TakeLease(ASKED, 100, 0)

  const CONTACTED: set<RateLimiter.Event> := {RateLimiter.Event(2, 0, 1), RateLimiter.Event(3, 0, 1)}
  const CLAIMED: set<RateLimiter.Event> := CONTACTED + {RateLimiter.Event(0, 0, 100), RateLimiter.Event(1, 0, 100)}

  const PROOF: A.Proof := A.Proof(
    1, 5, 7, 0, 0, 42, 1, 2, 10, 99, 0, Registry.NewIdentity(30, 8, 6, 5, A.ACCOUNT, false, true, Some(7)))

  // The tables after each step.
  const INSTALLED: A.Tables := A.EMPTY.(registry := DEVICE)
  const CREATED: A.Tables := INSTALLED.(
    challenges := map[1 := ASKED],
    verifications := map[1 := PENDING],
    flows := map[KEY := A.Flow(1, None)],
    events := CONTACTED)
  const LEASED: A.Tables := CREATED.(
    challenges := map[1 := SENT],
    verifications := map[1 := PENDING.(expiresAt := A.CODE_TTL)],
    events := CLAIMED)
  const COMPLETED: A.Tables := A.Tables(
    map[1 := A.Scrub(SENT, A.Consumed)],
    map[],
    map[KEY := A.Flow(1, Some(1))],
    map[1 := A.Session(5, 6, 7, true, 10)],
    map[2 := A.Token(1, 10, false)],
    map[A.ProfileKey(5, 6) := A.Profile(30, true)],
    CLAIMED,
    ENROLLED)
  const ROTATED: A.Tables := COMPLETED.(tokens := map[2 := A.Token(1, 10, true), 3 := A.Token(1, 10, false)])

  const SWEEP: A.Sweep := A.Sweep({}, {}, {2}, {1}, {}, {})
  const DEFER: Service.Step := Service.Step(A.CODE_TTL, Service.Defer(1, 100, A.CODE_TTL + 1))

  function At(t: A.Tables, clock: Time): Service.World {
    Service.World(t, Saga.START, KEYS, clock)
  }

  // ------------------------------------------------------------ one transaction at a time

  lemma CreateCommits()
    ensures A.Create(INSTALLED, 1, ASKED, PENDING, 0, 1, 0) == Ok((CREATED, true))
  {
    var limits := A.ContactLimits(0);
    assert A.Queue(INSTALLED.challenges, 0) == {};
    assert RateLimiter.Recent({}, 2, 0 - limits[0].window) == {};
    assert RateLimiter.Recent({}, 3, 0 - limits[1].window) == {};
    assert RateLimiter.Reservations(0, 1, limits) == CONTACTED by {
      assert limits[0] in limits && limits[1] in limits;
    }
    assert RateLimiter.Reserved({}, 0, 1, limits) == Ok({} + CONTACTED);
    assert {} + CONTACTED == CONTACTED;
  }

  lemma SendIsReserved()
    ensures RateLimiter.Reserved(CONTACTED, 0, 100, A.SendLimits(1)) == Ok(CLAIMED)
  {
    var limits := A.SendLimits(1);
    assert RateLimiter.Recent(CONTACTED, 0, 0 - limits[0].window) == {};
    assert RateLimiter.Recent(CONTACTED, 1, 0 - limits[1].window) == {};
    assert RateLimiter.Reservations(0, 100, limits) == {RateLimiter.Event(0, 0, 100), RateLimiter.Event(1, 0, 100)} by {
      assert limits[0] in limits && limits[1] in limits;
    }
  }

  lemma ClaimPicks()
    ensures A.Picks(CREATED, {5}, 0, {1})
  {
    assert A.StuckRows(CREATED, {5}, 0) == map[];
    assert A.DueRows(CREATED, {5}, 0) == map[1 := 0];
  }

  lemma ClaimCommits()
    ensures A.Picks(CREATED, {5}, 0, {1}) && A.Claim(CREATED, 100, {5}, 1, 0, {1}) == Ok((LEASED, 1))
  {
    ClaimPicks();
    SendIsReserved();
    assert A.Closing(CREATED, 1, ASKED, 0) == None;
    assert CREATED.challenges[1 := SENT] == LEASED.challenges;
    assert CREATED.verifications[1 := PENDING.(expiresAt := A.CODE_TTL)] == LEASED.verifications;
  }

  lemma ProofRegisters()
    ensures Registry.Register(DEVICE, KEYS, 99, PROOF.identity)
         == Ok((ENROLLED, Registry.Registered(30, 8, Some(6), 1, true)))
  {
    assert Registry.FirstMatch(DEVICE, [1], A.ACCOUNT, Registry.WithinProduct(5), 99) == None;
    assert DEVICE.persons[8 := Registry.Person(false)] == ENROLLED.persons;
    assert DEVICE.identities[30 := ENROLLED.identities[30]] == ENROLLED.identities;
    assert DEVICE.indexes[Registry.KeyAt(A.ACCOUNT, Registry.WithinProduct(5), 1, 99) := 30] == ENROLLED.indexes;
    assert DEVICE.accounts[6 := Registry.Account(8, true)] == ENROLLED.accounts;
    assert DEVICE.accountOf[8 := 6] == ENROLLED.accountOf;
    assert DEVICE.installations[7 := ENROLLED.installations[7]] == ENROLLED.installations;
    assert Registry.Relabelled(map[], 7, 8) == map[];
  }

  /** The product account and the session of the accepted proof. */
  lemma ProofIssues()
    ensures var t1 := LEASED.(registry := ENROLLED, profiles := COMPLETED.profiles);
      && A.AddProfile(LEASED.(registry := ENROLLED), A.ProfileKey(5, 6), 30) == Ok(t1)
      && A.Issue(t1, KEY, 6, PROOF)
         == Ok(t1.(sessions := COMPLETED.sessions, tokens := COMPLETED.tokens, flows := COMPLETED.flows))
  {
    assert LEASED.profiles[A.ProfileKey(5, 6) := A.Profile(30, true)] == COMPLETED.profiles;
    assert LEASED.sessions[1 := A.Session(5, 6, 7, true, 10)] == COMPLETED.sessions;
    assert LEASED.tokens[2 := A.Token(1, 10, false)] == COMPLETED.tokens;
    assert LEASED.flows[KEY := A.Flow(1, Some(1))] == COMPLETED.flows;
  }

  lemma CompleteCommits()
    ensures A.Complete(LEASED, map[], KEYS, PROOF, 0)
         == Ok((COMPLETED, A.Issued(Registry.Registered(30, 8, Some(6), 1, true))))
  {
    ProofRegisters();
    assert KEYS.versions[0] == 1;
    assert A.CheckProof(LEASED, PROOF) == Ok(SENT);
    assert A.CheckIdentity(LEASED, SENT, KEYS, PROOF, 0) == Pass;
    ProofIssues();
    assert LEASED.verifications - {1} == map[];
    assert LEASED.challenges[1 := A.Scrub(SENT, A.Consumed)] == COMPLETED.challenges;
  }

  lemma RotateCommits()
    ensures A.Rotate(COMPLETED, map[], 2, 3, 1) == Ok((ROTATED, A.Refreshed(1)))
  {
    assert A.Linked(COMPLETED, 8, 30, 7, 5, 1);
    assert A.Authorized(COMPLETED, map[], 1, 5, 1) == Ok(A.Profile(30, true));
    assert COMPLETED.tokens[2 := A.Token(1, 10, true)][3 := A.Token(1, 10, false)] == ROTATED.tokens;
  }

  lemma SweepIsBounded()
    ensures A.Sweeps(ROTATED, 10, 1, SWEEP)
  {
    ChallengesAreKept();
    OneTokenAndSession();
    NoOrphanFlow();
    assert RateLimiter.Stale(ROTATED.events, 10) == {};
  }

  lemma ChallengesAreKept()
    ensures OldestRows(A.OverdueRows(ROTATED, 10), {}, 1)
    ensures OldestRows(A.DeadRows(A.Swept1(ROTATED, SWEEP), 10), {}, 1)
  {
    assert A.OverdueRows(ROTATED, 10) == map[];
    assert A.Swept1(ROTATED, SWEEP).challenges == ROTATED.challenges;
    assert A.DeadRows(A.Swept1(ROTATED, SWEEP), 10) == map[];
  }

  lemma OneTokenAndSession()
    ensures OldestRows(A.OldTokens(ROTATED, 10), {2}, 1) && OldestRows(A.OldSessions(ROTATED, 10), {1}, 1)
  {
    assert A.OldTokens(ROTATED, 10).Keys == {2, 3} && A.OldSessions(ROTATED, 10).Keys == {1};
  }

  /** The flow still leads to its consumed challenge. */
  lemma NoOrphanFlow()
    ensures A.OrphanFlows(A.Swept3(ROTATED, SWEEP)) == {}
  {
    var t3 := A.Swept3(ROTATED, SWEEP);
    assert 1 in t3.challenges;
    assert forall k :: k in t3.flows ==> t3.flows[k].challenge == 1;
  }

  // ------------------------------------------------------------- each of them is a step

  lemma InstallReaches(w: Service.World, id: Id, product: Id, registry: Registry.Tables)
    requires Service.Reached(KEYS, w) && Registry.CreateInstallation(w.t.registry, id, product) == Ok(registry)
    ensures Service.Reached(KEYS, w.(t := w.t.(registry := registry)))
  {
    Service.StepReaches(KEYS, w, Service.Step(w.clock, Service.Enroll(Registry.OpInstall(id, product))));
  }

  lemma CreateReaches(
      w: Service.World, id: Id, c: A.Challenge, v: A.Verification, contact: Id, limit: nat, t': A.Tables)
    requires Service.Reached(KEYS, w) && A.Create(w.t, id, c, v, contact, limit, w.clock) == Ok((t', true))
    ensures Service.Reached(KEYS, w.(t := t'))
  {
    Service.StepReaches(KEYS, w, Service.Step(w.clock, Service.Create(id, c, v, contact, limit)));
  }

  lemma ClaimReaches(
      w: Service.World, owner: Id, products: set<Id>, limit: nat, pick: set<Id>, t': A.Tables, id: Id)
    requires Service.Reached(KEYS, w) && A.Picks(w.t, products, w.clock, pick)
    requires A.Claim(w.t, owner, products, limit, w.clock, pick) == Ok((t', id))
    ensures Service.Reached(KEYS, w.(t := t'))
  {
    Service.StepReaches(KEYS, w, Service.Step(w.clock, Service.Claim(owner, products, limit, pick)));
  }

  lemma CompleteReaches(w: Service.World, p: A.Proof, t': A.Tables, r: A.Completion)
    requires Service.Reached(KEYS, w) && A.Complete(w.t, w.saga.t.requests, w.keys, p, w.clock) == Ok((t', r))
    ensures Service.Reached(KEYS, w.(t := t'))
  {
    Service.StepReaches(KEYS, w, Service.Step(w.clock, Service.Complete(p)));
  }

  lemma RotateReaches(w: Service.World, used: Id, next: Id, now: Time, t': A.Tables, r: A.Rotation)
    requires Service.Reached(KEYS, w) && w.clock <= now
    requires A.Rotate(w.t, w.saga.t.requests, used, next, now) == Ok((t', r))
    ensures Service.Reached(KEYS, w.(t := t', clock := now))
  {
    Service.StepReaches(KEYS, w, Service.Step(now, Service.Rotate(used, next)));
  }

  lemma CleanupReaches(w: Service.World, now: Time, limit: nat, sweep: A.Sweep)
    requires Service.Reached(KEYS, w) && w.clock <= now && A.Sweeps(w.t, now, limit, sweep)
    ensures Service.Reached(KEYS, w.(t := A.Cleanup(w.t, sweep), clock := now))
  {
    Service.StepReaches(KEYS, w, Service.Step(now, Service.Cleanup(limit, sweep)));
  }

  lemma VerifyReaches(w: Service.World, id: Id, row: A.Verification)
    requires Service.Reached(KEYS, w) && Service.OtherWriter(w.t, id, Some(row))
    ensures Service.Reached(KEYS, w.(t := w.t.(verifications := w.t.verifications[id := row])))
  {
    Service.StepReaches(KEYS, w, Service.Step(w.clock, Service.Verify(id, Some(row))));
  }

  // ------------------------------------------------------------------------- the run

  lemma LeasedIsReached()
    ensures Service.Reached(KEYS, At(LEASED, 0))
  {
    assert KEYS.versions[0] == 1;
    Service.StartIsReached(KEYS);
    assert Registry.EMPTY.installations[7 := Registry.Installation(5, None, false)] == DEVICE.installations;
    InstallReaches(At(A.EMPTY, 0), 7, 5, DEVICE);
    CreateCommits();
    CreateReaches(At(INSTALLED, 0), 1, ASKED, PENDING, 0, 1, CREATED);
    ClaimCommits();
    ClaimReaches(At(CREATED, 0), 100, {5}, 1, {1}, LEASED, 1);
  }

  lemma RotatedIsReached()
    ensures Service.Reached(KEYS, At(ROTATED, 1))
  {
    LeasedIsReached();
    CompleteCommits();
    CompleteReaches(At(LEASED, 0), PROOF, COMPLETED, A.Issued(Registry.Registered(30, 8, Some(6), 1, true)));
    RotateCommits();
    RotateReaches(At(COMPLETED, 0), 2, 3, 1, ROTATED, A.Refreshed(1));
  }

  lemma SweptIsReached()
    ensures Service.Reached(KEYS, At(A.Cleanup(ROTATED, SWEEP), 10))
  {
    RotatedIsReached();
    SweepIsBounded();
    CleanupReaches(At(ROTATED, 1), 10, 1, SWEEP);
  }

  // ------------------------------------------------------------------- what it shows

  /** A late defer happens: ten minutes after the claim the row has left the count, and the
      defer brings it back. */
  lemma LateDeferHappens()
    ensures var w := At(LEASED, 0);
      && Service.Reached(KEYS, w) && Service.Possible(w, DEFER) && C.LateDefer(w, DEFER)
      && A.Queue(w.t.challenges, DEFER.now) == {}
      && A.Queue(Service.After(w, DEFER).challenges, DEFER.now) == {1}
  {
    LeasedIsReached();
    DeferCommits();
    DeferIsLate(At(LEASED, 0), 1, 100, A.CODE_TTL + 1, A.CODE_TTL, A.Requeue(SENT, A.CODE_TTL + 1));
  }

  lemma DeferCommits()
    ensures A.Queue(LEASED.challenges, A.CODE_TTL) == {}
    ensures A.Queue(LEASED.challenges[1 := A.Requeue(SENT, A.CODE_TTL + 1)], A.CODE_TTL) == {1}
    ensures A.Defer(LEASED, 1, 100, A.CODE_TTL + 1, A.CODE_TTL).Ok?
    ensures A.Defer(LEASED, 1, 100, A.CODE_TTL + 1, A.CODE_TTL).value.challenges
         == LEASED.challenges[1 := A.Requeue(SENT, A.CODE_TTL + 1)]
  {
  }

  /** A defer that requeues its row past the row's expiry is a late one. */
  lemma DeferIsLate(w: Service.World, id: Id, owner: Id, retryAt: Time, now: Time, row: A.Challenge)
    requires w.clock <= now && id in w.t.challenges && w.t.challenges[id].expiresAt <= now
    requires A.Defer(w.t, id, owner, retryAt, now).Ok? && w.t.challenges[id].state == A.Delivering
    requires A.Defer(w.t, id, owner, retryAt, now).value.challenges == w.t.challenges[id := row]
    requires row == A.Requeue(w.t.challenges[id], retryAt)
    ensures var s := Service.Step(now, Service.Defer(id, owner, retryAt));
      Service.Possible(w, s) && C.LateDefer(w, s) && Service.After(w, s).challenges == w.t.challenges[id := row]
  {
  }

  /** A token outlives its session: after a completion and one rotation, a cleanup bounded to
      one row per statement deletes one of the two tokens and the session. Before it a deletion
      of the person covered the session; after it their erasure does not find the other token. */
  lemma OrphanTokenSurvives()
    ensures Service.Reached(KEYS, At(ROTATED, 1)) && Service.Reached(KEYS, At(A.Cleanup(ROTATED, SWEEP), 10))
    ensures 1 in ROTATED.sessions && D.Bond(ROTATED, 1) && 3 in ROTATED.tokens && ROTATED.tokens[3].session == 1
    ensures D.Covered(ROTATED, Saga.Request(true, Saga.Person(8), true, None, Saga.Requested), 1)
    ensures var t := A.Cleanup(ROTATED, SWEEP);
      1 !in t.sessions && 3 in t.tokens && 3 in A.Erase(t, Registry.ThePerson(8)).tokens
  {
    RotatedIsReached();
    SweptIsReached();
    SweptRows();
    D.ErasureLeavesTokenIff(A.Cleanup(ROTATED, SWEEP), Registry.ThePerson(8), 3);
  }

  lemma SweptRows()
    ensures var swept := A.Cleanup(ROTATED, SWEEP);
      swept.sessions == map[] && 3 in swept.tokens && swept.tokens[3].session == 1
  {
    var t3 := A.Swept3(ROTATED, SWEEP);
    assert t3.sessions == ROTATED.sessions - {1} && t3.tokens == ROTATED.tokens - {2};
  }

  /** A verification of the same email that another part of the service created, for an
      installation bound to nobody and without a challenge of its own. */
  const ELSEWHERE: A.Verification := A.Verification(5, Some(9), true, INDEX, 100, false, false)
  const VERIFYING: A.Tables := ROTATED.(verifications := map[50 := ELSEWHERE])

  /** Such a verification outlives the erasure of the person its email is indexed to: erasure
      finds verifications by installation and by challenge only. */
  lemma LoneVerificationSurvives()
    ensures Service.Reached(KEYS, At(VERIFYING, 1))
    ensures E.ErasedEmail(VERIFYING.registry, Registry.ThePerson(8), 5, INDEX)
    ensures var t' := A.Erase(VERIFYING, Registry.ThePerson(8));
      50 in t'.verifications && t'.verifications[50].product == 5 && t'.verifications[50].index == INDEX
  {
    VerifyingIsReached();
    EmailIsErased();
    EnrolledIsIndexed();
    LoneStays(VERIFYING, Registry.ThePerson(8), 50);
  }

  lemma VerifyingIsReached()
    ensures Service.Reached(KEYS, At(VERIFYING, 1))
  {
    RotatedIsReached();
    assert ROTATED.verifications[50 := ELSEWHERE] == VERIFYING.verifications;
    VerifyReaches(At(ROTATED, 1), 50, ELSEWHERE);
  }

  lemma EmailIsErased()
    ensures E.ErasedEmail(ENROLLED, Registry.ThePerson(8), 5, INDEX)
  {
    assert 30 in ENROLLED.identities;
  }

  /** A verification without a challenge, off the erased installations, stays. */
  lemma LoneStays(t: A.Tables, e: Registry.Target, id: Id)
    requires Registry.Indexed(t.registry) && id in t.verifications && id !in t.challenges
    requires var v := t.verifications[id];
      v.installation.Some? ==> !E.OnErasedDevice(t.registry, e, v.installation.value, v.product)
    ensures id in A.Erase(t, e).verifications && A.Erase(t, e).verifications[id] == t.verifications[id]
  {
    E.ErasureTakesVerificationIff(t, e, id);
  }

  lemma EnrolledIsIndexed()
    ensures Registry.Indexed(ENROLLED)
  {
    var k := Registry.KeyAt(A.ACCOUNT, Registry.WithinProduct(5), 1, 99);
    assert Registry.IndexRow(ENROLLED, k) && Registry.IdentityRow(ENROLLED, 30);
  }
}
