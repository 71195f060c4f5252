/** The account transactions as the service runs them, statement by statement over one
    store, each proved against its specification in module Accounts. */
module AccountStore {
  import opened Common
  import opened Accounts
  import RateLimiter
  import Registry
  import Saga

  /** consumePublicAuthLimits inside another transaction: it works on the same table. */
  method Spend(events: set<RateLimiter.Event>, now: Time, id: Id, limits: seq<RateLimiter.Limit>)
      returns (r: Result<set<RateLimiter.Event>>)
    ensures r == RateLimiter.Reserved(events, now, id, limits)
  {
    var table := new RateLimiter.AuthEvents(events);
    var spent := table.Consume(now, id, limits);
    RateLimiter.ConsumedIsReserved(events, table.events, now, id, limits, spent);
    if spent.Err? {
      return Err(spent.error);
    }
    return Ok(table.events);
  }

  /** registerEmailIdentityTx inside another transaction. */
  method RegisterWithin(tables: Registry.Tables, k: Registry.Keyring, email: Id, n: Registry.NewIdentity)
      returns (r: Result<(Registry.Tables, Registry.Registered)>)
    ensures r == Registry.Register(tables, k, email, n)
  {
    var registry := new Registry.RegistryStore();
    registry.t := tables;
    var registered := registry.RegisterEmailIdentity(k, email, n);
    if registered.Err? {
      return Err(registered.error);
    }
    return Ok((registry.t, registered.value));
  }

  class Store {
    var t: Tables

    constructor ()
      ensures t == EMPTY
    {
      t := EMPTY;
    }

    // ------------------------------------------------------------ challenges

    method CreatePublicEmailChallenge(
        id: Id, c: Challenge, v: Verification, contact: Id, dailyLimit: nat, now: Time) returns (r: Result<bool>)
      modifies this
      ensures var spec := Create(old(t), id, c, v, contact, dailyLimit, now);
        if spec.Ok? then r == Ok(spec.value.1) && t == spec.value.0 else r == Err(spec.error) && t == old(t)
    {
      if !ValidInput(c, v) || dailyLimit == 0 || dailyLimit > 10000 {
        return Err(Invalid);
      }
      if id in t.challenges {
        var existing := t.challenges[id];
        if existing.product != c.product || existing.installation != c.installation ||
            existing.fingerprint != c.fingerprint {
          return Err(Conflict);
        }
        return Ok(false);
      }
      if c.expiresAt <= now || c.expiresAt > now + QUEUE_TTL || c.expiresAt > c.createdAt + QUEUE_TTL {
        return Err(Invalid);
      }
      var session, previous := None, None;
      if Key(c) in t.flows {
        session := t.flows[Key(c)].session;
        if t.flows[Key(c)].challenge in t.challenges {
          previous := Some(t.flows[Key(c)].challenge);
        }
      }
      var cancels := previous.Some? && Key(t.challenges[previous.value]) == Key(c) &&
          CanMove(t.challenges[previous.value].state, Cancelled);
      var pending := |Queue(t.challenges, now)|;
      if cancels && Waiting(t.challenges[previous.value], now) {
        assert previous.value in Queue(t.challenges, now);
        pending := pending - 1;
      }
      if pending >= dailyLimit {
        return Err(Limited(now + MINUTE));
      }
      var before := t;
      var spent := Spend(t.events, now, id, ContactLimits(contact));
      if spent.Err? {
        return Err(spent.error);
      }
      t := t.(events := spent.value);
      if cancels {
        t := t.(challenges := t.challenges[previous.value := Scrub(t.challenges[previous.value], Cancelled)]);
      }
      if !Usable(t.registry, c.installation, c.product) {
        t := before;
        return Err(NotFound);
      }
      if id in t.verifications {
        t := before;
        return Err(Conflict);
      }
      t := t.(verifications := t.verifications[id := v.(busy := false)]);
      t := t.(challenges := t.challenges[id := c]);
      t := t.(flows := t.flows[Key(c) := Flow(id, session)]);
      return Ok(true);
    }

    /** Resolves an abandoned delivery, or takes the next due challenge. */
    method ClaimPublicEmailDelivery(
        owner: Id, products: set<Id>, dailyLimit: nat, now: Time) returns (r: Result<Id>, ghost pick: set<Id>)
      modifies this
      ensures Picks(old(t), products, now, pick)
      ensures var spec := Claim(old(t), owner, products, dailyLimit, now, pick);
        if spec.Ok? then r == Ok(spec.value.1) && t == spec.value.0 else r == Err(spec.error) && t == old(t)
    {
      var stuck := StuckRows(t, products, now);
      var picked;
      if stuck != map[] {
        picked := TakeOldest(stuck, 1);
      } else {
        picked := TakeOldest(DueRows(t, products, now), 1);
      }
      pick := picked;
      if dailyLimit == 0 || dailyLimit > 10000 {
        return Err(Invalid), pick;
      }
      if products == {} || picked == {} {
        return Err(NotFound), pick;
      }
      var id :| id in picked;
      PickIsQueued(t, products, now, pick, id);
      var c := t.challenges[id];
      if c.state == Delivering {
        t := t.(challenges := t.challenges[id := Settle(c, Uncertain)]);
        return Ok(id), pick;
      }
      var closing := None;
      if Key(c) !in t.flows || t.flows[Key(c)].challenge != id || !Usable(t.registry, c.installation, c.product) {
        closing := Some(Cancelled);
      } else if now >= c.expiresAt {
        closing := Some(Expired);
      } else if id !in t.verifications {
        closing := Some(Cancelled);
      } else if now >= t.verifications[id].expiresAt {
        closing := Some(Expired);
      }
      if closing.Some? {
        t := t.(challenges := t.challenges[id := Scrub(c, closing.value)]);
        return Ok(id), pick;
      }
      var v := t.verifications[id];
      if !Bound(c, v) {
        return Err(Conflict), pick;
      }
      var spent := Spend(t.events, now, owner, SendLimits(dailyLimit));
      if spent.Err? {
        return Err(spent.error), pick;
      }
      t := t.(events := spent.value);
      t := t.(verifications := t.verifications[id := v.(expiresAt := now + CODE_TTL)]);
      t := t.(challenges := t.challenges[id := TakeLease(c, owner, now)]);
      return Ok(id), pick;
    }

    method DeferPublicEmailDelivery(id: Id, owner: Id, retryAt: Time, now: Time) returns (r: Result<()>)
      modifies this
      ensures var spec := Defer(old(t), id, owner, retryAt, now);
        if spec.Ok? then r == Ok(()) && t == spec.value else r == Err(spec.error) && t == old(t)
    {
      if retryAt <= now || retryAt > now + DAY {
        return Err(Invalid);
      }
      if id !in t.challenges {
        return Err(NotFound);
      }
      var c := t.challenges[id];
      if Acknowledged(c.state) {
        return Ok(());
      }
      if c.state != Delivering || c.lease.None? || c.lease.value.owner != owner {
        return Err(Conflict);
      }
      if id !in t.verifications {
        return Err(NotFound);
      }
      var v := t.verifications[id];
      if !Bound(c, v) {
        return Err(Conflict);
      }
      var deadline := c.createdAt + QUEUE_TTL;
      if now >= deadline || retryAt >= deadline {
        t := t.(challenges := t.challenges[id := Scrub(c, Expired)]);
        return Ok(());
      }
      t := t.(verifications := t.verifications[id := v.(expiresAt := deadline)]);
      t := t.(challenges := t.challenges[id := Requeue(c, retryAt)]);
      return Ok(());
    }

    method FinishPublicEmailDelivery(id: Id, owner: Id, outcome: State) returns (r: Result<()>)
      modifies this
      ensures var spec := Finish(old(t), id, owner, outcome);
        if spec.Ok? then r == Ok(()) && t == spec.value else r == Err(spec.error) && t == old(t)
    {
      if !Outcome(outcome) {
        return Err(Invalid);
      }
      if id !in t.challenges {
        return Err(NotFound);
      }
      var c := t.challenges[id];
      if Acknowledged(c.state) {
        return Ok(());
      }
      if c.state != Delivering || c.lease.None? || c.lease.value.owner != owner {
        return Err(Conflict);
      }
      t := t.(challenges := t.challenges[id := Settle(c, outcome)]);
      return Ok(());
    }

    // ------------------------------------------------------------- completion

    /** The end of an accepted proof: the previous session, the new one, the flow. */
    method IssueSession(key: FlowKey, account: Id, p: Proof) returns (r: Result<()>)
      requires key in t.flows
      modifies this
      ensures var spec := Issue(old(t), key, account, p);
        if spec.Ok? then r == Ok(()) && t == spec.value else r == Err(spec.error) && t == old(t)
    {
      var before := t;
      var previous := t.flows[key].session;
      if previous.Some? && previous.value in t.sessions {
        var s := t.sessions[previous.value];
        if s.product != key.product || s.installation != key.installation || s.account != account ||
            previous.value == p.session {
          return Err(Conflict);
        }
        t := t.(sessions := t.sessions[previous.value := s.(active := false)]);
      }
      if p.session in t.sessions || p.refresh in t.tokens {
        t := before;
        return Err(Conflict);
      }
      t := t.(sessions := t.sessions[p.session := Session(key.product, account, key.installation, true,
          p.refreshExpiresAt)]);
      t := t.(tokens := t.tokens[p.refresh := Token(p.session, p.refreshExpiresAt, false)]);
      t := t.(flows := t.flows[key := t.flows[key].(session := Some(p.session))]);
      return Ok(());
    }

    method AcceptProof(
        requests: map<Id, Saga.Request>, k: Registry.Keyring, p: Proof, c: Challenge, now: Time)
        returns (r: Result<Completion>)
      requires p.challenge in t.challenges && Key(c) in t.flows
      modifies this
      ensures var spec := Accept(old(t), requests, k, p, c, now);
        if spec.Ok? then r == Ok(spec.value.1) && t == spec.value.0 else r == Err(spec.error) && t == old(t)
    {
      var before := t;
      var checked := CheckIdentity(t, c, k, p, now);
      if checked.Fail? {
        return Err(checked.error);
      }
      var registered := RegisterWithin(t.registry, k, p.email, p.identity);
      if registered.Err? {
        return Err(registered.error);
      }
      var registry, who := registered.value.0, registered.value.1;
      if who.account.None? || who.account.value !in registry.accounts ||
          registry.accounts[who.account.value].person != who.person
         || !registry.accounts[who.account.value].active || who.person !in registry.persons ||
             registry.persons[who.person].deleted {
        return Err(NotFound);
      }
      if DeletionPending(requests, who.person, c.installation, c.product) {
        return Err(NotFound);
      }
      var key := ProfileKey(c.product, who.account.value);
      if key in t.profiles && (!t.profiles[key].active || t.profiles[key].identity != who.identity) {
        return Err(NotFound);
      }
      t := t.(registry := registry);
      t := t.(profiles := t.profiles[key := Profile(who.identity, true)]);
      var issued := IssueSession(Key(c), who.account.value, p);
      if issued.Err? {
        t := before;
        return Err(issued.error);
      }
      t := t.(verifications := t.verifications - {p.challenge});
      t := t.(challenges := t.challenges[p.challenge := Scrub(c, Consumed)]);
      return Ok(Issued(who));
    }

    method CompletePublicEmailChallenge(
        requests: map<Id, Saga.Request>, k: Registry.Keyring, p: Proof, now: Time) returns (r: Result<Completion>)
      modifies this
      ensures var spec := Complete(old(t), requests, k, p, now);
        if spec.Ok? then r == Ok(spec.value.1) && t == spec.value.0 else r == Err(spec.error) && t == old(t)
    {
      if p.challenge !in t.challenges {
        return Err(NotFound);
      }
      var c := t.challenges[p.challenge];
      if c.product != p.product || c.installation != p.installation || c.otpKey != p.otpKey || c.nonce != p.nonce
         || c.attempts >= MAX_ATTEMPTS || (c.state != Delivering && c.state != Delivered && c.state != Uncertain) {
        return Err(NotFound);
      }
      if Key(c) !in t.flows || t.flows[Key(c)].challenge != p.challenge ||
          !Usable(t.registry, p.installation, p.product) {
        return Err(NotFound);
      }
      if now >= c.expiresAt {
        t := t.(challenges := t.challenges[p.challenge := Scrub(c, Expired)]);
        return Ok(Rejected);
      }
      if c.code != Some(p.code) {
        var wrong := c.(attempts := c.attempts + 1);
        if wrong.attempts == MAX_ATTEMPTS {
          wrong := Scrub(wrong, Locked);
        }
        t := t.(challenges := t.challenges[p.challenge := wrong]);
        return Ok(Rejected);
      }
      r := AcceptProof(requests, k, p, c, now);
    }

    // --------------------------------------------------------------- sessions

    method AuthorizedPublicAccountSession(
        requests: map<Id, Saga.Request>, id: Id, product: Id, now: Time) returns (r: Result<Profile>)
      ensures r == Authorized(t, requests, id, product, now)
    {
      if id !in t.sessions {
        return Err(NotFound);
      }
      var s := t.sessions[id];
      if s.product != product || !s.active || now >= s.expiresAt {
        return Err(NotFound);
      }
      if s.account !in t.registry.accounts || !t.registry.accounts[s.account].active {
        return Err(NotFound);
      }
      var person := t.registry.accounts[s.account].person;
      if person !in t.registry.persons || t.registry.persons[person].deleted {
        return Err(NotFound);
      }
      if DeletionPending(requests, person, s.installation, product) {
        return Err(NotFound);
      }
      var key := ProfileKey(product, s.account);
      if key !in t.profiles || !t.profiles[key].active ||
          !Linked(t, person, t.profiles[key].identity, s.installation, product, id) {
        return Err(NotFound);
      }
      return Ok(t.profiles[key]);
    }

    method RotatePublicAccountRefresh(
        requests: map<Id, Saga.Request>, used: Id, next: Id, now: Time) returns (r: Result<Rotation>)
      modifies this
      ensures var spec := Rotate(old(t), requests, used, next, now);
        if spec.Ok? then r == Ok(spec.value.1) && t == spec.value.0 else r == Err(spec.error) && t == old(t)
    {
      if used == next {
        return Err(Invalid);
      }
      if used !in t.tokens || now >= t.tokens[used].expiresAt || t.tokens[used].session !in t.sessions {
        return Err(NotFound);
      }
      var token := t.tokens[used];
      var s := t.sessions[token.session];
      if token.consumed {
        if s.active {
          t := t.(sessions := t.sessions[token.session := s.(active := false)]);
        }
        return Ok(Replayed);
      }
      var authorized := AuthorizedPublicAccountSession(requests, token.session, s.product, now);
      if authorized.Err? {
        return Err(authorized.error);
      }
      if next in t.tokens {
        return Err(Conflict);
      }
      t := t.(tokens := t.tokens[used := token.(consumed := true)]);
      t := t.(tokens := t.tokens[next := Token(token.session, s.expiresAt, false)]);
      return Ok(Refreshed(token.session));
    }

    method RevokePublicAccountSession(id: Id, product: Id) returns (r: Result<()>)
      modifies this
      ensures var spec := Revoke(old(t), id, product);
        if spec.Ok? then r == Ok(()) && t == spec.value else r == Err(spec.error) && t == old(t)
    {
      if id !in t.sessions || t.sessions[id].product != product {
        return Err(NotFound);
      }
      if t.sessions[id].active {
        t := t.(sessions := t.sessions[id := t.sessions[id].(active := false)]);
      }
      return Ok(());
    }

    // ---------------------------------------------------------------- cleanup

    /** Expires overdue challenges, then drops the long dead ones with what leads to them. */
    method SweepChallenges(now: Time, limit: nat) returns (expired: set<Id>, dead: set<Id>)
      modifies this
      ensures OldestRows(OverdueRows(old(t), now), expired, limit)
      ensures var t1 := old(t).(challenges := ScrubAll(old(t).challenges, expired));
        OldestRows(DeadRows(t1, now), dead, limit) && t == DropDead(t1, dead)
    {
      expired := TakeOldest(OverdueRows(t, now), limit);
      var scrubbed := ScrubEach(t.challenges, expired);
      t := t.(challenges := scrubbed);
      dead := TakeOldest(DeadRows(t, now), limit);
      t := t.(verifications := t.verifications - dead);
      t := t.(flows := FlowsWithout(t.flows, t.challenges, dead));
      t := t.(challenges := t.challenges - dead);
    }

    method SweepSessions(now: Time, limit: nat) returns (tokens: set<Id>, sessions: set<Id>)
      modifies this
      ensures OldestRows(OldTokens(old(t), now), tokens, limit) && OldestRows(OldSessions(old(t), now), sessions, limit)
      ensures t == DropSessions(old(t), tokens, sessions)
    {
      tokens := TakeOldest(OldTokens(t, now), limit);
      t := t.(tokens := t.tokens - tokens);
      sessions := TakeOldest(OldSessions(t, now), limit);
      t := t.(flows := UnlinkAll(t.flows, sessions));
      t := t.(sessions := t.sessions - sessions);
    }

    method SweepRest(now: Time, limit: nat) returns (orphans: set<FlowKey>, events: set<RateLimiter.Event>)
      modifies this
      ensures orphans <= OrphanFlows(old(t)) && |orphans| <= limit
      ensures (|orphans| < limit ==> orphans == OrphanFlows(old(t)))
      ensures RateLimiter.OldestFirst(events, RateLimiter.Stale(old(t).events, now), limit)
      ensures t == old(t).(flows := old(t).flows - orphans, events := old(t).events - events)
    {
      var byProduct := map k | k in OrphanFlows(t) :: k.product;
      assert byProduct.Keys == OrphanFlows(t);
      orphans := TakeOldest(byProduct, limit);
      t := t.(flows := t.flows - orphans);
      var table := new RateLimiter.AuthEvents(t.events);
      events := table.Forget(now, limit);
      t := t.(events := table.events);
    }

    method CleanupPublicAccountState(now: Time, limit: nat) returns (r: Result<()>, ghost w: Sweep)
      modifies this
      ensures if 1 <= limit <= 1000 then r == Ok(()) && Sweeps(old(t), now, limit, w) && t == Cleanup(old(t), w)
              else r == Err(Invalid) && t == old(t)
    {
      if limit < 1 || limit > 1000 {
        return Err(Invalid), Sweep({}, {}, {}, {}, {}, {});
      }
      var expired, dead := SweepChallenges(now, limit);
      var tokens, sessions := SweepSessions(now, limit);
      var orphans, events := SweepRest(now, limit);
      w := Sweep(expired, dead, tokens, sessions, orphans, events);
      r := Ok(());
    }

    // ---------------------------------------------------------------- erasure

    /** The loop over collected challenges: flow, verification and row of each. */
    method EraseChallenges(ids: set<Id>)
      requires ids <= t.challenges.Keys
      modifies this
      ensures t == WithoutChallenges(old(t), ids)
    {
      var rest := ids;
      while rest != {}
        invariant rest <= ids && t == WithoutChallenges(old(t), ids - rest)
        decreases rest
      {
        var id :| id in rest;
        var c := t.challenges[id];
        if Key(c) in t.flows && t.flows[Key(c)].challenge == id && t.flows[Key(c)].session == None {
          t := t.(flows := t.flows - {Key(c)});
        }
        if id in t.verifications && t.verifications[id].product == c.product &&
            t.verifications[id].installation == Some(c.installation) {
          t := t.(verifications := t.verifications - {id});
        }
        t := t.(challenges := t.challenges - {id});
        OneChallengeLess(old(t), ids - rest, id, t);
        assert ids - rest + {id} == ids - (rest - {id});
        rest := rest - {id};
      }
      assert ids - rest == ids;
    }

    /** The loop over collected sessions: flow, tokens and row of each. */
    method EraseSessions(ids: set<Id>)
      requires ids <= t.sessions.Keys
      modifies this
      ensures t == WithoutSessions(old(t), ids)
    {
      var rest := ids;
      while rest != {}
        invariant rest <= ids && t == WithoutSessions(old(t), ids - rest)
        decreases rest
      {
        var id :| id in rest;
        var key := FlowKey(t.sessions[id].product, t.sessions[id].installation);
        if key in t.flows && t.flows[key].session == Some(id) {
          t := t.(flows := t.flows - {key});
        }
        t := t.(tokens := KeptTokens(t.tokens, {id}));
        t := t.(sessions := t.sessions - {id});
        OneSessionLess(old(t), ids - rest, id, t);
        assert ids - rest + {id} == ids - (rest - {id});
        rest := rest - {id};
      }
      assert ids - rest == ids;
    }

    /** erasePublicInstallationState and the verification rows that go with it. */
    method EraseInstallationState(installation: Id, only: Option<Id>)
      modifies this
      ensures t == WithoutDevices(old(t), {installation}, only)
    {
      var challenges := ChallengesOn(t, {installation}, only);
      EraseChallenges(challenges);
      var sessions := SessionsOn(t, {installation}, only);
      EraseSessions(sessions);
      t := t.(flows := FlowsOff(t.flows, {installation}, only));
      t := t.(verifications := VerificationsOff(t.verifications, {installation}, only));
      DeviceIsErased(old(t), installation, only, challenges, sessions, t);
    }

    method EraseDevices(devices: set<Id>, only: Option<Id>)
      modifies this
      ensures t == WithoutDevices(old(t), devices, only)
    {
      var rest := devices;
      NoDevices(t, only);
      assert devices - rest == {};
      while rest != {}
        invariant rest <= devices && t == WithoutDevices(old(t), devices - rest, only)
        decreases rest
      {
        var i :| i in rest;
        EraseInstallationState(i, only);
        OneDeviceMore(old(t), devices - rest, i, only);
        assert devices - rest + {i} == devices - (rest - {i});
        rest := rest - {i};
      }
      assert devices - rest == devices;
    }

    /** The first half of erasePublicPersonState: challenges by the email of each identity. */
    method ErasePersonChallenges(e: Registry.Target)
      modifies this
      ensures t == WithoutChallenges(old(t), NamedBy(old(t), e, Registry.ErasedIdentities(old(t).registry, e)))
    {
      var identities := Registry.ErasedIdentities(t.registry, e);
      var rest := identities;
      NoChallenges(t);
      assert NamedBy(t, e, identities - rest) == {};
      while rest != {}
        invariant rest <= identities && t == WithoutChallenges(old(t), NamedBy(old(t), e, identities - rest))
        decreases rest
      {
        var i :| i in rest;
        var challenges := NamedBy(t, e, {i});
        EraseChallenges(challenges);
        OneIdentityMore(old(t), e, identities - rest, i, t);
        assert identities - rest + {i} == identities - (rest - {i});
        rest := rest - {i};
      }
      assert identities - rest == identities;
    }

    /** The second half: sessions and product accounts of each account. */
    method EraseAccountRows(accounts: set<Id>, only: Option<Id>)
      modifies this
      ensures t == WithoutAccounts(old(t), accounts, only)
    {
      var rest := accounts;
      NoAccounts(t, only);
      assert accounts - rest == {};
      while rest != {}
        invariant rest <= accounts && t == WithoutAccounts(old(t), accounts - rest, only)
        decreases rest
      {
        var a :| a in rest;
        var sessions := OfAccounts(t, {a}, only);
        EraseSessions(sessions);
        t := t.(profiles := ProfilesOff(t.profiles, {a}, only));
        OneAccountMore(old(t), accounts - rest, a, only, t);
        assert accounts - rest + {a} == accounts - (rest - {a});
        rest := rest - {a};
      }
      assert accounts - rest == accounts;
    }

    method ErasePersonState(e: Registry.Target)
      modifies this
      ensures t == WithoutPerson(old(t), e)
    {
      ErasePersonChallenges(e);
      EraseAccountRows(AccountsOf(t.registry, e), Only(e));
    }

    /** The public and registry rows of one erasure job. */
    method EraseJob(e: Registry.Target)
      modifies this
      ensures t == Erase(old(t), e)
    {
      EraseDevices(Devices(t.registry, e), Only(e));
      if !e.OneInstallation? {
        ErasePersonState(e);
      }
      ErasedTogether(old(t), e, t);
      var registry := new Registry.RegistryStore();
      registry.t := t.registry;
      registry.EraseTarget(e);
      t := t.(registry := registry.t);
    }
  }

  method ScrubEach(challenges: map<Id, Challenge>, ids: set<Id>) returns (after: map<Id, Challenge>)
    requires ids <= challenges.Keys
    ensures after == ScrubAll(challenges, ids)
  {
    after := challenges;
    var rest := ids;
    while rest != {}
      invariant rest <= ids && after.Keys == challenges.Keys
      invariant forall id :: id in challenges ==>
                  after[id] == if id in ids && id !in rest then Scrub(challenges[id], Expired) else challenges[id]
      decreases rest
    {
      var id :| id in rest;
      after := after[id := Scrub(after[id], Expired)];
      rest := rest - {id};
    }
  }

  // -------------------------------------------------- what the erasure loops amount to

  predicate VerifiesFor(t: Tables, ids: set<Id>, id: Id, v: Verification) {
    id in ids && id in t.challenges && v.product == t.challenges[id].product &&
        v.installation == Some(t.challenges[id].installation)
  }

  function WithoutChallenges(t: Tables, ids: set<Id>): Tables {
    t.(challenges := t.challenges - ids,
       flows := FlowsWithout(t.flows, t.challenges, ids),
       verifications := map id | id in t.verifications && !VerifiesFor(t, ids, id, t.verifications[id]) ::
           t.verifications[id])
  }

  predicate NamesSession(t: Tables, ids: set<Id>, k: FlowKey, f: Flow) {
    && f.session.Some? && f.session.value in ids && f.session.value in t.sessions
    && k == FlowKey(t.sessions[f.session.value].product, t.sessions[f.session.value].installation)
  }

  function WithoutSessions(t: Tables, ids: set<Id>): Tables {
    t.(sessions := t.sessions - ids,
       tokens := KeptTokens(t.tokens, ids),
       flows := map k | k in t.flows && !NamesSession(t, ids, k, t.flows[k]) :: t.flows[k])
  }

  predicate OnDevice(installation: Id, product: Id, devices: set<Id>, only: Option<Id>) {
    installation in devices && Registry.InProduct(product, only)
  }

  predicate VerifiesOn(v: Verification, devices: set<Id>, only: Option<Id>) {
    v.installation.Some? && OnDevice(v.installation.value, v.product, devices, only)
  }

  function ChallengesOn(t: Tables, devices: set<Id>, only: Option<Id>): set<Id> {
    set id | id in t.challenges && OnDevice(t.challenges[id].installation, t.challenges[id].product, devices, only)
  }

  function SessionsOn(t: Tables, devices: set<Id>, only: Option<Id>): set<Id> {
    set s | s in t.sessions && OnDevice(t.sessions[s].installation, t.sessions[s].product, devices, only)
  }

  function ChallengesOff(challenges: map<Id, Challenge>, devices: set<Id>, only: Option<Id>): map<Id, Challenge> {
    map id | id in challenges && !OnDevice(challenges[id].installation, challenges[id].product, devices, only) ::
        challenges[id]
  }

  function FlowsOff(flows: map<FlowKey, Flow>, devices: set<Id>, only: Option<Id>): map<FlowKey, Flow> {
    map k | k in flows && !OnDevice(k.installation, k.product, devices, only) :: flows[k]
  }

  function VerificationsOff(
      verifications: map<Id, Verification>, devices: set<Id>, only: Option<Id>): map<Id, Verification> {
    map id | id in verifications && !VerifiesOn(verifications[id], devices, only) :: verifications[id]
  }

  function ProfilesOff(
      profiles: map<ProfileKey, Profile>, accounts: set<Id>, only: Option<Id>): map<ProfileKey, Profile> {
    map k | k in profiles && !(k.account in accounts && Registry.InProduct(k.product, only)) :: profiles[k]
  }

  function WithoutDevices(t: Tables, devices: set<Id>, only: Option<Id>): Tables {
    t.(challenges := ChallengesOff(t.challenges, devices, only),
       sessions := t.sessions - SessionsOn(t, devices, only),
       tokens := KeptTokens(t.tokens, SessionsOn(t, devices, only)),
       flows := FlowsOff(t.flows, devices, only),
       verifications := VerificationsOff(t.verifications, devices, only))
  }

  /** Challenges for an email that one of these identities is indexed under. */
  function NamedBy(t: Tables, e: Registry.Target, identities: set<Id>): set<Id> {
    set id | id in t.challenges && NamesErased(t.registry, e, t.challenges[id])
             && t.registry.indexes[IndexOf(t.challenges[id])] in identities
  }

  function IndexOf(c: Challenge): Registry.IndexKey {
    Registry.IndexKey(ACCOUNT, Registry.WithinProduct(c.product), c.index.version, c.index)
  }

  function OfAccounts(t: Tables, accounts: set<Id>, only: Option<Id>): set<Id> {
    set s | s in t.sessions && t.sessions[s].account in accounts && Registry.InProduct(t.sessions[s].product, only)
  }

  function WithoutAccounts(t: Tables, accounts: set<Id>, only: Option<Id>): Tables {
    WithoutSessions(t, OfAccounts(t, accounts, only)).(profiles := ProfilesOff(t.profiles, accounts, only))
  }

  function WithoutPerson(t: Tables, e: Registry.Target): Tables {
    WithoutAccounts(WithoutChallenges(t, NamedBy(t, e, Registry.ErasedIdentities(t.registry, e))),
        AccountsOf(t.registry, e), Only(e))
  }

  lemma OneChallengeLess(t: Tables, done: set<Id>, id: Id, t': Tables)
    requires id in t.challenges && id !in done
    requires var t1, c := WithoutChallenges(t, done), t.challenges[id];
      && t'.challenges == t1.challenges - {id}
      && t'.flows ==
          (if Key(c) in t1.flows && t1.flows[Key(c)].challenge == id && t1.flows[Key(c)].session == None
              then t1.flows - {Key(c)} else t1.flows)
      && t'.verifications ==
          (if id in t1.verifications && t1.verifications[id].product == c.product &&
              t1.verifications[id].installation == Some(c.installation)
                              then t1.verifications - {id} else t1.verifications)
      && t' == t.(challenges := t'.challenges, flows := t'.flows, verifications := t'.verifications)
    ensures t' == WithoutChallenges(t, done + {id})
  {
    var w := WithoutChallenges(t, done + {id});
    assert t'.challenges == w.challenges;
    assert t'.flows == w.flows;
    assert t'.verifications == w.verifications;
  }

  lemma OneSessionLess(t: Tables, done: set<Id>, id: Id, t': Tables)
    requires id in t.sessions && id !in done
    requires var t1, key := WithoutSessions(t, done), FlowKey(t.sessions[id].product, t.sessions[id].installation);
      && t'.sessions == t1.sessions - {id}
      && t'.flows == (if key in t1.flows && t1.flows[key].session == Some(id) then t1.flows - {key} else t1.flows)
      && t'.tokens == KeptTokens(t1.tokens, {id})
      && t' == t.(sessions := t'.sessions, flows := t'.flows, tokens := t'.tokens)
    ensures t' == WithoutSessions(t, done + {id})
  {
    var w := WithoutSessions(t, done + {id});
    assert t'.sessions == w.sessions;
    assert t'.flows == w.flows;
    assert t'.tokens == w.tokens;
  }

  lemma DeviceIsErased(t: Tables, i: Id, only: Option<Id>, challenges: set<Id>, sessions: set<Id>, t': Tables)
    requires challenges == ChallengesOn(t, {i}, only) && sessions == SessionsOn(t, {i}, only)
    requires var t1 := WithoutSessions(WithoutChallenges(t, challenges), sessions);
      t' == t1.(flows := FlowsOff(t1.flows, {i}, only), verifications := VerificationsOff(t1.verifications, {i}, only))
    ensures t' == WithoutDevices(t, {i}, only)
  {
    assert t'.challenges == ChallengesOff(t.challenges, {i}, only);
    DeviceFlows(t, i, only, challenges, sessions);
    DeviceVerifications(t, i, only, challenges);
  }

  lemma DeviceFlows(t: Tables, i: Id, only: Option<Id>, challenges: set<Id>, sessions: set<Id>)
    requires challenges == ChallengesOn(t, {i}, only) && sessions == SessionsOn(t, {i}, only)
    ensures FlowsOff(WithoutSessions(WithoutChallenges(t, challenges), sessions).flows, {i}, only) ==
        FlowsOff(t.flows, {i}, only)
  {
    var flows := WithoutSessions(WithoutChallenges(t, challenges), sessions).flows;
    forall k | k in t.flows && !OnDevice(k.installation, k.product, {i}, only)
        ensures k in flows && flows[k] == t.flows[k] {
      assert !LeadsTo(t.challenges, challenges, k, t.flows[k]);
    }
  }

  lemma DeviceVerifications(t: Tables, i: Id, only: Option<Id>, challenges: set<Id>)
    requires challenges == ChallengesOn(t, {i}, only)
    ensures VerificationsOff(WithoutChallenges(t, challenges).verifications, {i}, only) ==
        VerificationsOff(t.verifications, {i}, only)
  {
  }

  lemma NoDevices(t: Tables, only: Option<Id>)
    ensures WithoutDevices(t, {}, only) == t
  {
    var w := WithoutDevices(t, {}, only);
    assert w.challenges == t.challenges && w.sessions == t.sessions && w.tokens == t.tokens;
    assert w.flows == t.flows && w.verifications == t.verifications;
  }

  lemma OneDeviceMore(t: Tables, done: set<Id>, i: Id, only: Option<Id>)
    ensures WithoutDevices(WithoutDevices(t, done, only), {i}, only) == WithoutDevices(t, done + {i}, only)
  {
    var t1 := WithoutDevices(t, done, only);
    assert SessionsOn(t, done, only) + SessionsOn(t1, {i}, only) == SessionsOn(t, done + {i}, only);
    TokensTwice(t.tokens, SessionsOn(t, done, only), SessionsOn(t1, {i}, only));
    RowsOffTwice(t, done, i, only);
  }

  lemma TokensTwice(tokens: map<Id, Token>, a: set<Id>, b: set<Id>)
    ensures KeptTokens(KeptTokens(tokens, a), b) == KeptTokens(tokens, a + b)
  {
  }

  lemma RowsOffTwice(t: Tables, done: set<Id>, i: Id, only: Option<Id>)
    ensures ChallengesOff(ChallengesOff(t.challenges, done, only), {i}, only) ==
        ChallengesOff(t.challenges, done + {i}, only)
    ensures FlowsOff(FlowsOff(t.flows, done, only), {i}, only) == FlowsOff(t.flows, done + {i}, only)
    ensures VerificationsOff(VerificationsOff(t.verifications, done, only), {i}, only) ==
        VerificationsOff(t.verifications, done + {i}, only)
  {
  }

  lemma NoChallenges(t: Tables)
    ensures WithoutChallenges(t, {}) == t
  {
    assert WithoutChallenges(t, {}).flows == t.flows && WithoutChallenges(t, {}).verifications == t.verifications;
  }

  lemma NoAccounts(t: Tables, only: Option<Id>)
    ensures WithoutAccounts(t, {}, only) == t
  {
    var w := WithoutAccounts(t, {}, only);
    assert OfAccounts(t, {}, only) == {};
    assert w.sessions == t.sessions && w.tokens == t.tokens;
    assert w.flows == t.flows && w.profiles == t.profiles;
  }

  lemma MoreChallenges(t: Tables, a: set<Id>, b: set<Id>)
    requires a !! b
    ensures WithoutChallenges(WithoutChallenges(t, a), b) == WithoutChallenges(t, a + b)
  {
    var x, y := WithoutChallenges(WithoutChallenges(t, a), b), WithoutChallenges(t, a + b);
    assert x.challenges == y.challenges;
    assert x.flows == y.flows;
    assert x.verifications == y.verifications;
  }

  lemma OneIdentityMore(t: Tables, e: Registry.Target, done: set<Id>, i: Id, t': Tables)
    requires i !in done
    requires var t1 := WithoutChallenges(t, NamedBy(t, e, done)); t' == WithoutChallenges(t1, NamedBy(t1, e, {i}))
    ensures t' == WithoutChallenges(t, NamedBy(t, e, done + {i}))
  {
    var t1 := WithoutChallenges(t, NamedBy(t, e, done));
    var a, b := NamedBy(t, e, done), NamedBy(t1, e, {i});
    assert a + b == NamedBy(t, e, done + {i});
    MoreChallenges(t, a, b);
  }

  lemma MoreSessions(t: Tables, a: set<Id>, b: set<Id>)
    requires a !! b
    ensures WithoutSessions(WithoutSessions(t, a), b) == WithoutSessions(t, a + b)
  {
    var x, y := WithoutSessions(WithoutSessions(t, a), b), WithoutSessions(t, a + b);
    assert x.sessions == y.sessions;
    assert x.flows == y.flows;
    TokensTwice(t.tokens, a, b);
  }

  lemma OneAccountMore(t: Tables, done: set<Id>, a: Id, only: Option<Id>, t': Tables)
    requires a !in done
    requires var t1 := WithoutAccounts(t, done, only);
      t' == WithoutSessions(t1, OfAccounts(t1, {a}, only)).(profiles := ProfilesOff(t1.profiles, {a}, only))
    ensures t' == WithoutAccounts(t, done + {a}, only)
  {
    var t1 := WithoutAccounts(t, done, only);
    var x, y := OfAccounts(t, done, only), OfAccounts(t1, {a}, only);
    assert x + y == OfAccounts(t, done + {a}, only);
    MoreSessions(t, x, y);
    assert ProfilesOff(t1.profiles, {a}, only) == ProfilesOff(t.profiles, done + {a}, only);
  }

  /** The loops together remove exactly what the specification of an erasure says. */
  lemma ErasedTogether(t: Tables, e: Registry.Target, t': Tables)
    requires var t1 := WithoutDevices(t, Devices(t.registry, e), Only(e));
      t' == if e.OneInstallation? then t1 else WithoutPerson(t1, e)
    ensures t'.(registry := Registry.Erase(t.registry, e)) == Erase(t, e)
  {
    var t1, named := WithoutDevices(t, Devices(t.registry, e), Only(e)),
        NamedBy(t, e, Registry.ErasedIdentities(t.registry, e));
    if e.OneInstallation? {
      DevicesAlone(t, e);
    } else {
      SameChallenges(t, e);
      SameSessions(t, e);
      SameFlows(t, e);
    }
  }

  lemma DevicesAlone(t: Tables, e: Registry.Target)
    requires e.OneInstallation?
    ensures WithoutDevices(t, Devices(t.registry, e), Only(e)).(registry := Registry.Erase(t.registry, e)) ==
        Erase(t, e)
  {
    assert SessionsOn(t, Devices(t.registry, e), Only(e)) == ErasedSessions(t, e);
    assert ChallengesOff(t.challenges, Devices(t.registry, e), Only(e)) == t.challenges - ErasedChallenges(t, e);
    assert VerificationsOff(t.verifications, Devices(t.registry, e), Only(e)) == KeptVerifications(t, e);
    DeviceFlowsAlone(t, e);
    assert t.profiles == KeptProfiles(t, e);
  }

  lemma DeviceFlowsAlone(t: Tables, e: Registry.Target)
    requires e.OneInstallation?
    ensures FlowsOff(t.flows, Devices(t.registry, e), Only(e)) == KeptFlows(t, e)
  {
  }

  lemma SameChallenges(t: Tables, e: Registry.Target)
    requires !e.OneInstallation?
    ensures var t' := WithoutPerson(WithoutDevices(t, Devices(t.registry, e), Only(e)), e);
      t'.challenges == Erase(t, e).challenges && t'.verifications == Erase(t, e).verifications &&
          t'.profiles == Erase(t, e).profiles
  {
    var t1 := WithoutDevices(t, Devices(t.registry, e), Only(e));
    var named := NamedBy(t1, e, Registry.ErasedIdentities(t.registry, e));
    SameChallengeRows(t, t1, e, named);
    assert ProfilesOff(t.profiles, AccountsOf(t.registry, e), Only(e)) == KeptProfiles(t, e);
  }

  lemma SameChallengeRows(t: Tables, t1: Tables, e: Registry.Target, named: set<Id>)
    requires t1 == WithoutDevices(t, Devices(t.registry, e), Only(e))
    requires named == NamedBy(t1, e, Registry.ErasedIdentities(t.registry, e))
    ensures WithoutChallenges(t1, named).challenges == t.challenges - ErasedChallenges(t, e)
    ensures WithoutChallenges(t1, named).verifications == KeptVerifications(t, e)
  {
    var t2 := WithoutChallenges(t1, named);
    forall id | id in t.challenges ensures id in t2.challenges <==> id !in ErasedChallenges(t, e) {
    }
    forall id | id in t.verifications
        ensures id in t2.verifications <==> !ErasesVerification(t, e, id, t.verifications[id]) {
    }
  }

  lemma SameSessions(t: Tables, e: Registry.Target)
    requires !e.OneInstallation?
    ensures var t' := WithoutPerson(WithoutDevices(t, Devices(t.registry, e), Only(e)), e);
      t'.sessions == Erase(t, e).sessions && t'.tokens == Erase(t, e).tokens
  {
    var t1 := WithoutDevices(t, Devices(t.registry, e), Only(e));
    var a, b := SessionsOn(t, Devices(t.registry, e), Only(e)), OfAccounts(t1, AccountsOf(t.registry, e), Only(e));
    assert a + b == ErasedSessions(t, e);
    TokensTwice(t.tokens, a, b);
  }

  lemma SameFlows(t: Tables, e: Registry.Target)
    requires !e.OneInstallation?
    ensures WithoutPerson(WithoutDevices(t, Devices(t.registry, e), Only(e)), e).flows == KeptFlows(t, e)
  {
    var t1 := WithoutDevices(t, Devices(t.registry, e), Only(e));
    var flows := WithoutPerson(t1, e).flows;
    FlowsOnlyGo(t1, e);
    forall k | k in t.flows ensures k in flows <==> k in KeptFlows(t, e) {
      FlowGoes(t, t1, e, k);
    }
  }

  lemma FlowsOnlyGo(t: Tables, e: Registry.Target)
    ensures forall k :: k in WithoutPerson(t, e).flows ==> k in t.flows && WithoutPerson(t, e).flows[k] == t.flows[k]
  {
  }

  lemma FlowGoes(t: Tables, t1: Tables, e: Registry.Target, k: FlowKey)
    requires !e.OneInstallation? && k in t.flows && t1 == WithoutDevices(t, Devices(t.registry, e), Only(e))
    ensures k in WithoutPerson(t1, e).flows <==> !ErasesFlow(t, e, k, t.flows[k])
  {
    if !OnDevice(k.installation, k.product, Devices(t.registry, e), Only(e)) {
      var named := NamedBy(t1, e, Registry.ErasedIdentities(t.registry, e));
      var t2 := WithoutChallenges(t1, named);
      LeadsToSame(t, t1, e, k, named);
      NamesSame(t, t2, e, k);
      PersonFlow(t1, t2, e, k, named);
    }
  }

  /** Off the erased devices, a flow leads to an erased challenge exactly if it leads to one
      that an erased identity is named by. */
  lemma LeadsToSame(t: Tables, t1: Tables, e: Registry.Target, k: FlowKey, named: set<Id>)
    requires k in t.flows && !OnDevice(k.installation, k.product, Devices(t.registry, e), Only(e))
    requires t1.challenges == ChallengesOff(t.challenges, Devices(t.registry, e), Only(e)) && t1.registry == t.registry
    requires named == NamedBy(t1, e, Registry.ErasedIdentities(t.registry, e))
    ensures LeadsTo(t1.challenges, named, k, t.flows[k]) <==>
            LeadsTo(t.challenges, ErasedChallenges(t, e), k, t.flows[k])
  {
    var id := t.flows[k].challenge;
    if id in t.challenges && Key(t.challenges[id]) == k {
      assert id in t1.challenges;
    }
  }

  /** Off the erased devices, a flow names an erased session exactly if it names one of the
      erased accounts. */
  lemma NamesSame(t: Tables, t2: Tables, e: Registry.Target, k: FlowKey)
    requires !e.OneInstallation? && k in t.flows
    requires !OnDevice(k.installation, k.product, Devices(t.registry, e), Only(e))
    requires t2.sessions == t.sessions - SessionsOn(t, Devices(t.registry, e), Only(e))
    ensures NamesSession(t2, OfAccounts(t2, AccountsOf(t.registry, e), Only(e)), k, t.flows[k]) <==>
            NamesSession(t, ErasedSessions(t, e), k, t.flows[k])
  {
  }

  lemma PersonFlow(t1: Tables, t2: Tables, e: Registry.Target, k: FlowKey, named: set<Id>)
    requires named == NamedBy(t1, e, Registry.ErasedIdentities(t1.registry, e)) && t2 == WithoutChallenges(t1, named)
    requires k in t1.flows
    ensures k in WithoutPerson(t1, e).flows <==>
            && !LeadsTo(t1.challenges, named, k, t1.flows[k])
            && !NamesSession(t2, OfAccounts(t2, AccountsOf(t1.registry, e), Only(e)), k, t1.flows[k])
  {
  }
}
