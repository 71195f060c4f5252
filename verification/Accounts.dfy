/** The public account tables and the transactions over them: email challenges and their
    delivery queue, completion, device sessions, refresh tokens, cleanup and erasure
    (internal/store/public_email_challenges.go, public_email_delivery.go,
    public_email_completion.go, public_account_sessions.go, public_account_cleanup.go,
    public_account_erasure.go, public_account_privacy_barrier.go).

    Each transaction is serializable: it maps the tables it read to the tables it commits, or
    fails and commits nothing. Row versions, audit rows and the holder's declared profile are
    not kept. */
module Accounts {
  import opened Common
  import RateLimiter
  import Registry
  import Saga

  const QUEUE_TTL: nat := 48 * HOUR
  const CODE_TTL: nat := 10 * MINUTE
  const MAIL_LEASE: nat := 90 * SECOND
  const MAX_ATTEMPTS: nat := 5
  const REFRESH_TTL: nat := 90 * DAY
  const TOMBSTONE: nat := 48 * HOUR

  /** The namespace of account emails. */
  const ACCOUNT: Id := 1

  datatype State =
    | Requested | Delivering | Delivered | Verified | Consumed
    | DeliveryFailed | Uncertain | Expired | Locked | Cancelled

  function CanMove(from: State, to: State): bool {
    match from
    case Requested => to in {Delivering, Cancelled, Expired}
    case Delivering => to in {Delivered, DeliveryFailed, Uncertain, Cancelled, Expired, Verified, Locked}
    case Delivered => to in {Verified, Locked, Cancelled, Expired}
    case Uncertain => to in {Verified, Locked, Cancelled, Expired}
    case Verified => to == Consumed
    case _ => false
  }

  datatype Lease = Lease(owner: Id, until: Time)

  /** `code` is the stored code hash, `hasCipher` whether the encrypted code is still there. */
  datatype Challenge = Challenge(
    product: Id, installation: Id, fingerprint: Id, nonce: Id, otpKey: Id,
    code: Option<Id>, hasCipher: bool, index: Registry.Digest,
    state: State, attempts: nat, availableAt: Time, lease: Option<Lease>,
    createdAt: Time, expiresAt: Time)

  /** `plain` holds for an account email of unknown age, without guardian or linkage. */
  datatype Verification = Verification(
    product: Id, installation: Option<Id>, plain: bool, index: Registry.Digest,
    expiresAt: Time, verified: bool, busy: bool)

  datatype FlowKey = FlowKey(product: Id, installation: Id)
  datatype Flow = Flow(challenge: Id, session: Option<Id>)
  datatype Session = Session(product: Id, account: Id, installation: Id, active: bool, expiresAt: Time)
  datatype Token = Token(session: Id, expiresAt: Time, consumed: bool)
  datatype ProfileKey = ProfileKey(product: Id, account: Id)
  datatype Profile = Profile(identity: Id, active: bool)

  datatype Tables = Tables(
    challenges: map<Id, Challenge>,
    verifications: map<Id, Verification>,
    flows: map<FlowKey, Flow>,
    sessions: map<Id, Session>,
    tokens: map<Id, Token>,
    profiles: map<ProfileKey, Profile>,
    events: set<RateLimiter.Event>,
    registry: Registry.Tables)

  const EMPTY: Tables := Tables(map[], map[], map[], map[], map[], map[], {}, Registry.EMPTY)

  // ------------------------------------------------------------ rows of a challenge

  predicate Live(s: State) {
    s == Requested || s == Delivering || s == Delivered || s == Uncertain
  }

  /** Leaves nothing of the code behind. */
  function Scrub(c: Challenge, state: State): Challenge {
    c.(state := state, code := None, hasCipher := false, lease := None)
  }

  /** The mail is off the queue; unless it failed for good the code can still be proved. */
  function Settle(c: Challenge, outcome: State): Challenge {
    c.(state := outcome, code := if outcome == DeliveryFailed then None else c.code, hasCipher := false, lease := None)
  }

  function TakeLease(c: Challenge, owner: Id, now: Time): Challenge {
    c.(state := Delivering, lease := Some(Lease(owner, now + MAIL_LEASE)),
        expiresAt := now + CODE_TTL)
  }

  function Requeue(c: Challenge, retryAt: Time): Challenge {
    c.(state := Requested, availableAt := retryAt, lease := None, expiresAt := c.createdAt + QUEUE_TTL)
  }

  function Put(t: Tables, id: Id, c: Challenge): Tables {
    t.(challenges := t.challenges[id := c])
  }

  function Key(c: Challenge): FlowKey {
    FlowKey(c.product, c.installation)
  }

  /** The installation exists, is enabled and belongs to the product. */
  predicate Usable(r: Registry.Tables, installation: Id, product: Id) {
    && installation in r.installations
    && !r.installations[installation].disabled
    && r.installations[installation].product == product
  }

  // ---------------------------------------------------------------------- create

  predicate ValidInput(c: Challenge, v: Verification) {
    && c.code.Some? && c.hasCipher && c.state == Requested && c.attempts == 0 && c.lease == None
    && c.createdAt <= c.availableAt < c.expiresAt && c.expiresAt == v.expiresAt
    && v.product == c.product && v.installation == Some(c.installation)
    && v.plain && !v.verified && v.index == c.index
  }

  predicate Waiting(c: Challenge, now: Time) {
    (c.state == Requested || c.state == Delivering) && c.expiresAt > now
  }

  /** The mail queue as the capacity check counts it. */
  function Queue(challenges: map<Id, Challenge>, now: Time): set<Id> {
    set id | id in challenges && Waiting(challenges[id], now)
  }

  /** The installation's current challenge, if a new one would cancel it. */
  function Replaced(t: Tables, key: FlowKey): Option<Id> {
    if key in t.flows && t.flows[key].challenge in t.challenges then
      var c := t.challenges[t.flows[key].challenge];
      if Key(c) == key && CanMove(c.state, Cancelled) then Some(t.flows[key].challenge) else None
    else None
  }

  function Taken(t: Tables, key: FlowKey, now: Time): nat {
    var queue := Queue(t.challenges, now);
    if Replaced(t, key).Some? && Replaced(t, key).value in queue then |queue| - 1 else |queue|
  }

  /** Buckets are numbered; `contact` stands for the product and blind index they name. */
  function ContactLimits(contact: Id): seq<RateLimiter.Limit> {
    [RateLimiter.Limit(2 * contact + 2, 15 * MINUTE, 6), RateLimiter.Limit(2 * contact + 3, MINUTE, 1)]
  }

  function CancelReplaced(t: Tables, key: FlowKey): Tables {
    match Replaced(t, key)
    case None => t
    case Some(id) => Put(t, id, Scrub(t.challenges[id], Cancelled))
  }

  function SessionOf(t: Tables, key: FlowKey): Option<Id> {
    if key in t.flows then t.flows[key].session else None
  }

  ghost function Create(
      t: Tables, id: Id, c: Challenge, v: Verification, contact: Id, dailyLimit: nat, now: Time)
      : Result<(Tables, bool)> {
    if !(ValidInput(c, v) && 1 <= dailyLimit <= 10000) then Err(Invalid) else
    if id in t.challenges then
      var existing := t.challenges[id];
      :- Need(Key(existing) == Key(c) && existing.fingerprint == c.fingerprint, Conflict);
      Ok((t, false))
    else
      :- Need(now < c.expiresAt <= now + QUEUE_TTL && c.expiresAt <= c.createdAt + QUEUE_TTL, Invalid);
      :- Need(Taken(t, Key(c), now) < dailyLimit, Limited(now + MINUTE));
      var events :- RateLimiter.Reserved(t.events, now, id, ContactLimits(contact));
      :- Need(Usable(t.registry, c.installation, c.product), NotFound);
      :- Need(id !in t.verifications, Conflict);
      Ok((Enqueue(CancelReplaced(t, Key(c)).(events := events), id, c, v), true))
  }

  function Enqueue(t: Tables, id: Id, c: Challenge, v: Verification): Tables {
    t.(verifications := t.verifications[id := v.(busy := false)],
       challenges := t.challenges[id := c],
       flows := t.flows[Key(c) := Flow(id, SessionOf(t, Key(c)))])
  }

  // -------------------------------------------------------------------- delivery

  /** What must agree between a challenge and its verification before mail goes out. */
  predicate Bound(c: Challenge, v: Verification) {
    && v.product == c.product && v.installation == Some(c.installation)
    && v.plain && !v.verified && !v.busy && v.index == c.index
    && c.code.Some? && c.hasCipher
  }

  predicate Stuck(c: Challenge, products: set<Id>, now: Time) {
    c.state == Delivering && c.product in products && (c.lease.None? || c.lease.value.until <= now)
  }

  predicate Due(c: Challenge, products: set<Id>, now: Time) {
    c.state == Requested && c.product in products && c.availableAt <= now
  }

  function StuckRows(t: Tables, products: set<Id>, now: Time): map<Id, Time> {
    map id | id in t.challenges && Stuck(t.challenges[id], products, now) :: t.challenges[id].createdAt
  }

  function DueRows(t: Tables, products: set<Id>, now: Time): map<Id, Time> {
    map id | id in t.challenges && Due(t.challenges[id], products, now) :: t.challenges[id].createdAt
  }

  /** The row a claim works on: an abandoned delivery before anything else, oldest first. */
  ghost predicate Picks(t: Tables, products: set<Id>, now: Time, pick: set<Id>) {
    if StuckRows(t, products, now) != map[] then OldestRows(StuckRows(t, products, now), pick, 1)
    else OldestRows(DueRows(t, products, now), pick, 1)
  }

  function SendLimits(dailyLimit: nat): seq<RateLimiter.Limit> {
    [RateLimiter.Limit(0, DAY, dailyLimit), RateLimiter.Limit(1, SECOND, 1)]
  }

  /** Why a due challenge is closed instead of being sent. */
  function Closing(t: Tables, id: Id, c: Challenge, now: Time): Option<State> {
    if Key(c) !in t.flows || t.flows[Key(c)].challenge != id then Some(Cancelled)
    else if !Usable(t.registry, c.installation, c.product) then Some(Cancelled)
    else if c.expiresAt <= now then Some(Expired)
    else if id !in t.verifications then Some(Cancelled)
    else if t.verifications[id].expiresAt <= now then Some(Expired)
    else None
  }

  function Resend(t: Tables, id: Id, c: Challenge, expires: Time): Tables
    requires id in t.verifications
  {
    Put(t, id, c).(verifications := t.verifications[id := t.verifications[id].(expiresAt := expires)])
  }

  /** Works on the picked row, if any, and returns its identifier. */
  ghost function Claim(
      t: Tables, owner: Id, products: set<Id>, dailyLimit: nat, now: Time, pick: set<Id>): Result<(Tables, Id)>
    requires Picks(t, products, now, pick)
  {
    if !(1 <= dailyLimit <= 10000) then Err(Invalid) else
    :- Need(products != {} && pick != {}, NotFound);
    var id :| id in pick;
    var c := t.challenges[id];
    if c.state == Delivering then Ok((Put(t, id, Settle(c, Uncertain)), id))
    else if Closing(t, id, c, now).Some? then Ok((Put(t, id, Scrub(c, Closing(t, id, c, now).value)), id))
    else
      :- Need(Bound(c, t.verifications[id]), Conflict);
      var events :- RateLimiter.Reserved(t.events, now, owner, SendLimits(dailyLimit));
      Ok((Resend(t, id, TakeLease(c, owner, now), now + CODE_TTL).(events := events), id))
  }

  predicate Acknowledged(s: State) {
    s in {Consumed, Locked, Cancelled, Expired, Delivered, DeliveryFailed, Uncertain}
  }

  predicate Owns(c: Challenge, owner: Id) {
    c.state == Delivering && c.lease.Some? && c.lease.value.owner == owner
  }

  /** Back into the queue after a definite temporary rejection. */
  function Defer(t: Tables, id: Id, owner: Id, retryAt: Time, now: Time): Result<Tables> {
    if !(now < retryAt <= now + DAY) then Err(Invalid) else
    var c :- Read(t.challenges, id);
    if Acknowledged(c.state) then Ok(t) else
      :- Need(Owns(c, owner), Conflict);
      var v :- Read(t.verifications, id);
      :- Need(Bound(c, v), Conflict);
      var deadline := c.createdAt + QUEUE_TTL;
      if deadline <= now || deadline <= retryAt then Ok(Put(t, id, Scrub(c, Expired)))
      else Ok(Resend(t, id, Requeue(c, retryAt), deadline))
  }

  predicate Outcome(s: State) {
    s == Delivered || s == DeliveryFailed || s == Uncertain
  }

  function Finish(t: Tables, id: Id, owner: Id, outcome: State): Result<Tables> {
    if !Outcome(outcome) then Err(Invalid) else
    var c :- Read(t.challenges, id);
    if Acknowledged(c.state) then Ok(t) else
      :- Need(Owns(c, owner), Conflict);
      Ok(Put(t, id, Settle(c, outcome)))
  }

  // ------------------------------------------------------------------ completion

  /** What the installation presents, with the fresh identifiers the broker generated. */
  datatype Proof = Proof(
    challenge: Id, product: Id, installation: Id, nonce: Id, otpKey: Id, code: Id,
    session: Id, refresh: Id, refreshExpiresAt: Time,
    email: Id, verifiedAt: Time, identity: Registry.NewIdentity)

  datatype Completion = Rejected | Issued(registered: Registry.Registered)

  /** The fence: an open deletion covers this person or installation in this product. */
  predicate Covers(r: Saga.Request, person: Id, installation: Id, product: Id) {
    && r.deletion && (r.all || r.product == Some(product))
    && (r.subject == Saga.Person(person) || r.subject == Saga.Installation(installation))
  }

  predicate DeletionPending(requests: map<Id, Saga.Request>, person: Id, installation: Id, product: Id) {
    exists r :: r in requests && Saga.Open(requests[r].status) && Covers(requests[r], person, installation, product)
  }

  function CheckProof(t: Tables, p: Proof): Result<Challenge> {
    var c :- Read(t.challenges, p.challenge);
    :- Need(Key(c) == FlowKey(p.product, p.installation) && c.otpKey == p.otpKey && c.nonce == p.nonce, NotFound);
    :- Need(c.attempts < MAX_ATTEMPTS && c.state in {Delivering, Delivered, Uncertain}, NotFound);
    var f :- Read(t.flows, Key(c));
    :- Need(f.challenge == p.challenge, NotFound);
    :- Need(Usable(t.registry, p.installation, p.product), NotFound);
    Ok(c)
  }

  function Miss(c: Challenge): Challenge {
    var wrong := c.(attempts := c.attempts + 1);
    if wrong.attempts == MAX_ATTEMPTS then Scrub(wrong, Locked) else wrong
  }

  /** The identity to register is the verified one, and its index agrees with the stored one. */
  predicate Matches(v: Verification, k: Registry.Keyring, p: Proof) {
    && p.identity.product == v.product && p.identity.space == ACCOUNT && !p.identity.acrossProducts
    && p.identity.installation == v.installation
    && v.index.version in k.versions && v.index.email == p.email && k.current in k.versions
  }

  function CheckIdentity(t: Tables, c: Challenge, k: Registry.Keyring, p: Proof, now: Time): Check {
    if !(now < p.refreshExpiresAt <= now + REFRESH_TTL && p.identity.createAccount &&
        c.createdAt <= p.verifiedAt <= now) then Fail(Invalid)
    else if p.challenge !in t.verifications then Fail(NotFound)
    else
      var v := t.verifications[p.challenge];
      if !v.plain || v.expiresAt <= now || v.index != c.index || !Matches(v, k, p) then Fail(NotFound) else Pass
  }

  function AddProfile(t: Tables, key: ProfileKey, identity: Id): Result<Tables> {
    if key in t.profiles && (!t.profiles[key].active || t.profiles[key].identity != identity) then Err(NotFound) else
    Ok(t.(profiles := t.profiles[key := Profile(identity, true)]))
  }

  function Revoked(sessions: map<Id, Session>, id: Id): map<Id, Session> {
    if id in sessions then sessions[id := sessions[id].(active := false)] else sessions
  }

  /** The flow's previous session ends, the new one and its first refresh token begin. */
  function Issue(t: Tables, key: FlowKey, account: Id, p: Proof): Result<Tables>
    requires key in t.flows
  {
    var previous := t.flows[key].session;
    :- Need(previous.None? || previous.value !in t.sessions ||
            (var s := t.sessions[previous.value];
             FlowKey(s.product, s.installation) == key && s.account == account && previous.value != p.session),
                 Conflict);
    var sessions := if previous.Some? then Revoked(t.sessions, previous.value) else t.sessions;
    :- Need(p.session !in sessions && p.refresh !in t.tokens, Conflict);
    Ok(t.(sessions := sessions[p.session := Session(key.product, account, key.installation, true, p.refreshExpiresAt)],
          tokens := t.tokens[p.refresh := Token(p.session, p.refreshExpiresAt, false)],
          flows := t.flows[key := t.flows[key].(session := Some(p.session))]))
  }

  function Accept(
      t: Tables, requests: map<Id, Saga.Request>, k: Registry.Keyring, p: Proof, c: Challenge, now: Time)
      : Result<(Tables, Completion)>
    requires p.challenge in t.challenges && Key(c) in t.flows
  {
    if CheckIdentity(t, c, k, p, now).Fail? then Err(CheckIdentity(t, c, k, p, now).error) else
    var (registry, registered) :- Registry.Register(t.registry, k, p.email, p.identity);
    :- Need(registered.account.Some? && registered.account.value in registry.accounts, NotFound);
    var account := registered.account.value;
    :- Need(registry.accounts[account].person == registered.person && registry.accounts[account].active, NotFound);
    :- Need(registered.person in registry.persons && !registry.persons[registered.person].deleted, NotFound);
    :- Need(!DeletionPending(requests, registered.person, c.installation, c.product), NotFound);
    var t1 :- AddProfile(t.(registry := registry), ProfileKey(c.product, account), registered.identity);
    var t2 :- Issue(t1, Key(c), account, p);
    Ok((Consume(t2, p.challenge, c), Issued(registered)))
  }

  function Consume(t: Tables, id: Id, c: Challenge): Tables {
    Put(t, id, Scrub(c, Consumed)).(verifications := t.verifications - {id})
  }

  /** A rejected proof commits its counter and is still reported as not found. */
  function Complete(
      t: Tables, requests: map<Id, Saga.Request>, k: Registry.Keyring, p: Proof, now: Time)
      : Result<(Tables, Completion)> {
    var c :- CheckProof(t, p);
    if c.expiresAt <= now then Ok((Put(t, p.challenge, Scrub(c, Expired)), Rejected))
    else if c.code != Some(p.code) then Ok((Put(t, p.challenge, Miss(c)), Rejected))
    else Accept(t, requests, k, p, c, now)
  }

  // -------------------------------------------------------------------- sessions

  /** All that must still hold for a session to be used. */
  function Authorized(t: Tables, requests: map<Id, Saga.Request>, id: Id, product: Id, now: Time): Result<Profile> {
    var s :- Read(t.sessions, id);
    :- Need(s.product == product && s.active && now < s.expiresAt, NotFound);
    var a :- Read(t.registry.accounts, s.account);
    :- Need(a.active && a.person in t.registry.persons && !t.registry.persons[a.person].deleted, NotFound);
    :- Need(!DeletionPending(requests, a.person, s.installation, product), NotFound);
    var p :- Read(t.profiles, ProfileKey(product, s.account));
    :- Need(p.active, NotFound);
    :- Need(Linked(t, a.person, p.identity, s.installation, product, id), NotFound);
    Ok(p)
  }

  /** The joined rows: the person's identity in this product, the installation they are
      bound to, and the installation's flow naming this session. */
  predicate Linked(t: Tables, person: Id, identity: Id, installation: Id, product: Id, session: Id) {
    && identity in t.registry.identities
    && t.registry.identities[identity] == Registry.Identity(person, product, ACCOUNT, Registry.WithinProduct(product))
    && Usable(t.registry, installation, product)
    && t.registry.installations[installation].person == Some(person)
    && FlowKey(product, installation) in t.flows
    && t.flows[FlowKey(product, installation)].session == Some(session)
  }

  datatype Rotation = Replayed | Refreshed(session: Id)

  /** A consumed token ends the family; a fresh one is exchanged for its successor. */
  function Rotate(
      t: Tables, requests: map<Id, Saga.Request>, used: Id, next: Id, now: Time): Result<(Tables, Rotation)> {
    if used == next then Err(Invalid) else
    var r :- Read(t.tokens, used);
    :- Need(now < r.expiresAt, NotFound);
    var s :- Read(t.sessions, r.session);
    if r.consumed then Ok((t.(sessions := Revoked(t.sessions, r.session)), Replayed)) else
      var _ :- Authorized(t, requests, r.session, s.product, now);
      :- Need(next !in t.tokens, Conflict);
      Ok((t.(tokens := t.tokens[used := r.(consumed := true)][next := Token(r.session, s.expiresAt, false)]),
          Refreshed(r.session)))
  }

  function Revoke(t: Tables, id: Id, product: Id): Result<Tables> {
    var s :- Read(t.sessions, id);
    :- Need(s.product == product, NotFound);
    Ok(t.(sessions := Revoked(t.sessions, id)))
  }

  // --------------------------------------------------------------------- cleanup

  /** The rows each of the cleanup's bounded queries returned. */
  datatype Sweep = Sweep(
      expired: set<Id>, dead: set<Id>, tokens: set<Id>, sessions: set<Id>, orphans: set<FlowKey>,
      events: set<RateLimiter.Event>)

  function OverdueRows(t: Tables, now: Time): map<Id, Time> {
    map id | id in t.challenges && t.challenges[id].expiresAt <= now && Live(t.challenges[id].state) ::
        t.challenges[id].expiresAt
  }

  function DeadRows(t: Tables, now: Time): map<Id, Time> {
    map id | id in t.challenges && t.challenges[id].expiresAt + TOMBSTONE < now :: t.challenges[id].expiresAt
  }

  function OldTokens(t: Tables, now: Time): map<Id, Time> {
    map h | h in t.tokens && t.tokens[h].expiresAt <= now :: t.tokens[h].expiresAt
  }

  function OldSessions(t: Tables, now: Time): map<Id, Time> {
    map s | s in t.sessions && t.sessions[s].expiresAt <= now :: t.sessions[s].expiresAt
  }

  function OrphanFlows(t: Tables): set<FlowKey> {
    set k | k in t.flows && t.flows[k].session == None && t.flows[k].challenge !in t.challenges
  }

  function ScrubAll(challenges: map<Id, Challenge>, ids: set<Id>): map<Id, Challenge> {
    map id | id in challenges :: if id in ids then Scrub(challenges[id], Expired) else challenges[id]
  }

  /** The flow leads to one of these challenges and has no session. */
  predicate LeadsTo(challenges: map<Id, Challenge>, ids: set<Id>, key: FlowKey, f: Flow) {
    f.session == None && f.challenge in ids && f.challenge in challenges && Key(challenges[f.challenge]) == key
  }

  function FlowsWithout(flows: map<FlowKey, Flow>, challenges: map<Id, Challenge>, ids: set<Id>): map<FlowKey, Flow> {
    map k | k in flows && !LeadsTo(challenges, ids, k, flows[k]) :: flows[k]
  }

  function DropDead(t: Tables, dead: set<Id>): Tables {
    t.(verifications := t.verifications - dead,
       flows := FlowsWithout(t.flows, t.challenges, dead),
       challenges := t.challenges - dead)
  }

  function Unlink(f: Flow, sessions: set<Id>): Flow {
    if f.session.Some? && f.session.value in sessions then f.(session := None) else f
  }

  function UnlinkAll(flows: map<FlowKey, Flow>, sessions: set<Id>): map<FlowKey, Flow> {
    map k | k in flows :: Unlink(flows[k], sessions)
  }

  function DropSessions(t: Tables, tokens: set<Id>, sessions: set<Id>): Tables {
    t.(tokens := t.tokens - tokens,
       flows := UnlinkAll(t.flows, sessions),
       sessions := t.sessions - sessions)
  }

  /** The states between the cleanup's statements. */
  function Swept1(t: Tables, w: Sweep): Tables {
    t.(challenges := ScrubAll(t.challenges, w.expired))
  }

  function Swept2(t: Tables, w: Sweep): Tables {
    DropDead(Swept1(t, w), w.dead)
  }

  function Swept3(t: Tables, w: Sweep): Tables {
    DropSessions(Swept2(t, w), w.tokens, w.sessions)
  }

  function Cleanup(t: Tables, w: Sweep): Tables {
    var t3 := Swept3(t, w);
    t3.(flows := t3.flows - w.orphans, events := t.events - w.events)
  }

  /** Each query sees what the statements before it left. */
  ghost predicate Sweeps(t: Tables, now: Time, limit: nat, w: Sweep) {
    && OldestRows(OverdueRows(t, now), w.expired, limit)
    && OldestRows(DeadRows(Swept1(t, w), now), w.dead, limit)
    && OldestRows(OldTokens(t, now), w.tokens, limit)
    && OldestRows(OldSessions(t, now), w.sessions, limit)
    && w.orphans <= OrphanFlows(Swept3(t, w)) && |w.orphans| <= limit
    && (|w.orphans| < limit ==> w.orphans == OrphanFlows(Swept3(t, w)))
    && RateLimiter.OldestFirst(w.events, RateLimiter.Stale(t.events, now), limit)
  }

  // --------------------------------------------------------------------- erasure

  function Only(e: Registry.Target): Option<Id> {
    match e
    case ThePerson(_) => None
    case PersonInProduct(_, product) => Some(product)
    case OneInstallation(_, product) => Some(product)
  }

  /** The installations whose public state goes. */
  function Devices(r: Registry.Tables, e: Registry.Target): set<Id> {
    if e.OneInstallation? then {e.installation} else Registry.Detached(r, e)
  }

  function AccountsOf(r: Registry.Tables, e: Registry.Target): set<Id> {
    if e.OneInstallation? then {} else set a | a in r.accounts && r.accounts[a].person == e.person
  }

  /** Some account email index of an erased identity is the challenge's. */
  predicate NamesErased(r: Registry.Tables, e: Registry.Target, c: Challenge) {
    var k := Registry.IndexKey(ACCOUNT, Registry.WithinProduct(c.product), c.index.version, c.index);
    k in r.indexes && r.indexes[k] in Registry.ErasedIdentities(r, e) && Registry.InProduct(c.product, Only(e))
  }

  predicate ErasesChallenge(r: Registry.Tables, e: Registry.Target, c: Challenge) {
    (c.installation in Devices(r, e) && Registry.InProduct(c.product, Only(e))) || NamesErased(r, e, c)
  }

  function ErasedChallenges(t: Tables, e: Registry.Target): set<Id> {
    set id | id in t.challenges && ErasesChallenge(t.registry, e, t.challenges[id])
  }

  predicate ErasesSession(r: Registry.Tables, e: Registry.Target, s: Session) {
    (s.installation in Devices(r, e) || s.account in AccountsOf(r, e)) && Registry.InProduct(s.product, Only(e))
  }

  function ErasedSessions(t: Tables, e: Registry.Target): set<Id> {
    set s | s in t.sessions && ErasesSession(t.registry, e, t.sessions[s])
  }

  predicate ErasesVerification(t: Tables, e: Registry.Target, id: Id, v: Verification) {
    || (id in ErasedChallenges(t, e) && v.product == t.challenges[id].product &&
        v.installation == Some(t.challenges[id].installation))
    || (v.installation.Some? && v.installation.value in Devices(t.registry, e) &&
        Registry.InProduct(v.product, Only(e)))
  }

  predicate ErasesFlow(t: Tables, e: Registry.Target, k: FlowKey, f: Flow) {
    || LeadsTo(t.challenges, ErasedChallenges(t, e), k, f)
    || (f.session.Some? && f.session.value in ErasedSessions(t, e)
        && k == FlowKey(t.sessions[f.session.value].product, t.sessions[f.session.value].installation))
    || (k.installation in Devices(t.registry, e) && Registry.InProduct(k.product, Only(e)))
  }

  function KeptFlows(t: Tables, e: Registry.Target): map<FlowKey, Flow> {
    map k | k in t.flows && !ErasesFlow(t, e, k, t.flows[k]) :: t.flows[k]
  }

  function KeptTokens(tokens: map<Id, Token>, sessions: set<Id>): map<Id, Token> {
    map h | h in tokens && tokens[h].session !in sessions :: tokens[h]
  }

  function KeptProfiles(t: Tables, e: Registry.Target): map<ProfileKey, Profile> {
    map k | k in t.profiles && !(k.account in AccountsOf(t.registry, e) && Registry.InProduct(k.product, Only(e))) ::
        t.profiles[k]
  }

  function KeptVerifications(t: Tables, e: Registry.Target): map<Id, Verification> {
    map id | id in t.verifications && !ErasesVerification(t, e, id, t.verifications[id]) :: t.verifications[id]
  }

  /** What a committed erasure leaves, the rate budgets included. */
  function Erase(t: Tables, e: Registry.Target): Tables {
    Tables(
      t.challenges - ErasedChallenges(t, e),
      KeptVerifications(t, e),
      KeptFlows(t, e),
      t.sessions - ErasedSessions(t, e),
      KeptTokens(t.tokens, ErasedSessions(t, e)),
      KeptProfiles(t, e),
      t.events,
      Registry.Erase(t.registry, e))
  }

  // ------------------------------------------------------------- what they amount to

  /** All that an accepted proof changes, and what it relied on. */
  ghost predicate Accepted(
      t: Tables, requests: map<Id, Saga.Request>, k: Registry.Keyring, p: Proof, now: Time, t': Tables,
      r: Registry.Registered) {
    && p.challenge in t.challenges
    && (var c := t.challenges[p.challenge];
        && CheckProof(t, p) == Ok(c) && now < c.expiresAt && c.code == Some(p.code)
        && CheckIdentity(t, c, k, p, now) == Pass
        && Registry.Register(t.registry, k, p.email, p.identity) == Ok((t'.registry, r))
        && Owner(t'.registry, r) && !DeletionPending(requests, r.person, c.installation, c.product)
        && Key(c) in t.flows
        && SessionIssued(t, t', Key(c), r.account.value, p)
        && t'.profiles == t.profiles[ProfileKey(c.product, r.account.value) := Profile(r.identity, true)]
        && t'.challenges == t.challenges[p.challenge := Scrub(c, Consumed)]
        && t'.verifications == t.verifications - {p.challenge}
        && t'.events == t.events)
  }

  /** The registered account is active and its person is not deleted. */
  ghost predicate Owner(t: Registry.Tables, r: Registry.Registered) {
    && r.account.Some? && r.account.value in t.accounts
    && t.accounts[r.account.value].person == r.person && t.accounts[r.account.value].active
    && r.person in t.persons && !t.persons[r.person].deleted
  }

  ghost predicate SessionIssued(t: Tables, t': Tables, key: FlowKey, account: Id, p: Proof)
    requires key in t.flows
  {
    && p.session !in t.sessions && p.refresh !in t.tokens
    && t'.sessions ==
        RevokedPrevious(t, key)[p.session := Session(key.product, account, key.installation, true, p.refreshExpiresAt)]
    && t'.tokens == t.tokens[p.refresh := Token(p.session, p.refreshExpiresAt, false)]
    && t'.flows == t.flows[key := t.flows[key].(session := Some(p.session))]
  }

  function RevokedPrevious(t: Tables, key: FlowKey): map<Id, Session>
    requires key in t.flows
  {
    if t.flows[key].session.Some? then Revoked(t.sessions, t.flows[key].session.value) else t.sessions
  }

  lemma IssueHasEffect(t: Tables, key: FlowKey, account: Id, p: Proof, t': Tables)
    requires key in t.flows && Issue(t, key, account, p) == Ok(t')
    ensures SessionIssued(t, t', key, account, p)
    ensures t' == t.(sessions := t'.sessions, tokens := t'.tokens, flows := t'.flows)
  {
  }

  lemma AcceptHasEffect(
      t: Tables, requests: map<Id, Saga.Request>, k: Registry.Keyring, p: Proof, c: Challenge, now: Time, t': Tables,
      r: Completion)
    requires p.challenge in t.challenges && Key(c) in t.flows && CheckProof(t, p) == Ok(c) && now < c.expiresAt
    requires c.code == Some(p.code)
    requires Accept(t, requests, k, p, c, now) == Ok((t', r))
    ensures r.Issued? && Accepted(t, requests, k, p, now, t', r.registered)
  {
    var (registry, registered) := Registry.Register(t.registry, k, p.email, p.identity).value;
    var account := registered.account.value;
    var t1 := AddProfile(t.(registry := registry), ProfileKey(c.product, account), registered.identity).value;
    var t2 := Issue(t1, Key(c), account, p).value;
    IssueHasEffect(t1, Key(c), account, p, t2);
  }

  /** A completion either accepts the proof or only closes or counts against the challenge. */
  lemma CompleteHasEffect(
      t: Tables, requests: map<Id, Saga.Request>, k: Registry.Keyring, p: Proof, now: Time, t': Tables, r: Completion)
    requires Complete(t, requests, k, p, now) == Ok((t', r))
    ensures p.challenge in t.challenges && CheckProof(t, p) == Ok(t.challenges[p.challenge])
    ensures r.Issued? ==> Accepted(t, requests, k, p, now, t', r.registered)
    ensures r.Rejected? ==>
              var c := t.challenges[p.challenge];
              t' == Put(t, p.challenge, if c.expiresAt <= now then Scrub(c, Expired) else Miss(c))
  {
    var c := t.challenges[p.challenge];
    if now < c.expiresAt && c.code == Some(p.code) {
      AcceptHasEffect(t, requests, k, p, c, now, t', r);
    }
  }

  /** A claim either closes a challenge without mail or leases it. */
  ghost predicate LeasedBy(t: Tables, t': Tables, id: Id, owner: Id, dailyLimit: nat, now: Time) {
    && id in t.challenges && id in t.verifications
    && (var c := t.challenges[id];
        && c.state == Requested && c.availableAt <= now < c.expiresAt && Bound(c, t.verifications[id])
        && Key(c) in t.flows && t.flows[Key(c)].challenge == id
        && RateLimiter.Reserved(t.events, now, owner, SendLimits(dailyLimit)) == Ok(t'.events)
        && t' == Resend(t, id, TakeLease(c, owner, now), now + CODE_TTL).(events := t'.events))
  }

  ghost predicate ClosedUnsent(t: Tables, t': Tables, id: Id, now: Time) {
    && id in t.challenges
    && (var c := t.challenges[id];
        || (c.state == Delivering && (c.lease.None? || c.lease.value.until <= now) &&
            t' == Put(t, id, Settle(c, Uncertain)))
        || (c.state == Requested && t' == Put(t, id, Scrub(c, Cancelled)))
        || (c.state == Requested && t' == Put(t, id, Scrub(c, Expired))))
  }

  lemma ClaimHasEffect(
      t: Tables, owner: Id, products: set<Id>, dailyLimit: nat, now: Time, pick: set<Id>, t': Tables, id: Id)
    requires Picks(t, products, now, pick) && Claim(t, owner, products, dailyLimit, now, pick) == Ok((t', id))
    ensures id in pick && (LeasedBy(t, t', id, owner, dailyLimit, now) || ClosedUnsent(t, t', id, now))
    ensures id in t.challenges && t.challenges[id].state in {Requested, Delivering}
  {
    PickIsQueued(t, products, now, pick, id);
  }

  lemma PickIsQueued(t: Tables, products: set<Id>, now: Time, pick: set<Id>, id: Id)
    requires Picks(t, products, now, pick) && pick != {}
    ensures |pick| == 1
    ensures id in pick ==> id in t.challenges && t.challenges[id].state in {Requested, Delivering}
    ensures id in pick && t.challenges[id].state == Requested ==> Due(t.challenges[id], products, now)
    ensures id in pick && t.challenges[id].state == Delivering ==> Stuck(t.challenges[id], products, now)
    ensures forall x, y :: x in pick && y in pick ==> x == y
  {
    var x :| x in pick;
    assert {x} <= pick;
    CardinalityOne(pick, x);
  }

  lemma CardinalityOne(s: set<Id>, x: Id)
    requires x in s && |s| <= 1
    ensures s == {x}
  {
    assert |s - {x}| == 0;
    assert s == (s - {x}) + {x};
  }

  /** A rotation touches only the family: it is revoked, or gains its next token. */
  lemma RotateHasEffect(t: Tables, requests: map<Id, Saga.Request>, used: Id, next: Id, now: Time)
    requires Rotate(t, requests, used, next, now).Ok?
    ensures used in t.tokens && t.tokens[used].session in t.sessions && now < t.tokens[used].expiresAt
    ensures var (t', r) := Rotate(t, requests, used, next, now).value;
      var id := t.tokens[used].session;
      if t.tokens[used].consumed then r == Replayed && t' == t.(sessions := Revoked(t.sessions, id))
      else
        && r == Refreshed(id) && next !in t.tokens && Authorized(t, requests, id, t.sessions[id].product, now).Ok?
        && t' == t.(tokens := t.tokens[used := t.tokens[used].(consumed := true)][next := Token(id,
            t.sessions[id].expiresAt, false)])
  {
  }

  /** A creation renames the challenge of one flow and nothing else about sessions. */
  lemma CreateHasEffect(
      t: Tables, id: Id, c: Challenge, v: Verification, contact: Id, dailyLimit: nat, now: Time, t': Tables,
      created: bool)
    requires Create(t, id, c, v, contact, dailyLimit, now) == Ok((t', created))
    ensures t'.sessions == t.sessions && t'.tokens == t.tokens && t'.profiles == t.profiles && t'.registry == t.registry
    ensures if created then t'.flows == t.flows[Key(c) := Flow(id, SessionOf(t, Key(c)))] else t' == t
  {
  }
}
