/** When a presented code yields a session: in every run exactly when it is the right one, in
    time, for the installation's current challenge, its email can be registered and no deletion
    is open (internal/store/public_email_completion.go). */
module Completion {
  import opened Common
  import A = Accounts
  import C = Challenges
  import D = Deletion
  import N = Sessions
  import Q = QueueLaws
  import Registry
  import Saga
  import Service

  /** The proof fits what the broker must send along: a session and first refresh token with
      new identifiers that expire within ninety days, a verification time between the creation
      of the challenge and now, and the verified identity. */
  predicate WellFormed(t: A.Tables, k: Registry.Keyring, p: A.Proof, now: Time)
    requires p.challenge in t.challenges
  {
    var c := t.challenges[p.challenge];
    && now < p.refreshExpiresAt <= now + 90 * DAY && c.createdAt <= p.verifiedAt <= now
    && p.session !in t.sessions && p.refresh !in t.tokens
    && p.identity.createAccount && p.identity.product == p.product && p.identity.space == A.ACCOUNT
    && !p.identity.acrossProducts && p.identity.installation == Some(p.installation)
    && p.email == c.index.email && c.index.version in k.versions
  }

  /** No deletion is open for the person or the installation in this product. */
  predicate Unfenced(requests: map<Id, Saga.Request>, person: Id, installation: Id, product: Id) {
    forall r :: r in requests && N.OpenDeletion(requests[r], product) ==>
      requests[r].subject != Saga.Person(person) && requests[r].subject != Saga.Installation(installation)
  }

  /** The right code, in time, for the challenge the installation's flow leads to, whose
      verification is still stored. */
  predicate Proves(t: A.Tables, p: A.Proof, now: Time) {
    && Q.Judged(t, p) && now < t.challenges[p.challenge].expiresAt && t.challenges[p.challenge].code == Some(p.code)
    && p.challenge in t.verifications
  }

  /** In every run, a proof yields a session if and only if it proves the challenge, is well
      formed, its email's registration commits, and nobody has asked to delete the registered
      person or the installation. A delivered challenge is no exception. */
  lemma SessionIsIssuedIff(keys: Registry.Keyring, steps: seq<Service.Step>, p: A.Proof, now: Time)
    requires Service.Legal(keys, steps) && Service.Run(keys, steps).clock <= now
    ensures var w := Service.Run(keys, steps);
      var r := A.Complete(w.t, w.saga.t.requests, w.keys, p, now);
      r.Ok? && r.value.1.Issued? <==> MayIssue(w, p, now)
  {
    Service.RunIsSound(keys, steps);
    C.RunIsSound(keys, steps);
    N.RunNames(keys, steps);
    D.RunIsSafe(keys, steps);
    var w := Service.Run(keys, steps);
    assert forall id :: id in w.t.challenges ==> C.Row(w, C.ClaimedAt(keys, steps), id);
    IssuesIff(w, p, now);
  }

  ghost predicate MayIssue(w: Service.World, p: A.Proof, now: Time) {
    && Proves(w.t, p, now) && WellFormed(w.t, w.keys, p, now)
    && (var r := Registry.Register(w.t.registry, w.keys, p.email, p.identity);
        r.Ok? && Unfenced(w.saga.t.requests, r.value.1.person, p.installation, p.product))
  }

  lemma IssuesIff(w: Service.World, p: A.Proof, now: Time)
    requires Registry.Good(Registry.World(w.t.registry, w.keys)) && D.Bonds(w.t) && N.Named(w.t)
    requires forall id :: id in w.t.challenges ==> C.Coupled(w.t, id)
    ensures var r := A.Complete(w.t, w.saga.t.requests, w.keys, p, now);
      r.Ok? && r.value.1.Issued? <==> MayIssue(w, p, now)
  {
    var requests := w.saga.t.requests;
    Q.CompletionDecides(w.t, requests, w.keys, p, now);
    if Q.Judged(w.t, p) && now < w.t.challenges[p.challenge].expiresAt &&
        w.t.challenges[p.challenge].code == Some(p.code) {
      var c := w.t.challenges[p.challenge];
      Q.GateIsJudged(w.t, p);
      IdentityChecksOut(w, p, c, now);
      AcceptsIff(w, p, c, now);
    }
  }

  lemma IdentityChecksOut(w: Service.World, p: A.Proof, c: A.Challenge, now: Time)
    requires w.keys.Valid() && Q.Judged(w.t, p) && C.Coupled(w.t, p.challenge) && c == w.t.challenges[p.challenge]
    requires now < c.expiresAt
    ensures A.CheckIdentity(w.t, c, w.keys, p, now).Pass? && p.session !in w.t.sessions && p.refresh !in w.t.tokens
       <==> p.challenge in w.t.verifications && WellFormed(w.t, w.keys, p, now)
  {
  }

  /** With a well-formed proof, only the registration and the fence can still refuse it. */
  lemma AcceptsIff(w: Service.World, p: A.Proof, c: A.Challenge, now: Time)
    requires Registry.Good(Registry.World(w.t.registry, w.keys)) && D.Bonds(w.t) && N.Named(w.t)
    requires Q.Judged(w.t, p) && c == w.t.challenges[p.challenge] && C.Coupled(w.t, p.challenge) && now < c.expiresAt
    requires A.CheckIdentity(w.t, c, w.keys, p, now).Pass? && p.session !in w.t.sessions && p.refresh !in w.t.tokens
       <==> p.challenge in w.t.verifications && WellFormed(w.t, w.keys, p, now)
    ensures A.Accept(w.t, w.saga.t.requests, w.keys, p, c, now).Ok? <==>
      && p.challenge in w.t.verifications && WellFormed(w.t, w.keys, p, now)
      && (var r := Registry.Register(w.t.registry, w.keys, p.email, p.identity);
          r.Ok? && Unfenced(w.saga.t.requests, r.value.1.person, p.installation, p.product))
  {
    var r := Registry.Register(w.t.registry, w.keys, p.email, p.identity);
    if A.CheckIdentity(w.t, c, w.keys, p, now).Pass? && r.Ok? {
      var (registry, who) := r.value;
      WellFormedRegisters(w, p, c, now, registry, who);
      N.PendingIff(w.saga.t.requests, who.person, c.installation, c.product);
      OwnProfile(w, p, c, registry, who);
      if p.session !in w.t.sessions && p.refresh !in w.t.tokens {
        OwnSession(w, p, c, registry, who);
      }
    }
  }

  /** The registration is of an account in good standing on this installation. */
  lemma WellFormedRegisters(
      w: Service.World, p: A.Proof, c: A.Challenge, now: Time, registry: Registry.Tables, who: Registry.Registered)
    requires Registry.Good(Registry.World(w.t.registry, w.keys)) && A.CheckIdentity(w.t, c, w.keys, p, now).Pass?
    requires Registry.Register(w.t.registry, w.keys, p.email, p.identity) == Ok((registry, who))
    ensures A.Owner(registry, who)
  {
    Registry.RegistrationReportsAccount(w.t.registry, w.keys, p.email, p.identity, registry, who);
    Registry.RegisterIsSound(w.t.registry, w.keys, p.email, p.identity);
    assert Registry.AccountRow(registry, who.account.value);
  }

  /** A product account of this account is already the registered identity's. */
  lemma OwnProfile(w: Service.World, p: A.Proof, c: A.Challenge, registry: Registry.Tables, who: Registry.Registered)
    requires Registry.Sound(w.t.registry) && D.Bonds(w.t) && A.Owner(registry, who)
    requires Registry.Register(w.t.registry, w.keys, p.email, p.identity) == Ok((registry, who))
    ensures A.AddProfile(w.t.(registry := registry), A.ProfileKey(c.product, who.account.value), who.identity).Ok?
  {
    var key := A.ProfileKey(c.product, who.account.value);
    if key in w.t.profiles {
      assert D.ProfileRow(w.t, key);
      Registry.RegisterHasEffect(w.t.registry, w.keys, p.email, p.identity, registry, who);
      Registry.RegisterLinks(w.t.registry, w.keys, p.email, p.identity, registry, who);
      assert Registry.AccountRow(w.t.registry, key.account);
      assert !who.created ==> who.identity in w.t.registry.identities;
    }
  }

  /** The flow's previous session, if it is still stored, is this account's. */
  lemma OwnSession(w: Service.World, p: A.Proof, c: A.Challenge, registry: Registry.Tables, who: Registry.Registered)
    requires Registry.Good(Registry.World(w.t.registry, w.keys)) && D.Bonds(w.t) && N.Named(w.t)
    requires A.Owner(registry, who)
    requires Registry.Register(w.t.registry, w.keys, p.email, p.identity) == Ok((registry, who))
    requires A.Key(c) in w.t.flows && p.identity.installation == Some(c.installation)
    requires p.session !in w.t.sessions && p.refresh !in w.t.tokens
    ensures A.Issue(
              w.t.(registry := registry,
                   profiles := w.t.profiles[A.ProfileKey(c.product, who.account.value) := A.Profile(who.identity,
                       true)]),
              A.Key(c), who.account.value, p).Ok?
  {
    assert N.FlowRow(w.t, A.Key(c));
    var previous := w.t.flows[A.Key(c)].session;
    if previous.Some? {
      assert D.Bond(w.t, previous.value);
      Registry.RegisterLinks(w.t.registry, w.keys, p.email, p.identity, registry, who);
      Registry.RegisterIsSound(w.t.registry, w.keys, p.email, p.identity);
      var account := w.t.sessions[previous.value].account;
      assert Registry.AccountRow(registry, account) && Registry.AccountRow(registry, who.account.value);
    }
  }

  /** What is stored then: an active session of the registered account on the installation,
      its first token, and the flow that leads to it; the challenge is consumed, its
      verification gone, and the flow's previous session ended. */
  lemma IssueStores(w: Service.World, p: A.Proof, now: Time, t': A.Tables, r: Registry.Registered)
    requires A.Complete(w.t, w.saga.t.requests, w.keys, p, now) == Ok((t', A.Issued(r)))
    ensures r.account.Some? && A.FlowKey(p.product, p.installation) in w.t.flows && p.challenge in w.t.challenges
    ensures var account, key := r.account.value, A.FlowKey(p.product, p.installation);
      && p.session in t'.sessions
      && t'.sessions[p.session] == A.Session(p.product, account, p.installation, true, p.refreshExpiresAt)
      && t'.tokens == w.t.tokens[p.refresh := A.Token(p.session, p.refreshExpiresAt, false)]
      && t'.flows == w.t.flows[key := A.Flow(p.challenge, Some(p.session))]
      && t'.profiles == w.t.profiles[A.ProfileKey(p.product, account) := A.Profile(r.identity, true)]
      && t'.verifications == w.t.verifications - {p.challenge}
      && t'.challenges.Keys == w.t.challenges.Keys && t'.challenges[p.challenge].state == A.Consumed
      && t'.challenges[p.challenge].code == None
      && (forall x :: x in w.t.challenges && x != p.challenge ==> t'.challenges[x] == w.t.challenges[x])
      && (forall s :: s in w.t.sessions ==>
            s in t'.sessions
            && t'.sessions[s] == if w.t.flows[key].session == Some(s)
                then w.t.sessions[s].(active := false) else w.t.sessions[s])
  {
    A.CompleteHasEffect(w.t, w.saga.t.requests, w.keys, p, now, t', A.Issued(r));
  }
}
