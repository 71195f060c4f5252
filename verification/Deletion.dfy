/** What a deletion request does to online accounts in every run: from the moment it is
    committed nothing it covers is issued, refreshed or authorized unless it is called off;
    once completed nothing it covers is left; and nothing outside it is touched
    (internal/store/public_account_privacy_barrier.go, privacy_erasure.go,
    public_account_erasure.go). */
module Deletion {
  import opened Common
  import A = Accounts
  import C = Challenges
  import N = Sessions
  import Registry
  import Saga
  import Service

  // ------------------------------------------------------------------- invariants

  /** A session's installation is bound to the person its account belongs to. */
  ghost predicate Bond(t: A.Tables, s: Id)
    requires s in t.sessions
  {
    var v := t.sessions[s];
    && v.account in t.registry.accounts && v.installation in t.registry.installations
    && t.registry.installations[v.installation].product == v.product
    && t.registry.installations[v.installation].person == Some(t.registry.accounts[v.account].person)
  }

  /** A product account belongs to an account whose person has this identity in the product. */
  ghost predicate ProfileRow(t: A.Tables, k: A.ProfileKey)
    requires k in t.profiles
  {
    && k.account in t.registry.accounts
    && t.profiles[k].active && t.profiles[k].identity in t.registry.identities
    && t.registry.identities[t.profiles[k].identity]
       == Registry.Identity(t.registry.accounts[k.account].person, k.product, A.ACCOUNT,
           Registry.WithinProduct(k.product))
  }

  ghost predicate Bonds(t: A.Tables) {
    && (forall s {:trigger Bond(t, s)} :: s in t.sessions ==> Bond(t, s))
    && (forall k {:trigger ProfileRow(t, k)} :: k in t.profiles ==> ProfileRow(t, k))
  }

  /** A deletion request names a person or installation that exists. */
  ghost predicate SubjectRow(t: Registry.Tables, r: Saga.Request) {
    match r.subject
    case Person(p) => p in t.persons
    case Installation(i) => i in t.installations && r.product == Some(t.installations[i].product)
  }

  predicate InScope(r: Saga.Request, product: Id) {
    r.all || r.product == Some(product)
  }

  /** The request covers the session. */
  ghost predicate Covered(t: A.Tables, r: Saga.Request, s: Id)
    requires s in t.sessions && Bond(t, s)
  {
    A.Covers(r, t.registry.accounts[t.sessions[s].account].person, t.sessions[s].installation, t.sessions[s].product)
  }

  /** Nothing the request covers can come back. */
  ghost predicate Barred(t: Registry.Tables, r: Saga.Request) {
    match r.subject
    case Person(p) =>
      && p in t.persons && (r.all ==> t.persons[p].deleted)
      && (forall i :: i in t.identities && t.identities[i].person == p && t.identities[i].scope.WithinProduct? ==>
            !InScope(r, t.identities[i].scope.product))
    case Installation(i) => i in t.installations && t.installations[i].disabled
  }

  ghost predicate NoProfile(t: A.Tables, r: Saga.Request) {
    forall k :: k in t.profiles && k.account in t.registry.accounts && InScope(r, k.product) ==>
      r.subject != Saga.Person(t.registry.accounts[k.account].person)
  }

  ghost predicate Cleared(t: A.Tables, r: Saga.Request) {
    && Barred(t.registry, r) && NoProfile(t, r)
    && (forall s :: s in t.sessions && Bond(t, s) ==> !Covered(t, r, s))
  }

  ghost predicate RequestRow(w: Service.World, id: Id)
    requires id in w.saga.t.requests
  {
    var r := w.saga.t.requests[id];
    r.deletion ==> SubjectRow(w.t.registry, r) && (r.status == Saga.Completed ==> Cleared(w.t, r))
  }

  ghost predicate Safe(w: Service.World) {
    && Bonds(w.t)
    && (forall id {:trigger RequestRow(w, id)} :: id in w.saga.t.requests ==> RequestRow(w, id))
  }

  // --------------------------------------------------------------- the registry lasts

  lemma BarredLasts(t: Registry.Tables, t': Registry.Tables, r: Saga.Request)
    requires Registry.Lasting(t, t') && Barred(t, r)
    ensures Barred(t', r)
  {
  }

  lemma SubjectLasts(t: Registry.Tables, t': Registry.Tables, r: Saga.Request)
    requires Registry.Lasting(t, t') && SubjectRow(t, r)
    ensures SubjectRow(t', r)
  {
  }

  lemma RegistryLasts(w: Service.World, s: Service.Step)
    requires Service.Possible(w, s)
    ensures Registry.Lasting(w.t.registry, Service.After(w, s).registry)
  {
    Service.RegistryMoves(w, s);
    match Service.RegistryStep(w, s)
    case None =>
    case Some(op) => Registry.StepLasts(Registry.World(w.t.registry, w.keys), op);
  }

  /** Only an erasure takes a person off an installation or removes an identity. */
  ghost predicate Binds(t: Registry.Tables, t': Registry.Tables) {
    && (forall i :: i in t.installations && t.installations[i].person.Some? ==>
          && i in t'.installations && t'.installations[i].product == t.installations[i].product
          && t'.installations[i].person == t.installations[i].person)
    && (forall i :: i in t.identities ==> i in t'.identities && t'.identities[i] == t.identities[i])
  }

  lemma RegisterBinds(w: Registry.World, op: Registry.Op)
    requires !op.OpErase?
    ensures Binds(w.t, Registry.Next(w, op).t)
  {
    if op.OpRegister? && Registry.Register(w.t, w.keys, op.email, op.input).Ok? {
      var (t', r) := Registry.Register(w.t, w.keys, op.email, op.input).value;
      Registry.RegisterLinks(w.t, w.keys, op.email, op.input, t', r);
      Registry.RegisterHasEffect(w.t, w.keys, op.email, op.input, t', r);
    }
  }

  lemma StepBinds(w: Service.World, s: Service.Step)
    requires Service.Possible(w, s) && (s.op.Privacy? ==> Service.ErasedBy(w, s.op.saga).None?)
    ensures Binds(w.t.registry, Service.After(w, s).registry)
  {
    Service.RegistryMoves(w, s);
    match Service.RegistryStep(w, s)
    case None =>
    case Some(op) => RegisterBinds(Registry.World(w.t.registry, w.keys), op);
  }

  // ----------------------------------------------------- steps that issue no session

  /** Every session and profile of the next state was there before. */
  ghost predicate NoneNew(t: A.Tables, t': A.Tables) {
    && (forall s ::
        s in t'.sessions ==> s in t.sessions && t'.sessions[s] == t.sessions[s].(active := t'.sessions[s].active))
    && (forall k :: k in t'.profiles ==> k in t.profiles && t'.profiles[k] == t.profiles[k])
  }

  lemma BondsStay(t: A.Tables, t': A.Tables)
    requires Bonds(t) && NoneNew(t, t') && Registry.Lasting(t.registry, t'.registry) && Binds(t.registry, t'.registry)
    ensures Bonds(t')
  {
    forall s | s in t'.sessions ensures Bond(t', s) {
      assert Bond(t, s);
    }
    forall k | k in t'.profiles ensures ProfileRow(t', k) {
      assert ProfileRow(t, k);
    }
  }

  lemma ClearedStays(t: A.Tables, t': A.Tables, r: Saga.Request)
    requires Bonds(t) && Bonds(t') && NoneNew(t, t') && Registry.Lasting(t.registry, t'.registry) && Cleared(t, r)
    ensures Cleared(t', r)
  {
    BarredLasts(t.registry, t'.registry, r);
    forall k | k in t'.profiles && k.account in t'.registry.accounts && InScope(r, k.product)
      ensures r.subject != Saga.Person(t'.registry.accounts[k.account].person)
    {
      assert ProfileRow(t, k);
    }
    forall s | s in t'.sessions && Bond(t', s) ensures !Covered(t', r, s) {
      assert Bond(t, s) && !Covered(t, r, s);
    }
  }

  lemma NothingNew(w: Service.World, s: Service.Step)
    requires Service.Possible(w, s) && !N.Yields(w, s)
    ensures NoneNew(w.t, Service.After(w, s))
  {
    match s.op
    case Create(_, _, _, _, _) => Service.CreateKeepsSessions(w, s);
    case Complete(p) =>
      var r := A.Complete(w.t, w.saga.t.requests, w.keys, p, s.now);
      if r.Ok? {
        A.CompleteHasEffect(w.t, w.saga.t.requests, w.keys, p, s.now, r.value.0, r.value.1);
      }
    case Rotate(used, next) =>
      if A.Rotate(w.t, w.saga.t.requests, used, next, s.now).Ok? {
        A.RotateHasEffect(w.t, w.saga.t.requests, used, next, s.now);
      }
    case Revoke(_, _) =>
    case Cleanup(_, _) =>
    case Privacy(_) =>
    case _ => Service.ElsewhereKeepsSessions(w, s);
  }

  // ------------------------------------------------------------------ issuing a session

  /** The registration behind an accepted proof is in the challenge's product and binds its
      installation. */
  lemma AcceptedBinds(w: Service.World, p: A.Proof, now: Time, t': A.Tables, r: Registry.Registered)
    requires A.Accepted(w.t, w.saga.t.requests, w.keys, p, now, t', r) && C.Coupled(w.t, p.challenge)
    ensures var c := w.t.challenges[p.challenge];
      && p.identity.Scope() == Registry.WithinProduct(c.product) && p.identity.product == c.product
      && c.installation in t'.registry.installations
      && t'.registry.installations[c.installation].person == Some(r.person)
      && t'.registry.installations[c.installation].product == c.product
  {
    Registry.RegisterLinks(w.t.registry, w.keys, p.email, p.identity, t'.registry, r);
  }

  /** A barred request never covers what an accepted proof registers. */
  lemma BarredBlocks(w: Service.World, p: A.Proof, now: Time, t': A.Tables, r: Registry.Registered, q: Saga.Request)
    requires A.Accepted(w.t, w.saga.t.requests, w.keys, p, now, t', r)
    requires Registry.Indexed(w.t.registry) && C.Coupled(w.t, p.challenge)
    requires Barred(w.t.registry, q) && Barred(t'.registry, q)
    ensures !A.Covers(q, r.person, w.t.challenges[p.challenge].installation, w.t.challenges[p.challenge].product)
  {
    AcceptedBinds(w, p, now, t', r);
    Registry.RegisterHasEffect(w.t.registry, w.keys, p.email, p.identity, t'.registry, r);
    if !r.created {
      assert Registry.IndexRow(w.t.registry, Registry.KeyAt(p.identity.space, p.identity.Scope(), r.matched, p.email));
    }
  }

  lemma IssueKeepsBonds(w: Service.World, p: A.Proof, now: Time, t': A.Tables, r: Registry.Registered)
    requires Bonds(w.t) && A.Accepted(w.t, w.saga.t.requests, w.keys, p, now, t', r) && C.Coupled(w.t, p.challenge)
    requires Registry.Lasting(w.t.registry, t'.registry) && Binds(w.t.registry, t'.registry)
    requires Registry.Indexed(w.t.registry)
    ensures Bonds(t')
  {
    AcceptedBinds(w, p, now, t', r);
    RegisteredIdentity(w, p, now, t', r);
    forall s | s in t'.sessions ensures Bond(t', s) {
      assert s != p.session ==> Bond(w.t, s);
    }
    forall k | k in t'.profiles ensures ProfileRow(t', k) {
      assert k in w.t.profiles ==> ProfileRow(w.t, k);
    }
  }

  lemma IssueKeepsCleared(
      w: Service.World, p: A.Proof, now: Time, t': A.Tables, r: Registry.Registered, q: Saga.Request)
    requires A.Accepted(w.t, w.saga.t.requests, w.keys, p, now, t', r)
    requires Bonds(w.t) && Bonds(t') && Registry.Indexed(w.t.registry) && C.Coupled(w.t, p.challenge)
    requires Registry.Lasting(w.t.registry, t'.registry) && q.deletion && Cleared(w.t, q)
    ensures Cleared(t', q)
  {
    BarredLasts(w.t.registry, t'.registry, q);
    BarredBlocks(w, p, now, t', r, q);
    var c := w.t.challenges[p.challenge];
    IssueAddsNoProfile(w.t, t', q, A.ProfileKey(c.product, r.account.value), A.Profile(r.identity, true));
    forall s | s in t'.sessions && Bond(t', s) ensures !Covered(t', q, s) {
      if s != p.session {
        assert Bond(w.t, s) && !Covered(w.t, q, s);
      }
    }
  }

  /** A new product account of somebody the request does not cover leaves it without any. */
  lemma IssueAddsNoProfile(t: A.Tables, t': A.Tables, q: Saga.Request, key: A.ProfileKey, profile: A.Profile)
    requires Bonds(t) && Registry.Lasting(t.registry, t'.registry) && NoProfile(t, q)
    requires t'.profiles == t.profiles[key := profile] && key.account in t'.registry.accounts
    requires InScope(q, key.product) ==> q.subject != Saga.Person(t'.registry.accounts[key.account].person)
    ensures NoProfile(t', q)
  {
    forall k | k in t'.profiles && k.account in t'.registry.accounts && InScope(q, k.product)
      ensures q.subject != Saga.Person(t'.registry.accounts[k.account].person)
    {
      if k != key {
        assert ProfileRow(t, k);
      }
    }
  }

  // ------------------------------------------------------------------------- erasing

  /** An erasure spares a session exactly when its request does not cover it. */
  lemma ErasesCovered(t: A.Tables, r: Saga.Request, e: Registry.Target, s: Id)
    requires Bonds(t) && r.deletion && SubjectRow(t.registry, r)
    requires Saga.TargetOf(r.subject, r.all, r.product) == Some(e)
    requires s in t.sessions && Bond(t, s)
    ensures A.ErasesSession(t.registry, e, t.sessions[s]) <==> Covered(t, r, s)
  {
  }

  lemma EraseKeepsBonds(t: A.Tables, r: Saga.Request, e: Registry.Target)
    requires Bonds(t) && r.deletion && SubjectRow(t.registry, r)
    requires Saga.TargetOf(r.subject, r.all, r.product) == Some(e)
    requires Registry.Lasting(t.registry, A.Erase(t, e).registry)
    ensures Bonds(A.Erase(t, e))
  {
    var t' := A.Erase(t, e);
    forall s | s in t'.sessions ensures Bond(t', s) {
      assert Bond(t, s);
      ErasesCovered(t, r, e, s);
    }
    forall k | k in t'.profiles ensures ProfileRow(t', k) {
      assert ProfileRow(t, k);
    }
  }

  /** A committed erasure leaves nothing its request covers. */
  lemma EraseClears(t: A.Tables, r: Saga.Request, e: Registry.Target)
    requires Bonds(t) && Bonds(A.Erase(t, e)) && Registry.Indexed(t.registry)
    requires r.deletion && SubjectRow(t.registry, r) && Saga.TargetOf(r.subject, r.all, r.product) == Some(e)
    requires Registry.Lasting(t.registry, A.Erase(t, e).registry)
    ensures Cleared(A.Erase(t, e), r)
  {
    var t' := A.Erase(t, e);
    forall i | i in t.registry.identities ensures Registry.IdentityRow(t.registry, i) {
    }
    EraseBars(t.registry, r, e);
    forall s | s in t'.sessions && Bond(t', s) ensures !Covered(t', r, s) {
      assert Bond(t, s);
      ErasesCovered(t, r, e, s);
    }
  }

  lemma EraseBars(t: Registry.Tables, r: Saga.Request, e: Registry.Target)
    requires Registry.Indexed(t) && SubjectRow(t, r) && Saga.TargetOf(r.subject, r.all, r.product) == Some(e)
    ensures Barred(Registry.Erase(t, e), r)
  {
    assert forall i :: i in t.identities ==> Registry.IdentityRow(t, i);
  }

  /** A request without a target covers nothing. */
  lemma NoTargetNoCover(t: A.Tables, r: Saga.Request)
    requires SubjectRow(t.registry, r) && Saga.TargetOf(r.subject, r.all, r.product).None?
    ensures Cleared(t, r)
  {
  }

  // ---------------------------------------------------------------- every step is safe

  lemma IssueIsSafe(w: Service.World, p: A.Proof, now: Time, w': Service.World, r: A.Completion)
    requires Safe(w) && Registry.Indexed(w.t.registry)
    requires A.Complete(w.t, w.saga.t.requests, w.keys, p, now) == Ok((w'.t, r)) && r.Issued? && w'.saga == w.saga
    requires forall id :: id in w.t.challenges ==> C.Coupled(w.t, id)
    ensures Safe(w')
  {
    A.CompleteHasEffect(w.t, w.saga.t.requests, w.keys, p, now, w'.t, r);
    IssuedIsSafe(w, p, now, w', r.registered);
  }

  lemma IssuedIsSafe(w: Service.World, p: A.Proof, now: Time, w': Service.World, r: Registry.Registered)
    requires Safe(w) && Registry.Indexed(w.t.registry) && A.Accepted(w.t, w.saga.t.requests, w.keys, p, now, w'.t, r)
    requires C.Coupled(w.t, p.challenge) && w'.saga == w.saga
    ensures Safe(w')
  {
    Registry.StepLasts(Registry.World(w.t.registry, w.keys), Registry.OpRegister(p.email, p.identity));
    RegisterBinds(Registry.World(w.t.registry, w.keys), Registry.OpRegister(p.email, p.identity));
    IssueKeepsBonds(w, p, now, w'.t, r);
    forall id | id in w'.saga.t.requests ensures RequestRow(w', id) {
      assert RequestRow(w, id);
      var q := w.saga.t.requests[id];
      if q.deletion {
        SubjectLasts(w.t.registry, w'.t.registry, q);
        if q.status == Saga.Completed {
          IssueKeepsCleared(w, p, now, w'.t, r, q);
        }
      }
    }
  }

  /** A step without a new session: completed requests stay cleared. */
  lemma QuietRow(w: Service.World, w': Service.World, id: Id)
    requires Safe(w) && Bonds(w'.t) && NoneNew(w.t, w'.t) && Registry.Lasting(w.t.registry, w'.t.registry)
    requires id in w.saga.t.requests && id in w'.saga.t.requests
    requires w'.saga.t.requests[id].(status := w.saga.t.requests[id].status) == w.saga.t.requests[id]
    requires w'.saga.t.requests[id].status == Saga.Completed ==>
               w.saga.t.requests[id].status == Saga.Completed || Cleared(w'.t, w'.saga.t.requests[id])
    ensures RequestRow(w', id)
  {
    assert RequestRow(w, id);
    var q := w.saga.t.requests[id];
    if q.deletion {
      SubjectLasts(w.t.registry, w'.t.registry, q);
      if q.status == Saga.Completed {
        ClearedStays(w.t, w'.t, q);
        assert Cleared(w'.t, w'.saga.t.requests[id]);
      }
    }
  }

  lemma QuietIsSafe(w: Service.World, w': Service.World)
    requires Safe(w) && NoneNew(w.t, w'.t) && w'.saga == w.saga
    requires Registry.Lasting(w.t.registry, w'.t.registry) && Binds(w.t.registry, w'.t.registry)
    ensures Safe(w')
  {
    BondsStay(w.t, w'.t);
    forall id | id in w'.saga.t.requests ensures RequestRow(w', id) {
      QuietRow(w, w', id);
    }
  }

  lemma CreatedSubjectExists(w: Service.World, op: Saga.Op)
    requires op.OpCreate? && op.ask.deletion && op.found.Ok?
    requires Service.Finds(w.t.registry, op.ask, op.products, op.found)
    ensures SubjectRow(w.t.registry, Saga.Request(true, op.ask.subject, op.ask.all, op.ask.product, Saga.Requested))
  {
  }

  /** A completed request has just been erased, or has nothing to erase. */
  lemma CompletionClearsRow(w: Service.World, job: Saga.Job, t': A.Tables)
    requires Safe(w) && Registry.Indexed(w.t.registry) && Saga.Sound(w.saga) && job in w.saga.issued
    requires Saga.Erase(w.saga.t, job).Ok?
    requires w.saga.t.requests[job.request].deletion
    requires var e := Saga.TargetOf(job.subject, job.all, job.product);
      if e.Some? then t' == A.Erase(w.t, e.value) && Registry.Lasting(w.t.registry, t'.registry) else t' == w.t
    ensures Bonds(t') && Cleared(t', w.saga.t.requests[job.request].(status := Saga.Completed))
  {
    assert Saga.JobRow(w.saga, job) && RequestRow(w, job.request);
    var r := w.saga.t.requests[job.request].(status := Saga.Completed);
    var e := Saga.TargetOf(job.subject, job.all, job.product);
    if e.Some? {
      EraseKeepsBonds(w.t, r, e.value);
      EraseClears(w.t, r, e.value);
    } else {
      NoTargetNoCover(w.t, r);
    }
  }

  lemma PrivacyIsSafe(w: Service.World, s: Service.Step, w': Service.World)
    requires Safe(w) && Service.Sound(w) && Service.Possible(w, s) && s.op.Privacy? && w' == Service.Next(w, s)
    ensures Safe(w')
  {
    var op := s.op.saga;
    RegistryLasts(w, s);
    Saga.RequestsCome(w.saga, op);
    if op.OpErase? && Saga.Erase(w.saga.t, op.job).Ok? {
      assert Saga.JobRow(w.saga, op.job);
      assert Saga.StepRow(w.saga, op.job.step);
      CompletionClearsRow(w, op.job, w'.t);
    }
    PrivacyRowsStay(w, op, w');
  }

  lemma PrivacyRowsStay(w: Service.World, op: Saga.Op, w': Service.World)
    requires Safe(w) && Bonds(w'.t) && NoneNew(w.t, w'.t) && Registry.Lasting(w.t.registry, w'.t.registry)
    requires forall id :: id in w'.saga.t.requests ==> Saga.RequestFrom(w.saga, op, id, w'.saga.t.requests[id])
    requires op.OpErase? && Saga.Erase(w.saga.t, op.job).Ok? ==>
               op.job.request in w.saga.t.requests &&
                   Cleared(w'.t, w.saga.t.requests[op.job.request].(status := Saga.Completed))
    requires op.OpCreate? ==> w'.t == w.t && Service.Finds(w.t.registry, op.ask, op.products, op.found)
    ensures Safe(w')
  {
    forall id | id in w'.saga.t.requests ensures RequestRow(w', id) {
      var row := w'.saga.t.requests[id];
      assert Saga.RequestFrom(w.saga, op, id, row);
      if id in w.saga.t.requests {
        if row.status == Saga.Completed && w.saga.t.requests[id].status != Saga.Completed {
          assert row == w.saga.t.requests[id].(status := Saga.Completed);
        }
        QuietRow(w, w', id);
      } else if row.deletion {
        CreatedSubjectExists(w, op);
      }
    }
  }

  lemma StepIsSafe(w: Service.World, s: Service.Step, claimedAt: map<Id, Time>)
    requires Safe(w) && Service.Sound(w) && C.Sound(w, claimedAt) && Service.Possible(w, s)
    ensures Safe(Service.Next(w, s))
  {
    var w' := Service.Next(w, s);
    if N.Yields(w, s) {
      assert forall id :: id in w.t.challenges ==> C.Row(w, claimedAt, id);
      IssueIsSafe(w, s.op.proof, s.now, w', A.Complete(w.t, w.saga.t.requests, w.keys, s.op.proof, s.now).value.1);
    } else if s.op.Privacy? {
      PrivacyIsSafe(w, s, w');
    } else {
      RegistryLasts(w, s);
      StepBinds(w, s);
      NothingNew(w, s);
      QuietIsSafe(w, w');
    }
  }

  lemma {:induction false} RunIsSafe(keys: Registry.Keyring, steps: seq<Service.Step>)
    requires Service.Legal(keys, steps)
    ensures Safe(Service.Run(keys, steps))
    decreases |steps|
  {
    if steps != [] {
      var before := steps[..|steps| - 1];
      RunIsSafe(keys, before);
      Service.RunIsSound(keys, before);
      C.RunIsSound(keys, before);
      StepIsSafe(Service.Run(keys, before), steps[|steps| - 1], C.ClaimedAt(keys, before));
    }
  }

  // ------------------------------------------------------------------- main results

  ghost predicate CalledOff(r: Saga.Request) {
    r.status == Saga.Rejected || r.status == Saga.Cancelled
  }

  /** A session that is authorized, or refreshed, is covered by no deletion request but one
      that was rejected or cancelled. */
  lemma NothingCoveredIsAuthorized(
      keys: Registry.Keyring, steps: seq<Service.Step>, id: Id, s: Id, product: Id, now: Time)
    requires Service.Legal(keys, steps)
    requires var w := Service.Run(keys, steps);
      id in w.saga.t.requests && A.Authorized(w.t, w.saga.t.requests, s, product, now).Ok?
    ensures var w := Service.Run(keys, steps);
      s in w.t.sessions && Bond(w.t, s) && (Covered(w.t, w.saga.t.requests[id], s) ==> CalledOff(w.saga.t.requests[id]))
  {
    RunIsSafe(keys, steps);
    AuthorizedIsUncovered(Service.Run(keys, steps), id, s, product, now);
  }

  lemma AuthorizedIsUncovered(w: Service.World, id: Id, s: Id, product: Id, now: Time)
    requires Safe(w) && id in w.saga.t.requests && A.Authorized(w.t, w.saga.t.requests, s, product, now).Ok?
    ensures s in w.t.sessions && Bond(w.t, s)
    ensures (Covered(w.t, w.saga.t.requests[id], s) ==> CalledOff(w.saga.t.requests[id]))
  {
    assert Bond(w.t, s) && RequestRow(w, id);
  }

  /** So is a session that is refreshed. */
  lemma NothingCoveredIsRefreshed(
      keys: Registry.Keyring, steps: seq<Service.Step>, id: Id, used: Id, next: Id, now: Time)
    requires Service.Legal(keys, steps)
    requires var w := Service.Run(keys, steps);
      var r := A.Rotate(w.t, w.saga.t.requests, used, next, now);
      id in w.saga.t.requests && r.Ok? && r.value.1.Refreshed?
    ensures var w := Service.Run(keys, steps);
      && used in w.t.tokens && w.t.tokens[used].session in w.t.sessions && Bond(w.t, w.t.tokens[used].session)
      && (Covered(w.t, w.saga.t.requests[id], w.t.tokens[used].session) ==> CalledOff(w.saga.t.requests[id]))
  {
    RunIsSafe(keys, steps);
    var w := Service.Run(keys, steps);
    A.RotateHasEffect(w.t, w.saga.t.requests, used, next, now);
    var s := w.t.tokens[used].session;
    AuthorizedIsUncovered(w, id, s, w.t.sessions[s].product, now);
  }

  /** No session is issued that a deletion request covers, unless that was called off. */
  lemma NothingCoveredIsIssued(keys: Registry.Keyring, steps: seq<Service.Step>, id: Id, p: A.Proof, now: Time)
    requires Service.Legal(keys, steps)
    requires var w := Service.Run(keys, steps);
      var r := A.Complete(w.t, w.saga.t.requests, w.keys, p, now);
      id in w.saga.t.requests && r.Ok? && r.value.1.Issued?
    ensures var w := Service.Run(keys, steps);
      var r := A.Complete(w.t, w.saga.t.requests, w.keys, p, now).value.1.registered;
      A.Covers(w.saga.t.requests[id], r.person, p.installation, p.product) ==> CalledOff(w.saga.t.requests[id])
  {
    RunIsSafe(keys, steps);
    Service.RunIsSound(keys, steps);
    C.RunIsSound(keys, steps);
    var w := Service.Run(keys, steps);
    var r := A.Complete(w.t, w.saga.t.requests, w.keys, p, now).value;
    A.CompleteHasEffect(w.t, w.saga.t.requests, w.keys, p, now, r.0, r.1);
    assert C.Row(w, C.ClaimedAt(keys, steps), p.challenge);
    IssuedIsUncovered(w, id, p, now, r.0, r.1.registered);
  }

  lemma IssuedIsUncovered(w: Service.World, id: Id, p: A.Proof, now: Time, t': A.Tables, r: Registry.Registered)
    requires Safe(w) && Registry.Indexed(w.t.registry) && id in w.saga.t.requests
    requires A.Accepted(w.t, w.saga.t.requests, w.keys, p, now, t', r) && C.Coupled(w.t, p.challenge)
    ensures A.Covers(w.saga.t.requests[id], r.person, p.installation, p.product) ==> CalledOff(w.saga.t.requests[id])
  {
    assert RequestRow(w, id);
    var q := w.saga.t.requests[id];
    if q.deletion && q.status == Saga.Completed {
      Registry.StepLasts(Registry.World(w.t.registry, w.keys), Registry.OpRegister(p.email, p.identity));
      BarredLasts(w.t.registry, t'.registry, q);
      BarredBlocks(w, p, now, t', r, q);
    }
  }

  /** The fence and the authority checks let through what was just issued: the new session is
      authorized under the registered identity, and its first token can be exchanged. */
  lemma IssuedSessionWorks(keys: Registry.Keyring, steps: seq<Service.Step>, p: A.Proof, now: Time, next: Id)
    requires Service.Legal(keys, steps)
    requires var w := Service.Run(keys, steps);
      var r := A.Complete(w.t, w.saga.t.requests, w.keys, p, now);
      r.Ok? && r.value.1.Issued? && next !in r.value.0.tokens
    ensures var w := Service.Run(keys, steps);
      var r := A.Complete(w.t, w.saga.t.requests, w.keys, p, now).value;
      && A.Authorized(r.0, w.saga.t.requests, p.session, p.product, now) == Ok(A.Profile(r.1.registered.identity, true))
      && A.Rotate(r.0, w.saga.t.requests, p.refresh, next, now).Ok?
      && A.Rotate(r.0, w.saga.t.requests, p.refresh, next, now).value.1 == A.Refreshed(p.session)
  {
    Service.RunIsSound(keys, steps);
    C.RunIsSound(keys, steps);
    var w := Service.Run(keys, steps);
    var r := A.Complete(w.t, w.saga.t.requests, w.keys, p, now).value;
    A.CompleteHasEffect(w.t, w.saga.t.requests, w.keys, p, now, r.0, r.1);
    assert C.Row(w, C.ClaimedAt(keys, steps), p.challenge);
    AcceptedIsAuthorized(w, p, now, r.0, r.1.registered);
    AuthorizedRotates(r.0, w.saga.t.requests, p.refresh, next, now);
  }

  /** An unconsumed, unexpired token of an authorized session can be exchanged. */
  lemma AuthorizedRotates(t: A.Tables, requests: map<Id, Saga.Request>, used: Id, next: Id, now: Time)
    requires used in t.tokens && !t.tokens[used].consumed && now < t.tokens[used].expiresAt && next !in t.tokens
    requires t.tokens[used].session in t.sessions
    requires A.Authorized(t, requests, t.tokens[used].session, t.sessions[t.tokens[used].session].product, now).Ok?
    ensures A.Rotate(t, requests, used, next, now).Ok?
    ensures A.Rotate(t, requests, used, next, now).value.1 == A.Refreshed(t.tokens[used].session)
  {
  }

  lemma AcceptedIsAuthorized(w: Service.World, p: A.Proof, now: Time, t': A.Tables, r: Registry.Registered)
    requires Registry.Indexed(w.t.registry)
    requires A.Accepted(w.t, w.saga.t.requests, w.keys, p, now, t', r) && C.Coupled(w.t, p.challenge)
    ensures A.Authorized(t', w.saga.t.requests, p.session, p.product, now) == Ok(A.Profile(r.identity, true))
  {
    AcceptedIsLinked(w, p, now, t', r);
    RowsAuthorize(t', w.saga.t.requests, p.session, r.person, r.identity, now);
  }

  /** The rows that make a session usable. */
  lemma RowsAuthorize(
      t: A.Tables, requests: map<Id, Saga.Request>, id: Id, person: Id, identity: Id, now: Time)
    requires id in t.sessions && t.sessions[id].active && now < t.sessions[id].expiresAt
    requires t.sessions[id].account in t.registry.accounts
    requires t.registry.accounts[t.sessions[id].account] == Registry.Account(person, true)
    requires person in t.registry.persons && !t.registry.persons[person].deleted
    requires !A.DeletionPending(requests, person, t.sessions[id].installation, t.sessions[id].product)
    requires A.ProfileKey(t.sessions[id].product, t.sessions[id].account) in t.profiles
    requires t.profiles[A.ProfileKey(t.sessions[id].product, t.sessions[id].account)] == A.Profile(identity, true)
    requires A.Linked(t, person, identity, t.sessions[id].installation, t.sessions[id].product, id)
    ensures A.Authorized(t, requests, id, t.sessions[id].product, now) == Ok(A.Profile(identity, true))
  {
  }

  lemma AcceptedIsLinked(w: Service.World, p: A.Proof, now: Time, t': A.Tables, r: Registry.Registered)
    requires Registry.Indexed(w.t.registry)
    requires A.Accepted(w.t, w.saga.t.requests, w.keys, p, now, t', r) && C.Coupled(w.t, p.challenge)
    ensures A.Linked(t', r.person, r.identity, p.installation, p.product, p.session)
  {
    AcceptedFlow(w, p, now, t', r);
    AcceptedDevice(w, p, now, t', r);
    RegisteredIdentity(w, p, now, t', r);
  }

  lemma AcceptedFlow(w: Service.World, p: A.Proof, now: Time, t': A.Tables, r: Registry.Registered)
    requires A.Accepted(w.t, w.saga.t.requests, w.keys, p, now, t', r)
    ensures A.FlowKey(p.product, p.installation) in t'.flows
    ensures t'.flows[A.FlowKey(p.product, p.installation)].session == Some(p.session)
  {
  }

  lemma AcceptedDevice(w: Service.World, p: A.Proof, now: Time, t': A.Tables, r: Registry.Registered)
    requires A.Accepted(w.t, w.saga.t.requests, w.keys, p, now, t', r) && C.Coupled(w.t, p.challenge)
    ensures A.Usable(t'.registry, p.installation, p.product)
    ensures t'.registry.installations[p.installation].person == Some(r.person)
  {
    AcceptedBinds(w, p, now, t', r);
    Registry.RegisterLinks(w.t.registry, w.keys, p.email, p.identity, t'.registry, r);
  }

  lemma RegisteredIdentity(w: Service.World, p: A.Proof, now: Time, t': A.Tables, r: Registry.Registered)
    requires Registry.Indexed(w.t.registry)
    requires A.Accepted(w.t, w.saga.t.requests, w.keys, p, now, t', r) && C.Coupled(w.t, p.challenge)
    ensures r.identity in t'.registry.identities
    ensures t'.registry.identities[r.identity] ==
        Registry.Identity(r.person, p.product, A.ACCOUNT, Registry.WithinProduct(p.product))
  {
    AcceptedBinds(w, p, now, t', r);
    Registry.RegisterHasEffect(w.t.registry, w.keys, p.email, p.identity, t'.registry, r);
    if !r.created {
      assert Registry.IndexRow(w.t.registry, Registry.KeyAt(p.identity.space, p.identity.Scope(), r.matched, p.email));
      assert Registry.IdentityRow(w.t.registry, r.identity);
    }
  }

  /** Once a deletion is completed, no session, unexpired refresh token or product account
      it covers is stored, and no identity that could lead back to one; a person deleted as a
      whole has no identity, bound installation, active account or alias of any kind. */
  lemma CompletionLeavesNothing(keys: Registry.Keyring, steps: seq<Service.Step>, id: Id)
    requires Service.Legal(keys, steps) && N.FreshSessions(keys, steps)
    requires id in Service.Run(keys, steps).saga.t.requests
    requires var r := Service.Run(keys, steps).saga.t.requests[id]; r.deletion && r.status == Saga.Completed
    ensures var w := Service.Run(keys, steps);
      && Cleared(w.t, w.saga.t.requests[id]) && TokensAreUncovered(w, w.saga.t.requests[id])
      && (w.saga.t.requests[id].all && w.saga.t.requests[id].subject.Person? ==>
            Registry.Gone(w.t.registry, w.saga.t.requests[id].subject.id))
  {
    RunIsSafe(keys, steps);
    Service.RunIsSound(keys, steps);
    N.RunKeepsFamilies(keys, steps);
    var w := Service.Run(keys, steps);
    assert RequestRow(w, id);
    WholePersonIsGone(w.t, w.saga.t.requests[id]);
    TokensFollowSessions(w, N.Chains(keys, steps), w.saga.t.requests[id]);
  }

  lemma WholePersonIsGone(t: A.Tables, r: Saga.Request)
    requires Registry.Sound(t.registry) && Cleared(t, r)
    ensures r.all && r.subject.Person? ==> Registry.Gone(t.registry, r.subject.id)
  {
    if r.all && r.subject.Person? {
      Registry.DeletedMeansGone(t.registry, r.subject.id);
    }
  }

  /** An erasure leaves a token if and only if its session is gone already or is spared. */
  lemma ErasureLeavesTokenIff(t: A.Tables, e: Registry.Target, k: Id)
    ensures k in A.Erase(t, e).tokens <==>
            && k in t.tokens
            && (t.tokens[k].session in t.sessions ==> !A.ErasesSession(t.registry, e, t.sessions[t.tokens[k].session]))
  {
  }

  /** In a run, a committed erasure removes a stored token if and only if the token's session
      is still stored and covered by the request; a token whose session the cleanup has
      deleted before has expired. */
  lemma ErasureRemovesTokenIff(keys: Registry.Keyring, steps: seq<Service.Step>, now: Time, job: Saga.Job, k: Id)
    requires Service.Legal(keys, steps) && N.FreshSessions(keys, steps)
    requires Service.Possible(Service.Run(keys, steps), Service.Step(now, Service.Privacy(Saga.OpErase(job))))
    requires var w := Service.Run(keys, steps); Saga.Erase(w.saga.t, job).Ok? && k in w.t.tokens
    ensures var w := Service.Run(keys, steps);
      var t' := Service.After(w, Service.Step(now, Service.Privacy(Saga.OpErase(job))));
      && (k !in t'.tokens <==> CoveredToken(w.t, w.saga.t.requests[job.request], k))
      && (w.t.tokens[k].session !in w.t.sessions ==> w.t.tokens[k].expiresAt <= w.clock)
  {
    RunIsSafe(keys, steps);
    Service.RunIsSound(keys, steps);
    N.RunKeepsFamilies(keys, steps);
    var w := Service.Run(keys, steps);
    assert N.TokenRow(w.t, N.Chains(keys, steps), w.clock, k);
    JobRemovesTokenIff(w, job, k);
  }

  /** The token's session is stored and covered. */
  ghost predicate CoveredToken(t: A.Tables, r: Saga.Request, k: Id)
    requires k in t.tokens
  {
    var s := t.tokens[k].session;
    s in t.sessions && Bond(t, s) && Covered(t, r, s)
  }

  lemma JobRemovesTokenIff(w: Service.World, job: Saga.Job, k: Id)
    requires Safe(w) && Saga.Sound(w.saga) && job in w.saga.issued && Saga.Erase(w.saga.t, job).Ok? && k in w.t.tokens
    ensures var e := Saga.TargetOf(job.subject, job.all, job.product);
      var t' := if e.Some? then A.Erase(w.t, e.value) else w.t;
      k !in t'.tokens <==> CoveredToken(w.t, w.saga.t.requests[job.request], k)
  {
    assert Saga.JobRow(w.saga, job) && Saga.StepRow(w.saga, job.step) && RequestRow(w, job.request);
    var r, e := w.saga.t.requests[job.request], Saga.TargetOf(job.subject, job.all, job.product);
    var s := w.t.tokens[k].session;
    if s in w.t.sessions {
      assert Bond(w.t, s);
    }
    if e.None? {
      NoTargetNoCover(w.t, r);
    } else {
      ErasureLeavesTokenIff(w.t, e.value, k);
      if s in w.t.sessions {
        ErasesCovered(w.t, r, e.value, s);
      }
    }
  }

  /** Once a whole person, or an installation, is deleted, nobody can ask for it again. */
  lemma NothingMoreToDelete(keys: Registry.Keyring, steps: seq<Service.Step>, id: Id, now: Time, op: Saga.Op)
    requires Service.Legal(keys, steps) && id in Service.Run(keys, steps).saga.t.requests
    requires var r := Service.Run(keys, steps).saga.t.requests[id];
      r.deletion && r.status == Saga.Completed && (r.all || r.subject.Installation?) && op.OpCreate? &&
          op.ask.subject == r.subject
    requires Service.Possible(Service.Run(keys, steps), Service.Step(now, Service.Privacy(op)))
    requires op.key !in Service.Run(keys, steps).saga.t.recorded
    ensures var h := Service.Run(keys, steps).saga;
      Saga.Create(h.t, op.key, op.ask, op.found, op.products, op.made, op.now) == Err(NotFound)
  {
    RunIsSafe(keys, steps);
    var w := Service.Run(keys, steps);
    assert RequestRow(w, id);
    GoneIsNotFound(w.t.registry, op.ask, op.products, op.found);
  }

  lemma GoneIsNotFound(
      t: Registry.Tables, ask: Saga.Ask, products: map<Id, Id>, found: Result<seq<Saga.Announcement>>)
    requires Service.Finds(t, ask, products, found)
    requires match ask.subject
      case Person(p) => p in t.persons && t.persons[p].deleted
      case Installation(i) => i in t.installations && t.installations[i].disabled
    ensures found == Err(NotFound)
  {
  }

  /** Every stored token is expired or belongs to a stored session that is not covered. */
  ghost predicate TokensAreUncovered(w: Service.World, r: Saga.Request) {
    forall k :: k in w.t.tokens && w.clock < w.t.tokens[k].expiresAt ==>
      var s := w.t.tokens[k].session;
      s in w.t.sessions && Bond(w.t, s) && !Covered(w.t, r, s)
  }

  lemma TokensFollowSessions(w: Service.World, chains: map<Id, seq<Id>>, r: Saga.Request)
    requires Safe(w) && N.Families(w.t, chains, w.clock) && Cleared(w.t, r)
    ensures TokensAreUncovered(w, r)
  {
    forall k | k in w.t.tokens && w.clock < w.t.tokens[k].expiresAt
      ensures var s := w.t.tokens[k].session; s in w.t.sessions && Bond(w.t, s) && !Covered(w.t, r, s)
    {
      assert N.TokenRow(w.t, chains, w.clock, k);
      assert Bond(w.t, w.t.tokens[k].session);
    }
  }

  /** What an erasure leaves of the session: the row, its tokens, the flow that names it. */
  ghost predicate Untouched(t: A.Tables, t': A.Tables, s: Id)
    requires s in t.sessions
  {
    var key := A.FlowKey(t.sessions[s].product, t.sessions[s].installation);
    && s in t'.sessions && t'.sessions[s] == t.sessions[s]
    && (forall k :: k in t.tokens && t.tokens[k].session == s ==> k in t'.tokens && t'.tokens[k] == t.tokens[k])
    && (key in t.flows && t.flows[key].session == Some(s) ==> key in t'.flows && t'.flows[key] == t.flows[key])
  }

  /** An erasure touches a session, its tokens or its flow only if its request covers it. */
  lemma OutsideIsUntouched(keys: Registry.Keyring, steps: seq<Service.Step>, now: Time, job: Saga.Job, s: Id)
    requires Service.Legal(keys, steps)
    requires Service.Possible(Service.Run(keys, steps), Service.Step(now, Service.Privacy(Saga.OpErase(job))))
    requires var w := Service.Run(keys, steps);
      Saga.Erase(w.saga.t, job).Ok? && s in w.t.sessions && Bond(w.t, s) &&
          !Covered(w.t, w.saga.t.requests[job.request], s)
    ensures var w := Service.Run(keys, steps);
      Untouched(w.t, Service.After(w, Service.Step(now, Service.Privacy(Saga.OpErase(job)))), s)
  {
    RunIsSafe(keys, steps);
    Service.RunIsSound(keys, steps);
    N.RunNames(keys, steps);
    ErasureSpares(Service.Run(keys, steps), job, s);
  }

  lemma ErasureSpares(w: Service.World, job: Saga.Job, s: Id)
    requires Safe(w) && Saga.Sound(w.saga) && N.Named(w.t) && job in w.saga.issued && Saga.Erase(w.saga.t, job).Ok?
    requires s in w.t.sessions && Bond(w.t, s) && !Covered(w.t, w.saga.t.requests[job.request], s)
    ensures var e := Saga.TargetOf(job.subject, job.all, job.product);
      Untouched(w.t, if e.Some? then A.Erase(w.t, e.value) else w.t, s)
  {
    assert Saga.JobRow(w.saga, job) && Saga.StepRow(w.saga, job.step) && RequestRow(w, job.request);
    var r, e := w.saga.t.requests[job.request], Saga.TargetOf(job.subject, job.all, job.product);
    if e.Some? {
      ErasesCovered(w.t, r, e.value, s);
      var key := A.FlowKey(w.t.sessions[s].product, w.t.sessions[s].installation);
      if key in w.t.flows && w.t.flows[key].session == Some(s) {
        assert !A.ErasesFlow(w.t, e.value, key, w.t.flows[key]);
      }
    }
  }

  /** A flow deleted together with its session never leaves its challenge behind: a
      challenge that survives an erasure keeps the very flow that leads to it. */
  lemma SurvivorsKeepTheirFlow(keys: Registry.Keyring, steps: seq<Service.Step>, e: Registry.Target, id: Id)
    requires Service.Legal(keys, steps)
    requires var t := Service.Run(keys, steps).t;
      id in A.Erase(t, e).challenges && A.Key(t.challenges[id]) in t.flows &&
          t.flows[A.Key(t.challenges[id])].challenge == id
    ensures var t := Service.Run(keys, steps).t;
      var key := A.Key(t.challenges[id]);
      key in A.Erase(t, e).flows && A.Erase(t, e).flows[key] == t.flows[key]
  {
    RunIsSafe(keys, steps);
    FlowSurvives(Service.Run(keys, steps).t, e, id);
  }

  lemma FlowSurvives(t: A.Tables, e: Registry.Target, id: Id)
    requires Bonds(t) && id in A.Erase(t, e).challenges
    requires A.Key(t.challenges[id]) in t.flows && t.flows[A.Key(t.challenges[id])].challenge == id
    ensures var key := A.Key(t.challenges[id]);
      key in A.Erase(t, e).flows && A.Erase(t, e).flows[key] == t.flows[key]
  {
    var key := A.Key(t.challenges[id]);
    var f := t.flows[key];
    if f.session.Some? && f.session.value in t.sessions {
      assert Bond(t, f.session.value);
    }
    assert !A.ErasesFlow(t, e, key, f);
  }

  // ------------------------------------------------------ downstream systems are told

  lemma {:induction false} SagaFollows(keys: Registry.Keyring, steps: seq<Service.Step>, i: nat)
    requires Service.Legal(keys, steps) && i <= |steps| && Service.Legal(keys, steps[..i])
    ensures Saga.Follows(Service.Run(keys, steps[..i]).saga, Service.Run(keys, steps).saga)
    decreases |steps|
  {
    if i == |steps| {
      assert steps[..i] == steps;
    } else {
      var before, last := steps[..|steps| - 1], steps[|steps| - 1];
      assert before[..i] == steps[..i];
      SagaFollows(keys, before, i);
      Service.RunIsSound(keys, before);
      SagaMoves(Service.Run(keys, before), last);
      Saga.FollowsChain(Service.Run(keys, steps[..i]).saga, Service.Run(keys, before).saga,
          Service.Run(keys, steps).saga);
    }
  }

  lemma SagaMoves(w: Service.World, s: Service.Step)
    requires Service.Sound(w) && Service.Possible(w, s)
    ensures Saga.Follows(w.saga, Service.Next(w, s).saga)
  {
    if s.op.Privacy? {
      Saga.NextFollows(w.saga, s.op.saga);
    }
  }

  /** A person's deletion that is completed has told every alias that the person, their
      accounts and their installations had, in every product known by the alias' audience. */
  lemma CompletedDeletionToldEveryAlias(keys: Registry.Keyring, steps: seq<Service.Step>, i: nat, person: Id, k: Id)
    requires Service.Legal(keys, steps) && i < |steps| && Service.Legal(keys, steps[..i])
    requires steps[i].op.Privacy? && steps[i].op.saga.OpCreate?
    requires Service.Possible(Service.Run(keys, steps[..i]), steps[i])
    requires var op, w := steps[i].op.saga, Service.Run(keys, steps[..i]);
      && op.ask.deletion && op.ask.subject == Saga.Person(person) && op.key !in w.saga.t.recorded
      && Saga.Create(w.saga.t, op.key, op.ask, op.found, op.products, op.made, op.now).Ok?
      && k in w.t.registry.aliases && Registry.BelongsTo(w.t.registry, w.t.registry.aliases[k].key, person)
      && (var key := w.t.registry.aliases[k].key;
          Registry.InProduct(key.product, op.ask.product) && key.product in op.products &&
              op.products[key.product] == key.audience)
    requires var id := steps[i].op.saga.made.request;
      id in Service.Run(keys, steps).saga.t.requests &&
          Service.Run(keys, steps).saga.t.requests[id].status == Saga.Completed
    ensures var key := Service.Run(keys, steps[..i]).t.registry.aliases[k].key;
      Saga.Acknowledged(Service.Run(keys, steps).saga.t, steps[i].op.saga.made.request,
          Saga.Announcement(key.product, key.audience, k))
  {
    var w, op := Service.Run(keys, steps[..i]), steps[i].op.saga;
    var key := w.t.registry.aliases[k].key;
    Service.RunIsSound(keys, steps[..i]);
    PromiseIsMade(w, op, person, k);
    Service.RunUnfolds(keys, steps, i);
    SagaFollows(keys, steps, i + 1);
    Service.RunIsSound(keys, steps);
    Saga.KeptIsAcknowledged(Service.Run(keys, steps).saga, op.made.request,
        Saga.Announcement(key.product, key.audience, k));
  }

  lemma PromiseIsMade(w: Service.World, op: Saga.Op, person: Id, k: Id)
    requires Registry.Aliased(w.t.registry) && op.OpCreate? && Saga.Possible(w.saga, op)
    requires op.ask.deletion && op.ask.subject == Saga.Person(person) && op.key !in w.saga.t.recorded
    requires Saga.Create(w.saga.t, op.key, op.ask, op.found, op.products, op.made, op.now).Ok?
    requires Service.Finds(w.t.registry, op.ask, op.products, op.found)
    requires k in w.t.registry.aliases && Registry.BelongsTo(w.t.registry, w.t.registry.aliases[k].key, person)
    requires var key := w.t.registry.aliases[k].key;
      Registry.InProduct(key.product, op.ask.product) && key.product in op.products &&
          op.products[key.product] == key.audience
    ensures var key := w.t.registry.aliases[k].key;
      (op.made.request, Saga.Announcement(key.product, key.audience, k)) in Saga.Next(w.saga, op).promised
  {
    var key := w.t.registry.aliases[k].key;
    var a := Saga.Announcement(key.product, key.audience, k);
    Registry.FanoutReaches(w.t.registry, person, op.ask.product, k);
    assert Service.IsAlias(w.t.registry, person, op.ask.product, a);
    Saga.AnnouncedIff(op.found.value, op.products, a);
  }
}
