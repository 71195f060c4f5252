/** The service as one state machine: the account tables, the deletion saga and the key ring,
    moved by committed transactions in any order under a clock that never runs backwards. */
module Service {
  import opened Common
  import A = Accounts
  import Registry
  import Saga

  datatype World = World(t: A.Tables, saga: Saga.Trace, keys: Registry.Keyring, clock: Time)

  datatype Op =
    | Create(id: Id, c: A.Challenge, v: A.Verification, contact: Id, limit: nat)
    | Claim(owner: Id, products: set<Id>, limit: nat, pick: set<Id>)
    | Defer(id: Id, owner: Id, retryAt: Time)
    | Finish(id: Id, owner: Id, outcome: A.State)
    | Complete(proof: A.Proof)
    | Rotate(used: Id, next: Id)
    | Revoke(session: Id, product: Id)
    | Cleanup(limit: nat, sweep: A.Sweep)
    | Verify(id: Id, row: Option<A.Verification>)
    | Enroll(registry: Registry.Op)
    | Privacy(saga: Saga.Op)

  datatype Step = Step(now: Time, op: Op)

  /** What the other writers of a verification row may do: mark it or delete it, or insert
      one under an identifier that no challenge uses. */
  predicate OtherWriter(t: A.Tables, id: Id, row: Option<A.Verification>) {
    match row
    case None => true
    case Some(v) =>
      if id in t.verifications then
        var known := t.verifications[id];
        v == known.(verified := v.verified, busy := v.busy)
      else id !in t.challenges
  }

  /** What CreatePrivacyRequest finds when it checks the subject and reads its aliases. A
      person without any alias in scope cannot ask for a deletion. */
  ghost predicate Finds(
      r: Registry.Tables, ask: Saga.Ask, products: map<Id, Id>, found: Result<seq<Saga.Announcement>>)
  {
    match ask.subject
    case Person(p) =>
      if p !in r.persons || r.persons[p].deleted then found == Err(NotFound)
      else if !ask.deletion then found == Ok([])
      else if Registry.FanoutAliases(r, p, ask.product) == {} then found == Err(Invalid)
      else found.Ok? && forall a :: a in found.value <==> IsAlias(r, p, ask.product, a)
    case Installation(i) =>
      if !InstallationFits(r, i, ask.product) then found == Err(NotFound)
      else if !ask.deletion then found == Ok([])
      else if ask.product.None? || ask.product.value !in products then found == Err(Invalid)
      else
        && found.Ok? && |found.value| == 1
        && found.value[0].product == ask.product.value && found.value[0].audience == products[ask.product.value]
  }

  predicate InstallationFits(r: Registry.Tables, i: Id, product: Option<Id>) {
    && i in r.installations && !r.installations[i].disabled
    && (product.Some? ==> r.installations[i].product == product.value)
  }

  /** The reads behind a creation; `handle` is the key an installation is known by. */
  method FindSubject(r: Registry.Tables, ask: Saga.Ask, products: map<Id, Id>, handle: Id)
      returns (found: Result<seq<Saga.Announcement>>)
    ensures Finds(r, ask, products, found)
  {
    match ask.subject
    case Person(p) =>
      if p !in r.persons || r.persons[p].deleted {
        return Err(NotFound);
      }
      if !ask.deletion {
        return Ok([]);
      }
      var aliases, rest := [], Registry.FanoutAliases(r, p, ask.product);
      if rest == {} {
        return Err(Invalid);
      }
      while rest != {}
        invariant rest <= Registry.FanoutAliases(r, p, ask.product)
        invariant forall a :: a in aliases <==> IsAlias(r, p, ask.product, a) && a.handle !in rest
        decreases rest
      {
        var k :| k in rest;
        aliases := aliases + [Saga.Announcement(r.aliases[k].key.product, r.aliases[k].key.audience, k)];
        rest := rest - {k};
      }
      return Ok(aliases);
    case Installation(i) =>
      if !InstallationFits(r, i, ask.product) {
        return Err(NotFound);
      }
      if !ask.deletion {
        return Ok([]);
      }
      if ask.product.None? || ask.product.value !in products {
        return Err(Invalid);
      }
      return Ok([Saga.Announcement(ask.product.value, products[ask.product.value], handle)]);
  }

  ghost predicate IsAlias(r: Registry.Tables, person: Id, product: Option<Id>, a: Saga.Announcement) {
    && a.handle in Registry.FanoutAliases(r, person, product)
    && a.product == r.aliases[a.handle].key.product && a.audience == r.aliases[a.handle].key.audience
  }

  ghost predicate Possible(w: World, s: Step) {
    && w.clock <= s.now
    && match s.op
       case Claim(_, products, _, pick) => A.Picks(w.t, products, s.now, pick)
       case Cleanup(limit, sweep) => A.Sweeps(w.t, s.now, limit, sweep)
       case Verify(id, row) => OtherWriter(w.t, id, row)
       case Enroll(op) => !op.OpErase? && Registry.Possible(Registry.World(w.t.registry, w.keys), op)
       case Privacy(op) =>
         && Saga.Possible(w.saga, op)
         && (op.OpCreate? ==> Finds(w.t.registry, op.ask, op.products, op.found))
       case _ => true
  }

  /** A committed erasure job removes what its request is about in the same transaction. */
  ghost function ErasedBy(w: World, op: Saga.Op): Option<Registry.Target> {
    if op.OpErase? && Saga.Erase(w.saga.t, op.job).Ok?
        then Saga.TargetOf(op.job.subject, op.job.all, op.job.product) else None
  }

  ghost function After(w: World, s: Step): A.Tables
    requires Possible(w, s)
  {
    var t, requests := w.t, w.saga.t.requests;
    match s.op
    case Create(id, c, v, contact, limit) =>
      var r := A.Create(t, id, c, v, contact, limit, s.now); if r.Ok? then r.value.0 else t
    case Claim(owner, products, limit, pick) =>
      var r := A.Claim(t, owner, products, limit, s.now, pick); if r.Ok? then r.value.0 else t
    case Defer(id, owner, retryAt) =>
      var r := A.Defer(t, id, owner, retryAt, s.now); if r.Ok? then r.value else t
    case Finish(id, owner, outcome) =>
      var r := A.Finish(t, id, owner, outcome); if r.Ok? then r.value else t
    case Complete(proof) =>
      var r := A.Complete(t, requests, w.keys, proof, s.now); if r.Ok? then r.value.0 else t
    case Rotate(used, next) =>
      var r := A.Rotate(t, requests, used, next, s.now); if r.Ok? then r.value.0 else t
    case Revoke(session, product) =>
      var r := A.Revoke(t, session, product); if r.Ok? then r.value else t
    case Cleanup(_, sweep) => A.Cleanup(t, sweep)
    case Verify(id, row) =>
      t.(verifications := if row.Some? then t.verifications[id := row.value] else t.verifications - {id})
    case Enroll(op) => t.(registry := Registry.Next(Registry.World(t.registry, w.keys), op).t)
    case Privacy(op) => if ErasedBy(w, op).Some? then A.Erase(t, ErasedBy(w, op).value) else t
  }

  ghost function Next(w: World, s: Step): World
    requires Possible(w, s)
  {
    World(
      After(w, s),
      if s.op.Privacy? then Saga.Next(w.saga, s.op.saga) else w.saga,
      if s.op.Enroll? then Registry.Next(Registry.World(w.t.registry, w.keys), s.op.registry).keys else w.keys,
      s.now)
  }

  ghost function Start(keys: Registry.Keyring): World {
    World(A.EMPTY, Saga.START, keys, 0)
  }

  ghost predicate Legal(keys: Registry.Keyring, steps: seq<Step>)
    decreases |steps|, 0
  {
    if steps == [] then keys.Valid()
    else Legal(keys, steps[..|steps| - 1]) && Possible(Run(keys, steps[..|steps| - 1]), steps[|steps| - 1])
  }

  ghost function Run(keys: Registry.Keyring, steps: seq<Step>): World
    requires Legal(keys, steps)
    decreases |steps|, 1
  {
    if steps == [] then Start(keys) else Next(Run(keys, steps[..|steps| - 1]), steps[|steps| - 1])
  }

  lemma {:induction false} PrefixIsLegal(keys: Registry.Keyring, steps: seq<Step>, i: nat)
    requires Legal(keys, steps) && i <= |steps|
    ensures Legal(keys, steps[..i])
    decreases |steps|
  {
    if i == |steps| {
      assert steps[..i] == steps;
    } else {
      PrefixIsLegal(keys, steps[..|steps| - 1], i);
      assert steps[..|steps| - 1][..i] == steps[..i];
    }
  }

  lemma RunAppends(keys: Registry.Keyring, steps: seq<Step>, s: Step)
    requires Legal(keys, steps) && Possible(Run(keys, steps), s)
    ensures Legal(keys, steps + [s]) && Run(keys, steps + [s]) == Next(Run(keys, steps), s)
  {
    assert (steps + [s])[..|steps + [s]| - 1] == steps;
  }

  /** Some run ends in this state. */
  ghost predicate Reached(keys: Registry.Keyring, w: World) {
    exists steps :: Legal(keys, steps) && Run(keys, steps) == w
  }

  lemma StartIsReached(keys: Registry.Keyring)
    requires keys.Valid()
    ensures Reached(keys, Start(keys))
  {
    assert Legal(keys, []) && Run(keys, []) == Start(keys);
  }

  lemma StepReaches(keys: Registry.Keyring, w: World, s: Step)
    requires Reached(keys, w) && Possible(w, s)
    ensures Reached(keys, Next(w, s))
  {
    var steps :| Legal(keys, steps) && Run(keys, steps) == w;
    RunAppends(keys, steps, s);
  }

  /** The states before and after step i. */
  lemma RunUnfolds(keys: Registry.Keyring, steps: seq<Step>, i: nat)
    requires Legal(keys, steps) && i < |steps|
    ensures Legal(keys, steps[..i]) && Legal(keys, steps[..i + 1]) && Possible(Run(keys, steps[..i]), steps[i])
    ensures Run(keys, steps[..i + 1]) == Next(Run(keys, steps[..i]), steps[i])
  {
    PrefixIsLegal(keys, steps, i);
    PrefixIsLegal(keys, steps, i + 1);
    assert steps[..i + 1][..i] == steps[..i];
  }

  // ----------------------------------------------------- the parts keep their invariants

  ghost predicate Sound(w: World) {
    Registry.Good(Registry.World(w.t.registry, w.keys)) && Saga.Sound(w.saga)
  }

  /** Each step moves the registry by at most one of its own steps. */
  ghost function RegistryStep(w: World, s: Step): Option<Registry.Op>
    requires Possible(w, s)
  {
    match s.op
    case Complete(p) =>
      var r := A.Complete(w.t, w.saga.t.requests, w.keys, p, s.now);
      if r.Ok? && r.value.1.Issued? then Some(Registry.OpRegister(p.email, p.identity)) else None
    case Enroll(op) => Some(op)
    case Privacy(op) => if ErasedBy(w, op).Some? then Some(Registry.OpErase(ErasedBy(w, op).value)) else None
    case _ => None
  }

  lemma RegistryMoves(w: World, s: Step)
    requires Possible(w, s)
    ensures var before, after := Registry.World(w.t.registry, w.keys), Next(w, s);
      && Registry.World(after.t.registry, after.keys)
         == (match RegistryStep(w, s) case None => before case Some(op) => Registry.Next(before, op))
      && (RegistryStep(w, s).Some? ==> Registry.Possible(before, RegistryStep(w, s).value))
  {
    if s.op.Create? {
      CreateKeepsSessions(w, s);
    } else if s.op.Complete? {
      CompleteRegisters(w, s);
    } else if s.op.Claim? || s.op.Rotate? {
      QueueKeepsRegistry(w, s);
    }
  }

  lemma QueueKeepsRegistry(w: World, s: Step)
    requires Possible(w, s) && (s.op.Claim? || s.op.Rotate?)
    ensures After(w, s).registry == w.t.registry && After(w, s).flows == w.t.flows
    ensures After(w, s).profiles == w.t.profiles
    ensures s.op.Claim? ==> After(w, s).sessions == w.t.sessions && After(w, s).tokens == w.t.tokens
  {
    if s.op.Claim? {
      var r := A.Claim(w.t, s.op.owner, s.op.products, s.op.limit, s.now, s.op.pick);
      if r.Ok? {
        A.ClaimHasEffect(w.t, s.op.owner, s.op.products, s.op.limit, s.now, s.op.pick, r.value.0, r.value.1);
      }
    } else if A.Rotate(w.t, w.saga.t.requests, s.op.used, s.op.next, s.now).Ok? {
      A.RotateHasEffect(w.t, w.saga.t.requests, s.op.used, s.op.next, s.now);
    }
  }

  lemma CompleteRegisters(w: World, s: Step)
    requires Possible(w, s) && s.op.Complete?
    ensures After(w, s).registry ==
      match RegistryStep(w, s) case None => w.t.registry case Some(op) =>
          Registry.Next(Registry.World(w.t.registry, w.keys), op).t
  {
    var r := A.Complete(w.t, w.saga.t.requests, w.keys, s.op.proof, s.now);
    if r.Ok? {
      A.CompleteHasEffect(w.t, w.saga.t.requests, w.keys, s.op.proof, s.now, r.value.0, r.value.1);
    }
  }

  lemma StepIsSound(w: World, s: Step)
    requires Sound(w) && Possible(w, s)
    ensures Sound(Next(w, s))
  {
    RegistryMoves(w, s);
    if RegistryStep(w, s).Some? {
      Registry.StepIsGood(Registry.World(w.t.registry, w.keys), RegistryStep(w, s).value);
    }
    if s.op.Privacy? {
      Saga.StepIsSound(w.saga, s.op.saga);
    }
  }

  lemma {:induction false} RunIsSound(keys: Registry.Keyring, steps: seq<Step>)
    requires Legal(keys, steps)
    ensures Sound(Run(keys, steps))
    decreases |steps|
  {
    if steps != [] {
      RunIsSound(keys, steps[..|steps| - 1]);
      StepIsSound(Run(keys, steps[..|steps| - 1]), steps[|steps| - 1]);
    }
  }

  /** The steps that have nothing to do with sessions. */
  ghost predicate Elsewhere(op: Op) {
    op.Claim? || op.Defer? || op.Finish? || op.Verify? || op.Enroll?
  }

  lemma ElsewhereKeepsSessions(w: World, s: Step)
    requires Possible(w, s) && Elsewhere(s.op)
    ensures var t' := After(w, s);
      t'.sessions == w.t.sessions && t'.flows == w.t.flows && t'.tokens == w.t.tokens && t'.profiles == w.t.profiles
  {
    if s.op.Claim? {
      QueueKeepsRegistry(w, s);
    } else if s.op.Defer? {
      var r := A.Defer(w.t, s.op.id, s.op.owner, s.op.retryAt, s.now);
      assert r.Ok? ==> r.value == w.t.(challenges := r.value.challenges, verifications := r.value.verifications);
    }
  }

  lemma CreateKeepsSessions(w: World, s: Step)
    requires Possible(w, s) && s.op.Create?
    ensures var t', key := After(w, s), A.Key(s.op.c);
      && t'.sessions == w.t.sessions && t'.tokens == w.t.tokens && t'.profiles == w.t.profiles
      && t'.registry == w.t.registry
      && (t'.flows == w.t.flows || t'.flows == w.t.flows[key := A.Flow(s.op.id, A.SessionOf(w.t, key))])
  {
    var r := A.Create(w.t, s.op.id, s.op.c, s.op.v, s.op.contact, s.op.limit, s.now);
    if r.Ok? {
      A.CreateHasEffect(w.t, s.op.id, s.op.c, s.op.v, s.op.contact, s.op.limit, s.now, r.value.0, r.value.1);
    }
  }
}
