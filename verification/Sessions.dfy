/** Device sessions and refresh families in every run: one active session per installation
    and product, one session per challenge, and one linear chain of refresh tokens per
    session that a single replay ends for good. */
module Sessions {
  import opened Common
  import A = Accounts
  import C = Challenges
  import Registry
  import Saga
  import Service

  // ------------------------------------------------------------- sessions and flows

  /** An active session is the one its installation's flow names. */
  ghost predicate SessionRow(t: A.Tables, s: Id)
    requires s in t.sessions
  {
    var key := A.FlowKey(t.sessions[s].product, t.sessions[s].installation);
    t.sessions[s].active ==> key in t.flows && t.flows[key].session == Some(s)
  }

  /** A flow names a session of its own installation and product. */
  ghost predicate FlowRow(t: A.Tables, k: A.FlowKey)
    requires k in t.flows
  {
    match t.flows[k].session
    case None => true
    case Some(s) => s in t.sessions && A.FlowKey(t.sessions[s].product, t.sessions[s].installation) == k
  }

  ghost predicate Named(t: A.Tables) {
    && (forall s {:trigger SessionRow(t, s)} :: s in t.sessions ==> SessionRow(t, s))
    && (forall k {:trigger FlowRow(t, k)} :: k in t.flows ==> FlowRow(t, k))
  }

  /** Sessions end but do not change hands. */
  ghost predicate Weaker(v: A.Session, v': A.Session) {
    v' == v.(active := v'.active) && (v'.active ==> v.active)
  }

  lemma SessionsWeaken(t: A.Tables, t': A.Tables)
    requires Named(t) && t'.flows == t.flows && t'.sessions.Keys == t.sessions.Keys
    requires forall s :: s in t.sessions ==> Weaker(t.sessions[s], t'.sessions[s])
    ensures Named(t')
  {
    forall s | s in t'.sessions ensures SessionRow(t', s) {
      assert SessionRow(t, s);
    }
    forall k | k in t'.flows ensures FlowRow(t', k) {
      assert FlowRow(t, k);
    }
  }

  lemma CreateNames(t: A.Tables, t': A.Tables, key: A.FlowKey, id: Id)
    requires Named(t) && t'.sessions == t.sessions && t'.flows == t.flows[key := A.Flow(id, A.SessionOf(t, key))]
    ensures Named(t')
  {
    forall x | x in t'.sessions ensures SessionRow(t', x) {
      assert SessionRow(t, x);
    }
    forall k | k in t'.flows ensures FlowRow(t', k) {
      assert k in t.flows ==> FlowRow(t, k);
    }
  }

  lemma IssueNames(t: A.Tables, t': A.Tables, key: A.FlowKey, account: Id, p: A.Proof)
    requires Named(t) && key in t.flows && A.SessionIssued(t, t', key, account, p)
    ensures Named(t')
  {
    assert FlowRow(t, key);
    forall x | x in t'.sessions ensures SessionRow(t', x) {
      if x != p.session {
        assert SessionRow(t, x);
      }
    }
    forall k | k in t'.flows ensures FlowRow(t', k) {
      assert FlowRow(t, k);
    }
  }

  /** Rows are removed so that no remaining one is left naming a removed one. */
  lemma RemovalNames(t: A.Tables, t': A.Tables)
    requires Named(t)
    requires forall s :: s in t'.sessions ==> s in t.sessions && t'.sessions[s] == t.sessions[s]
    requires forall k :: k in t'.flows ==> k in t.flows && FlowKept(t, t', k)
    requires forall s :: s in t'.sessions && t.sessions[s].active ==>
               var key := A.FlowKey(t.sessions[s].product, t.sessions[s].installation);
               key in t.flows && t.flows[key].session == Some(s) ==> key in t'.flows && t'.flows[key].session == Some(s)
    ensures Named(t')
  {
    forall x | x in t'.sessions ensures SessionRow(t', x) {
      assert SessionRow(t, x);
    }
    forall k | k in t'.flows ensures FlowRow(t', k) {
      assert FlowRow(t, k);
    }
  }

  ghost predicate FlowKept(t: A.Tables, t': A.Tables, k: A.FlowKey)
    requires k in t.flows && k in t'.flows
  {
    match t'.flows[k].session
    case None => true
    case Some(s) => t.flows[k].session == Some(s) && s in t'.sessions
  }

  lemma CleanupNames(t: A.Tables, now: Time, limit: nat, w: A.Sweep)
    requires Named(t) && A.Sweeps(t, now, limit, w)
    ensures Named(A.Cleanup(t, w))
  {
    var t' := A.Cleanup(t, w);
    forall k | k in t'.flows ensures k in t.flows && FlowKept(t, t', k) {
      assert FlowRow(t, k);
    }
    forall s | s in t'.sessions && t.sessions[s].active
      ensures var key := A.FlowKey(t.sessions[s].product, t.sessions[s].installation);
        key in t.flows && t.flows[key].session == Some(s) ==> key in t'.flows && t'.flows[key].session == Some(s)
    {
      var key := A.FlowKey(t.sessions[s].product, t.sessions[s].installation);
      if key in t.flows && t.flows[key].session == Some(s) {
        assert key in A.Swept2(t, w).flows;
        assert A.Swept3(t, w).flows[key].session == Some(s);
        assert key !in A.OrphanFlows(A.Swept3(t, w));
      }
    }
    RemovalNames(t, t');
  }

  lemma EraseNames(t: A.Tables, e: Registry.Target)
    requires Named(t)
    ensures Named(A.Erase(t, e))
  {
    var t' := A.Erase(t, e);
    forall k | k in t'.flows ensures k in t.flows && FlowKept(t, t', k) {
      assert FlowRow(t, k);
    }
    RemovalNames(t, t');
  }

  /** Steps that leave sessions and flows alone. */
  lemma SameNames(t: A.Tables, t': A.Tables)
    requires Named(t) && t'.sessions == t.sessions && t'.flows == t.flows
    ensures Named(t')
  {
    SessionsWeaken(t, t');
  }

  lemma StepNames(w: Service.World, s: Service.Step)
    requires Named(w.t) && Service.Possible(w, s)
    ensures Named(Service.After(w, s))
  {
    var t, t' := w.t, Service.After(w, s);
    match s.op
    case Create(id, c, _, _, _) =>
      Service.CreateKeepsSessions(w, s);
      if t'.flows == t.flows {
        SameNames(t, t');
      } else {
        CreateNames(t, t', A.Key(c), id);
      }
    case Complete(_) => CompleteNames(w, s);
    case Rotate(_, _) => RotateNames(w, s);
    case Revoke(_, _) => SessionsWeaken(t, t');
    case Cleanup(limit, sweep) => CleanupNames(t, s.now, limit, sweep);
    case Privacy(op) =>
      if Service.ErasedBy(w, op).Some? {
        EraseNames(t, Service.ErasedBy(w, op).value);
      }
    case _ =>
      Service.ElsewhereKeepsSessions(w, s);
      SameNames(t, t');
  }

  lemma CompleteNames(w: Service.World, s: Service.Step)
    requires Named(w.t) && Service.Possible(w, s) && s.op.Complete?
    ensures Named(Service.After(w, s))
  {
    var t, t', requests, p := w.t, Service.After(w, s), w.saga.t.requests, s.op.proof;
    var r := A.Complete(t, requests, w.keys, p, s.now);
    if r.Ok? {
      A.CompleteHasEffect(t, requests, w.keys, p, s.now, t', r.value.1);
      if r.value.1.Issued? {
        IssueNames(t, t', A.Key(t.challenges[p.challenge]), r.value.1.registered.account.value, p);
      } else {
        SameNames(t, t');
      }
    }
  }

  lemma RotateNames(w: Service.World, s: Service.Step)
    requires Named(w.t) && Service.Possible(w, s) && s.op.Rotate?
    ensures Named(Service.After(w, s))
  {
    var requests := w.saga.t.requests;
    if A.Rotate(w.t, requests, s.op.used, s.op.next, s.now).Ok? {
      A.RotateHasEffect(w.t, requests, s.op.used, s.op.next, s.now);
      SessionsWeaken(w.t, Service.After(w, s));
    }
  }

  lemma {:induction false} RunNames(keys: Registry.Keyring, steps: seq<Service.Step>)
    requires Service.Legal(keys, steps)
    ensures Named(Service.Run(keys, steps).t)
    decreases |steps|
  {
    if steps != [] {
      RunNames(keys, steps[..|steps| - 1]);
      StepNames(Service.Run(keys, steps[..|steps| - 1]), steps[|steps| - 1]);
    }
  }

  /** Each installation has at most one active session in each product, and its flow row
      names that session. */
  lemma OneActiveSession(keys: Registry.Keyring, steps: seq<Service.Step>, a: Id, b: Id)
    requires Service.Legal(keys, steps)
    requires a in Service.Run(keys, steps).t.sessions && b in Service.Run(keys, steps).t.sessions
    requires var sessions := Service.Run(keys, steps).t.sessions;
      sessions[a].active && sessions[b].active
      && A.FlowKey(sessions[a].product, sessions[a].installation) ==
          A.FlowKey(sessions[b].product, sessions[b].installation)
    ensures a == b
    ensures var t := Service.Run(keys, steps).t;
      var key := A.FlowKey(t.sessions[a].product, t.sessions[a].installation);
      key in t.flows && t.flows[key].session == Some(a)
  {
    RunNames(keys, steps);
    assert SessionRow(Service.Run(keys, steps).t, a) && SessionRow(Service.Run(keys, steps).t, b);
  }

  // --------------------------------------------------------------- refresh families

  /** The refresh tokens issued to each session so far, in order. */
  ghost function Extend(chains: map<Id, seq<Id>>, w: Service.World, s: Service.Step): map<Id, seq<Id>> {
    match s.op
    case Complete(p) =>
      var r := A.Complete(w.t, w.saga.t.requests, w.keys, p, s.now);
      if r.Ok? && r.value.1.Issued? then chains[p.session := [p.refresh]] else chains
    case Rotate(used, next) =>
      var r := A.Rotate(w.t, w.saga.t.requests, used, next, s.now);
      if r.Ok? && r.value.1.Refreshed? && r.value.1.session in chains
      then chains[r.value.1.session := chains[r.value.1.session] + [next]] else chains
    case _ => chains
  }

  ghost function Chains(keys: Registry.Keyring, steps: seq<Service.Step>): map<Id, seq<Id>>
    requires Service.Legal(keys, steps)
    decreases |steps|
  {
    if steps == [] then map[] else
      var before := steps[..|steps| - 1];
      Extend(Chains(keys, before), Service.Run(keys, before), steps[|steps| - 1])
  }

  /** Session identifiers are generated by the server and never come up twice. */
  ghost predicate FreshSessions(keys: Registry.Keyring, steps: seq<Service.Step>)
    requires Service.Legal(keys, steps)
    decreases |steps|
  {
    steps == [] ||
    (var before, last := steps[..|steps| - 1], steps[|steps| - 1];
     FreshSessions(keys, before) && (last.op.Complete? ==> last.op.proof.session !in Chains(keys, before)))
  }

  ghost predicate Distinct(chain: seq<Id>) {
    forall i, j :: 0 <= i < j < |chain| ==> chain[i] != chain[j]
  }

  ghost predicate ChainRow(chains: map<Id, seq<Id>>, s: Id)
    requires s in chains
  {
    |chains[s]| > 0 && Distinct(chains[s])
  }

  /** A stored token belongs to a chain and is consumed unless it is the chain's last; it
      expires with its session, or has expired if the session is gone. */
  ghost predicate TokenRow(t: A.Tables, chains: map<Id, seq<Id>>, clock: Time, k: Id)
    requires k in t.tokens
  {
    var s := t.tokens[k].session;
    && s in chains && k in chains[s] && (t.tokens[k].consumed <==> k != chains[s][|chains[s]| - 1])
    && (if s in t.sessions then t.tokens[k].expiresAt == t.sessions[s].expiresAt else t.tokens[k].expiresAt <= clock)
  }

  /** All tokens of an unexpired session are still stored. */
  ghost predicate MemberRow(t: A.Tables, chains: map<Id, seq<Id>>, clock: Time, s: Id)
    requires s in t.sessions
  {
    && s in chains
    && (clock < t.sessions[s].expiresAt ==>
          forall k :: k in chains[s] ==> k in t.tokens && t.tokens[k].session == s)
  }

  ghost predicate Families(t: A.Tables, chains: map<Id, seq<Id>>, clock: Time) {
    && (forall s {:trigger ChainRow(chains, s)} :: s in chains ==> ChainRow(chains, s))
    && (forall k {:trigger TokenRow(t, chains, clock, k)} :: k in t.tokens ==> TokenRow(t, chains, clock, k))
    && (forall s {:trigger MemberRow(t, chains, clock, s)} :: s in t.sessions ==> MemberRow(t, chains, clock, s))
  }

  /** Tokens untouched, sessions at most revoked. */
  lemma FamiliesStay(t: A.Tables, t': A.Tables, chains: map<Id, seq<Id>>, clock: Time, now: Time)
    requires Families(t, chains, clock) && clock <= now && t'.tokens == t.tokens && t'.sessions.Keys == t.sessions.Keys
    requires forall s :: s in t.sessions ==> t'.sessions[s].expiresAt == t.sessions[s].expiresAt
    ensures Families(t', chains, now)
  {
    forall k | k in t'.tokens ensures TokenRow(t', chains, now, k) {
      assert TokenRow(t, chains, clock, k);
    }
    forall s | s in t'.sessions ensures MemberRow(t', chains, now, s) {
      assert MemberRow(t, chains, clock, s);
    }
  }

  lemma IssueStartsFamily(
      t: A.Tables, t': A.Tables, chains: map<Id, seq<Id>>, clock: Time, now: Time, key: A.FlowKey, account: Id,
      p: A.Proof)
    requires Families(t, chains, clock) && clock <= now && key in t.flows && A.SessionIssued(t, t', key, account, p)
    requires p.session !in chains
    ensures Families(t', chains[p.session := [p.refresh]], now)
  {
    var chains' := chains[p.session := [p.refresh]];
    forall s | s in chains' ensures ChainRow(chains', s) {
      assert s != p.session ==> ChainRow(chains, s);
    }
    forall k | k in t'.tokens ensures TokenRow(t', chains', now, k) {
      assert k != p.refresh ==> TokenRow(t, chains, clock, k);
    }
    forall s | s in t'.sessions ensures MemberRow(t', chains', now, s) {
      assert s != p.session ==> MemberRow(t, chains, clock, s);
    }
  }

  /** The token that can be exchanged is the last one, and its successor is new. */
  lemma RefreshTakesLast(t: A.Tables, chains: map<Id, seq<Id>>, clock: Time, now: Time, used: Id, next: Id)
    requires Families(t, chains, clock) && clock <= now && used in t.tokens && !t.tokens[used].consumed
    requires next !in t.tokens
    requires t.tokens[used].session in t.sessions && now < t.sessions[t.tokens[used].session].expiresAt
    ensures t.tokens[used].session in chains
    ensures var chain := chains[t.tokens[used].session];
      |chain| > 0 && used == chain[|chain| - 1] && next !in chain && Distinct(chain)
  {
    var id := t.tokens[used].session;
    assert TokenRow(t, chains, clock, used) && MemberRow(t, chains, clock, id) && ChainRow(chains, id);
  }

  lemma RefreshExtendsFamily(
      t: A.Tables, t': A.Tables, chains: map<Id, seq<Id>>, clock: Time, now: Time, used: Id, next: Id)
    requires Families(t, chains, clock) && clock <= now && used in t.tokens && !t.tokens[used].consumed
    requires next !in t.tokens
    requires t.tokens[used].session in t.sessions && now < t.sessions[t.tokens[used].session].expiresAt
    requires t.tokens[used].session in chains && t'.sessions == t.sessions
    requires var id := t.tokens[used].session;
      t'.tokens == t.tokens[used := t.tokens[used].(consumed := true)][next := A.Token(id, t.sessions[id].expiresAt,
          false)]
    ensures Families(t', chains[t.tokens[used].session := chains[t.tokens[used].session] + [next]], now)
  {
    RefreshTakesLast(t, chains, clock, now, used, next);
    var id := t.tokens[used].session;
    var chain, chain' := chains[id], chains[id] + [next];
    var chains' := chains[id := chain'];
    forall s | s in chains' ensures ChainRow(chains', s) {
      assert ChainRow(chains, s);
    }
    assert forall k :: k in chain' <==> k in chain || k == next;
    forall k | k in t'.tokens ensures TokenRow(t', chains', now, k) {
      if k != next {
        assert TokenRow(t, chains, clock, k);
      }
    }
    forall s | s in t'.sessions ensures MemberRow(t', chains', now, s) {
      assert MemberRow(t, chains, clock, s);
    }
  }

  /** Rows are only removed: sessions with their tokens, or sessions and tokens past expiry. */
  lemma RemovalKeepsFamilies(t: A.Tables, t': A.Tables, chains: map<Id, seq<Id>>, clock: Time, now: Time)
    requires Families(t, chains, clock) && clock <= now
    requires forall s :: s in t'.sessions ==> s in t.sessions && t'.sessions[s] == t.sessions[s]
    requires forall k :: k in t'.tokens ==> k in t.tokens && t'.tokens[k] == t.tokens[k]
    requires forall k ::
        k in t.tokens && k !in t'.tokens ==> t.tokens[k].expiresAt <= now || t.tokens[k].session !in t'.sessions
    requires forall k ::
        k in t'.tokens && t'.tokens[k].session in t.sessions && t'.tokens[k].session !in t'.sessions ==>
               t.sessions[t'.tokens[k].session].expiresAt <= now
    ensures Families(t', chains, now)
  {
    forall k | k in t'.tokens ensures TokenRow(t', chains, now, k) {
      assert TokenRow(t, chains, clock, k);
    }
    forall s | s in t'.sessions ensures MemberRow(t', chains, now, s) {
      assert MemberRow(t, chains, clock, s);
      forall k | now < t'.sessions[s].expiresAt && k in chains[s] ensures k in t'.tokens && t'.tokens[k].session == s {
        assert TokenRow(t, chains, clock, k);
      }
    }
  }

  lemma CleanupKeepsFamilies(t: A.Tables, chains: map<Id, seq<Id>>, clock: Time, now: Time, limit: nat, w: A.Sweep)
    requires Families(t, chains, clock) && clock <= now && A.Sweeps(t, now, limit, w)
    ensures Families(A.Cleanup(t, w), chains, now)
  {
    var t' := A.Cleanup(t, w);
    assert t'.sessions == t.sessions - w.sessions && t'.tokens == t.tokens - w.tokens;
    assert forall s :: s in w.sessions ==> s in A.OldSessions(t, now);
    assert forall k :: k in w.tokens ==> k in A.OldTokens(t, now);
    RemovalKeepsFamilies(t, t', chains, clock, now);
  }

  lemma EraseKeepsFamilies(t: A.Tables, chains: map<Id, seq<Id>>, clock: Time, now: Time, e: Registry.Target)
    requires Families(t, chains, clock) && clock <= now
    ensures Families(A.Erase(t, e), chains, now)
  {
    RemovalKeepsFamilies(t, A.Erase(t, e), chains, clock, now);
  }

  lemma CompleteKeepsFamilies(w: Service.World, s: Service.Step, chains: map<Id, seq<Id>>)
    requires Families(w.t, chains, w.clock) && Service.Possible(w, s) && s.op.Complete? && s.op.proof.session !in chains
    ensures Families(Service.After(w, s), Extend(chains, w, s), s.now)
  {
    var t, t', requests, p := w.t, Service.After(w, s), w.saga.t.requests, s.op.proof;
    var r := A.Complete(t, requests, w.keys, p, s.now);
    if r.Ok? {
      A.CompleteHasEffect(t, requests, w.keys, p, s.now, t', r.value.1);
    }
    if r.Ok? && r.value.1.Issued? {
      IssueStartsFamily(t, t', chains, w.clock, s.now, A.Key(t.challenges[p.challenge]),
          r.value.1.registered.account.value, p);
    } else {
      FamiliesStay(t, t', chains, w.clock, s.now);
    }
  }

  lemma RotateKeepsFamilies(w: Service.World, s: Service.Step, chains: map<Id, seq<Id>>)
    requires Families(w.t, chains, w.clock) && Service.Possible(w, s) && s.op.Rotate?
    ensures Families(Service.After(w, s), Extend(chains, w, s), s.now)
  {
    var t, t', requests := w.t, Service.After(w, s), w.saga.t.requests;
    var r := A.Rotate(t, requests, s.op.used, s.op.next, s.now);
    if r.Ok? {
      A.RotateHasEffect(t, requests, s.op.used, s.op.next, s.now);
      assert TokenRow(t, chains, w.clock, s.op.used);
    }
    if r.Ok? && r.value.1.Refreshed? {
      RefreshExtendsFamily(t, t', chains, w.clock, s.now, s.op.used, s.op.next);
    } else {
      FamiliesStay(t, t', chains, w.clock, s.now);
    }
  }

  lemma StepKeepsFamilies(w: Service.World, s: Service.Step, chains: map<Id, seq<Id>>)
    requires Families(w.t, chains, w.clock) && Service.Possible(w, s)
    requires (s.op.Complete? ==> s.op.proof.session !in chains)
    ensures Families(Service.After(w, s), Extend(chains, w, s), s.now)
  {
    var t, t' := w.t, Service.After(w, s);
    match s.op
    case Create(_, _, _, _, _) =>
      Service.CreateKeepsSessions(w, s);
      FamiliesStay(t, t', chains, w.clock, s.now);
    case Complete(_) => CompleteKeepsFamilies(w, s, chains);
    case Rotate(_, _) => RotateKeepsFamilies(w, s, chains);
    case Revoke(_, _) => FamiliesStay(t, t', chains, w.clock, s.now);
    case Cleanup(limit, sweep) => CleanupKeepsFamilies(t, chains, w.clock, s.now, limit, sweep);
    case Privacy(op) =>
      if Service.ErasedBy(w, op).Some? {
        EraseKeepsFamilies(t, chains, w.clock, s.now, Service.ErasedBy(w, op).value);
      } else {
        FamiliesStay(t, t', chains, w.clock, s.now);
      }
    case _ =>
      Service.ElsewhereKeepsSessions(w, s);
      FamiliesStay(t, t', chains, w.clock, s.now);
  }

  lemma {:induction false} RunKeepsFamilies(keys: Registry.Keyring, steps: seq<Service.Step>)
    requires Service.Legal(keys, steps) && FreshSessions(keys, steps)
    ensures Families(Service.Run(keys, steps).t, Chains(keys, steps), Service.Run(keys, steps).clock)
    decreases |steps|
  {
    if steps != [] {
      var before := steps[..|steps| - 1];
      RunKeepsFamilies(keys, before);
      StepKeepsFamilies(Service.Run(keys, before), steps[|steps| - 1], Chains(keys, before));
    }
  }

  // ----------------------------------------------------------------- main results

  /** The stored tokens of the session are exactly the chain: no token twice, only the last
      one unconsumed, all expiring with the session. */
  ghost predicate OneChain(t: A.Tables, chain: seq<Id>, s: Id)
    requires s in t.sessions
  {
    && |chain| > 0 && Distinct(chain)
    && (forall k :: k in t.tokens && t.tokens[k].session == s ==> k in chain)
    && (forall k :: k in chain ==>
          && k in t.tokens && t.tokens[k].session == s && t.tokens[k].expiresAt == t.sessions[s].expiresAt
          && (!t.tokens[k].consumed <==> k == chain[|chain| - 1]))
  }

  lemma FamilyIsOneChain(keys: Registry.Keyring, steps: seq<Service.Step>, s: Id)
    requires Service.Legal(keys, steps) && FreshSessions(keys, steps) && s in Service.Run(keys, steps).t.sessions
    requires Service.Run(keys, steps).clock < Service.Run(keys, steps).t.sessions[s].expiresAt
    ensures s in Chains(keys, steps) && OneChain(Service.Run(keys, steps).t, Chains(keys, steps)[s], s)
  {
    RunKeepsFamilies(keys, steps);
    FamilyOf(Service.Run(keys, steps).t, Chains(keys, steps), Service.Run(keys, steps).clock, s);
  }

  lemma FamilyOf(t: A.Tables, chains: map<Id, seq<Id>>, clock: Time, s: Id)
    requires Families(t, chains, clock) && s in t.sessions && clock < t.sessions[s].expiresAt
    ensures s in chains && OneChain(t, chains[s], s)
  {
    assert MemberRow(t, chains, clock, s) && ChainRow(chains, s);
    forall k | k in t.tokens && t.tokens[k].session == s
      ensures k in chains[s] && t.tokens[k].expiresAt == t.sessions[s].expiresAt
      ensures (!t.tokens[k].consumed <==> k == chains[s][|chains[s]| - 1])
    {
      assert TokenRow(t, chains, clock, k);
    }
  }

  /** Presenting a consumed token before it expires always commits, as a replay that
      revokes the session. */
  lemma ReplayRevokes(keys: Registry.Keyring, steps: seq<Service.Step>, used: Id, next: Id, now: Time)
    requires Service.Legal(keys, steps) && FreshSessions(keys, steps) && Service.Run(keys, steps).clock <= now
    requires used != next
    requires var t := Service.Run(keys, steps).t;
      used in t.tokens && t.tokens[used].consumed && now < t.tokens[used].expiresAt
    ensures var w := Service.Run(keys, steps);
      var r := A.Rotate(w.t, w.saga.t.requests, used, next, now);
      && r.Ok? && r.value.1.Replayed?
      && w.t.tokens[used].session in r.value.0.sessions && !r.value.0.sessions[w.t.tokens[used].session].active
  {
    RunKeepsFamilies(keys, steps);
    var w := Service.Run(keys, steps);
    assert TokenRow(w.t, Chains(keys, steps), w.clock, used);
  }

  /** The session was issued and is revoked or gone. */
  ghost predicate Dead(t: A.Tables, chains: map<Id, seq<Id>>, s: Id) {
    s in chains && (s in t.sessions ==> !t.sessions[s].active)
  }

  lemma DeadStaysDead(w: Service.World, s: Service.Step, chains: map<Id, seq<Id>>, id: Id)
    requires Dead(w.t, chains, id) && Service.Possible(w, s) && (s.op.Complete? ==> s.op.proof.session !in chains)
    ensures Dead(Service.After(w, s), Extend(chains, w, s), id)
  {
    match s.op
    case Create(_, _, _, _, _) => Service.CreateKeepsSessions(w, s);
    case Complete(p) =>
      var r := A.Complete(w.t, w.saga.t.requests, w.keys, p, s.now);
      if r.Ok? {
        A.CompleteHasEffect(w.t, w.saga.t.requests, w.keys, p, s.now, r.value.0, r.value.1);
      }
    case Rotate(used, next) =>
      if A.Rotate(w.t, w.saga.t.requests, used, next, s.now).Ok? {
        A.RotateHasEffect(w.t, w.saga.t.requests, used, next, s.now);
      }
    case Cleanup(_, sweep) => assert A.Cleanup(w.t, sweep).sessions == w.t.sessions - sweep.sessions;
    case Revoke(_, _) =>
    case Privacy(op) =>
    case _ => Service.ElsewhereKeepsSessions(w, s);
  }

  lemma {:induction false} DeadForever(keys: Registry.Keyring, steps: seq<Service.Step>, i: nat, id: Id)
    requires Service.Legal(keys, steps) && FreshSessions(keys, steps) && i <= |steps| && Service.Legal(keys, steps[..i])
    requires Dead(Service.Run(keys, steps[..i]).t, Chains(keys, steps[..i]), id)
    ensures Dead(Service.Run(keys, steps).t, Chains(keys, steps), id)
    decreases |steps|
  {
    if i == |steps| {
      assert steps[..i] == steps;
    } else {
      var before := steps[..|steps| - 1];
      assert before[..i] == steps[..i];
      DeadForever(keys, before, i, id);
      DeadStaysDead(Service.Run(keys, before), steps[|steps| - 1], Chains(keys, before), id);
    }
  }

  /** Once a session is revoked, by a replay or otherwise, no token of its family is ever
      exchanged and the session is never authorized again. */
  lemma DeadFamilyNeverRefreshes(
      keys: Registry.Keyring, steps: seq<Service.Step>, i: nat, id: Id, used: Id, next: Id, product: Id, now: Time)
    requires Service.Legal(keys, steps) && FreshSessions(keys, steps) && i <= |steps| && Service.Legal(keys, steps[..i])
    requires Dead(Service.Run(keys, steps[..i]).t, Chains(keys, steps[..i]), id)
    ensures var w := Service.Run(keys, steps);
      && A.Authorized(w.t, w.saga.t.requests, id, product, now).Err?
      && (used in w.t.tokens && w.t.tokens[used].session == id ==>
            var r := A.Rotate(w.t, w.saga.t.requests, used, next, now); r.Err? || r.value.1.Replayed?)
  {
    DeadForever(keys, steps, i, id);
  }

  /** A revocation commits exactly for a stored session of that product. From then on the
      session is dead, and with it its family, in every continuation of the run; no other
      session, no token and no flow changes. */
  lemma RevocationKills(keys: Registry.Keyring, steps: seq<Service.Step>, id: Id, product: Id, now: Time)
    requires Service.Legal(keys, steps) && FreshSessions(keys, steps)
    requires Service.Possible(Service.Run(keys, steps), Service.Step(now, Service.Revoke(id, product)))
    ensures var w := Service.Run(keys, steps);
      A.Revoke(w.t, id, product).Ok? <==> id in w.t.sessions && w.t.sessions[id].product == product
    ensures A.Revoke(Service.Run(keys, steps).t, id, product).Ok? ==>
      var w := Service.Run(keys, steps);
      var t' := Service.After(w, Service.Step(now, Service.Revoke(id, product)));
      && id in t'.sessions && !t'.sessions[id].active && Dead(t', Chains(keys, steps), id)
      && (forall s :: s in w.t.sessions && s != id ==> s in t'.sessions && t'.sessions[s] == w.t.sessions[s])
      && t' == w.t.(sessions := t'.sessions)
  {
    RunKeepsFamilies(keys, steps);
    var w := Service.Run(keys, steps);
    RevokesOne(w.t, id, product);
    if id in w.t.sessions {
      assert MemberRow(w.t, Chains(keys, steps), w.clock, id);
    }
  }

  lemma RevokesOne(t: A.Tables, id: Id, product: Id)
    ensures A.Revoke(t, id, product).Ok? <==> id in t.sessions && t.sessions[id].product == product
    ensures A.Revoke(t, id, product).Ok? ==>
      A.Revoke(t, id, product).value == t.(sessions := t.sessions[id := t.sessions[id].(active := false)])
  {
  }

  /** After a committed revocation, whatever follows, the session is never authorized and none
      of its tokens is ever exchanged. */
  lemma RevokedForever(
      keys: Registry.Keyring, steps: seq<Service.Step>, i: nat, id: Id, used: Id, next: Id, product: Id, now: Time)
    requires Service.Legal(keys, steps) && FreshSessions(keys, steps) && i < |steps| && Service.Legal(keys, steps[..i])
    requires steps[i].op.Revoke? && steps[i].op.session == id
    requires A.Revoke(Service.Run(keys, steps[..i]).t, id, steps[i].op.product).Ok?
    ensures var w := Service.Run(keys, steps);
      && A.Authorized(w.t, w.saga.t.requests, id, product, now).Err?
      && (used in w.t.tokens && w.t.tokens[used].session == id ==>
            var r := A.Rotate(w.t, w.saga.t.requests, used, next, now); r.Err? || r.value.1.Replayed?)
  {
    Service.RunUnfolds(keys, steps, i);
    FreshPrefix(keys, steps, i + 1);
    FreshPrefix(keys, steps, i);
    assert steps[i] == Service.Step(steps[i].now, Service.Revoke(id, steps[i].op.product));
    RevocationKills(keys, steps[..i], id, steps[i].op.product, steps[i].now);
    assert steps[..i + 1][..i] == steps[..i];
    DeadFamilyNeverRefreshes(keys, steps, i + 1, id, used, next, product, now);
  }

  lemma {:induction false} FreshPrefix(keys: Registry.Keyring, steps: seq<Service.Step>, i: nat)
    requires Service.Legal(keys, steps) && FreshSessions(keys, steps) && i <= |steps|
    ensures Service.Legal(keys, steps[..i]) && FreshSessions(keys, steps[..i])
    decreases |steps|
  {
    Service.PrefixIsLegal(keys, steps, i);
    if i == |steps| {
      assert steps[..i] == steps;
    } else {
      FreshPrefix(keys, steps[..|steps| - 1], i);
      assert steps[..|steps| - 1][..i] == steps[..i];
    }
  }

  // ------------------------------------------------------------ exactly who is authorized

  /** A deletion that is neither called off nor completed, in scope for the product. */
  predicate OpenDeletion(r: Saga.Request, product: Id) {
    r.deletion && r.status in {Saga.Requested, Saga.Underway} && (r.all || r.product == Some(product))
  }

  /** The rows that make a session usable now. */
  predicate Entitled(t: A.Tables, requests: map<Id, Saga.Request>, id: Id, product: Id, now: Time) {
    && id in t.sessions && t.sessions[id].product == product && t.sessions[id].active && now < t.sessions[id].expiresAt
    && t.sessions[id].account in t.registry.accounts && t.registry.accounts[t.sessions[id].account].active
    && (var person, device := t.registry.accounts[t.sessions[id].account].person, t.sessions[id].installation;
        && person in t.registry.persons && !t.registry.persons[person].deleted
        && (forall r :: r in requests && OpenDeletion(requests[r], product) ==>
              requests[r].subject != Saga.Person(person) && requests[r].subject != Saga.Installation(device))
        && device in t.registry.installations
        && t.registry.installations[device] == Registry.Installation(product, Some(person), false)
        && A.FlowKey(product, device) in t.flows && t.flows[A.FlowKey(product, device)].session == Some(id)
        && A.ProfileKey(product, t.sessions[id].account) in t.profiles
        && (var profile := t.profiles[A.ProfileKey(product, t.sessions[id].account)];
            && profile.active && profile.identity in t.registry.identities
            && t.registry.identities[profile.identity]
               == Registry.Identity(person, product, A.ACCOUNT, Registry.WithinProduct(product))))
  }

  /** A session is authorized if and only if it is active and unexpired, its account and person
      are in good standing, no open deletion covers it, and installation, flow, product account
      and identity all lead back to it; a live refresh token is exchanged exactly then. */
  lemma AuthorizedIff(t: A.Tables, requests: map<Id, Saga.Request>, id: Id, product: Id, now: Time)
    ensures A.Authorized(t, requests, id, product, now).Ok? <==> Entitled(t, requests, id, product, now)
    ensures A.Authorized(t, requests, id, product, now).Ok? ==>
              A.Authorized(t, requests, id, product, now).value ==
                  t.profiles[A.ProfileKey(product, t.sessions[id].account)]
  {
    if id in t.sessions && t.sessions[id].account in t.registry.accounts {
      PendingIff(requests, t.registry.accounts[t.sessions[id].account].person, t.sessions[id].installation, product);
    }
  }

  lemma PendingIff(requests: map<Id, Saga.Request>, person: Id, device: Id, product: Id)
    ensures A.DeletionPending(requests, person, device, product) <==>
      exists r :: r in requests && OpenDeletion(requests[r], product)
                  && (requests[r].subject == Saga.Person(person) || requests[r].subject == Saga.Installation(device))
  {
  }

  /** An unknown or expired token, one whose session is gone, or a token offered as its own
      successor is refused, and nothing changes. */
  lemma UselessTokenIsRefused(t: A.Tables, requests: map<Id, Saga.Request>, used: Id, next: Id, now: Time)
    requires used == next || used !in t.tokens || t.tokens[used].expiresAt <= now ||
        t.tokens[used].session !in t.sessions
    ensures A.Rotate(t, requests, used, next, now) == Err(if used == next then Invalid else NotFound)
  {
  }

  lemma RotationDecides(t: A.Tables, requests: map<Id, Saga.Request>, used: Id, next: Id, now: Time)
    requires used != next && used in t.tokens && now < t.tokens[used].expiresAt && t.tokens[used].session in t.sessions
    ensures var s, r := t.tokens[used].session, A.Rotate(t, requests, used, next, now);
      if t.tokens[used].consumed then
        r == Ok((t.(sessions := t.sessions[s := t.sessions[s].(active := false)]), A.Replayed))
      else
        && (r.Ok? <==> Entitled(t, requests, s, t.sessions[s].product, now) && next !in t.tokens)
        && (r.Ok? ==> r.value == (t.(tokens := t.tokens[used := t.tokens[used].(consumed := true)]
                                                       [next := A.Token(s, t.sessions[s].expiresAt, false)]),
                                  A.Refreshed(s)))
  {
    AuthorizedIff(t, requests, t.tokens[used].session, t.sessions[t.tokens[used].session].product, now);
  }

  // -------------------------------------------------------- one session per challenge

  /** The lives of the present challenges, and those that have yielded a session. */
  datatype Harvest = Harvest(lives: map<Id, nat>, born: nat, yielded: set<nat>)

  ghost function Reap(h: Harvest, w: Service.World, s: Service.Step): Harvest
    requires Service.Possible(w, s)
  {
    Harvest(
      C.Lives(h.lives, h.born, w.t, Service.After(w, s)), h.born + 1,
      if Yields(w, s) && s.op.proof.challenge in h.lives
          then h.yielded + {h.lives[s.op.proof.challenge]} else h.yielded)
  }

  ghost predicate Yields(w: Service.World, s: Service.Step) {
    s.op.Complete? && A.Complete(w.t, w.saga.t.requests, w.keys, s.op.proof, s.now).Ok?
    && A.Complete(w.t, w.saga.t.requests, w.keys, s.op.proof, s.now).value.1.Issued?
  }

  ghost function Harvested(keys: Registry.Keyring, steps: seq<Service.Step>): Harvest
    requires Service.Legal(keys, steps)
    decreases |steps|
  {
    if steps == [] then Harvest(map[], 0, {}) else
      var before := steps[..|steps| - 1];
      Reap(Harvested(keys, before), Service.Run(keys, before), steps[|steps| - 1])
  }

  /** A challenge whose life has yielded a session is consumed. */
  ghost predicate Spent(t: A.Tables, h: Harvest, id: Id)
    requires id in t.challenges
  {
    && id in h.lives && h.lives[id] < h.born
    && (h.lives[id] in h.yielded ==> t.challenges[id].state == A.Consumed)
    && (forall other :: other in t.challenges && other in h.lives && h.lives[other] == h.lives[id] ==> other == id)
  }

  ghost predicate AllSpent(t: A.Tables, h: Harvest) {
    && (forall id {:trigger Spent(t, h, id)} :: id in t.challenges ==> Spent(t, h, id))
    && (forall life :: life in h.yielded ==> life < h.born)
  }

  lemma RowStaysSpent(t: A.Tables, t': A.Tables, s: Service.Step, h: Harvest, h': Harvest, id: Id)
    requires AllSpent(t, h) && (C.Adds(t, t', s) || C.Moves(t, t', s)) && id in t'.challenges
    requires h'.lives == C.Lives(h.lives, h.born, t, t') && h'.born == h.born + 1 && h.yielded <= h'.yielded
    requires forall life :: life in h'.yielded && life !in h.yielded ==>
               exists x :: x in t'.challenges && x in t.challenges && x in h.lives && h.lives[x] == life &&
                   t'.challenges[x].state == A.Consumed
    ensures Spent(t', h', id)
  {
    forall other | other in t'.challenges
        ensures if other in t.challenges then Spent(t, h, other) else s.op.Create? && other == s.op.id {
      if C.Moves(t, t', s) {
        assert C.RowMoves(t, t', other, s);
      }
      if other in t.challenges {
        assert Spent(t, h, other);
      }
    }
    if id in t.challenges && h.lives[id] in h.yielded {
      C.TerminalStays(t, t', s, id);
    }
  }

  lemma CompleteConsumes(w: Service.World, s: Service.Step)
    requires Yields(w, s) && Service.Possible(w, s)
    ensures s.op.proof.challenge in w.t.challenges && A.Live(w.t.challenges[s.op.proof.challenge].state)
    ensures s.op.proof.challenge in Service.After(w, s).challenges
    ensures Service.After(w, s).challenges[s.op.proof.challenge].state == A.Consumed
  {
    var r := A.Complete(w.t, w.saga.t.requests, w.keys, s.op.proof, s.now).value;
    A.CompleteHasEffect(w.t, w.saga.t.requests, w.keys, s.op.proof, s.now, r.0, r.1);
  }

  lemma StepStaysSpent(w: Service.World, s: Service.Step, claimedAt: map<Id, Time>, h: Harvest)
    requires AllSpent(w.t, h) && C.Sound(w, claimedAt) && Service.Possible(w, s)
    ensures AllSpent(Service.After(w, s), Reap(h, w, s))
  {
    assert forall id :: id in w.t.challenges ==> C.Row(w, claimedAt, id);
    C.StepMoves(w, s);
    if Yields(w, s) {
      CompleteConsumes(w, s);
    }
    RowsStaySpent(w.t, Service.After(w, s), s, h, Reap(h, w, s), Yields(w, s));
  }

  lemma RowsStaySpent(t: A.Tables, t': A.Tables, s: Service.Step, h: Harvest, h': Harvest, reaped: bool)
    requires AllSpent(t, h) && (C.Adds(t, t', s) || C.Moves(t, t', s))
    requires h'.lives == C.Lives(h.lives, h.born, t, t') && h'.born == h.born + 1
    requires reaped ==>
               && s.op.Complete? && s.op.proof.challenge in t.challenges && s.op.proof.challenge in t'.challenges
               && t'.challenges[s.op.proof.challenge].state == A.Consumed
    requires h'.yielded ==
               if reaped && s.op.proof.challenge in h.lives
                   then h.yielded + {h.lives[s.op.proof.challenge]} else h.yielded
    ensures AllSpent(t', h')
  {
    if reaped {
      assert Spent(t, h, s.op.proof.challenge);
    }
    forall id | id in t'.challenges ensures Spent(t', h', id) {
      RowStaysSpent(t, t', s, h, h', id);
    }
  }

  lemma {:induction false} RunIsSpent(keys: Registry.Keyring, steps: seq<Service.Step>)
    requires Service.Legal(keys, steps)
    ensures AllSpent(Service.Run(keys, steps).t, Harvested(keys, steps))
    decreases |steps|
  {
    if steps != [] {
      var before := steps[..|steps| - 1];
      RunIsSpent(keys, before);
      C.RunIsSound(keys, before);
      StepStaysSpent(Service.Run(keys, before), steps[|steps| - 1], C.ClaimedAt(keys, before), Harvested(keys, before));
    }
  }

  /** A challenge that yields a session has not yielded one before in this life. */
  lemma OneSessionPerChallenge(keys: Registry.Keyring, steps: seq<Service.Step>, s: Service.Step)
    requires Service.Legal(keys, steps) && Service.Possible(Service.Run(keys, steps), s)
    requires Yields(Service.Run(keys, steps), s)
    ensures var h := Harvested(keys, steps);
      s.op.proof.challenge in h.lives && h.lives[s.op.proof.challenge] !in h.yielded
  {
    RunIsSpent(keys, steps);
    CompleteConsumes(Service.Run(keys, steps), s);
    assert Spent(Service.Run(keys, steps).t, Harvested(keys, steps), s.op.proof.challenge);
  }
}
