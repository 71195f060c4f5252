/** Properties of every run of the email challenges: what a state says about the row, how
    long a code can be proved, and how many mails can wait. */
module Challenges {
  import opened Common
  import A = Accounts
  import Registry
  import Service

  // ------------------------------------------------------------ how one row can move

  /** Everything a transaction at `now` may do to a challenge row it does not delete. */
  ghost predicate Change(c: A.Challenge, c': A.Challenge, now: Time) {
    || c' == c
    || (A.Live(c.state) && c'.state in {A.Expired, A.Cancelled, A.Consumed} && c' == A.Scrub(c, c'.state))
    || (c.state in {A.Delivering, A.Delivered, A.Uncertain} && c.attempts < A.MAX_ATTEMPTS && c' == A.Miss(c))
    || (c.state == A.Delivering && A.Outcome(c'.state) && c' == A.Settle(c, c'.state))
    || Leased(c, c', now)
    || Requeued(c, c')
  }

  ghost predicate Leased(c: A.Challenge, c': A.Challenge, now: Time) {
    c.state == A.Requested && now < c.expiresAt && c'.lease.Some? && c' == A.TakeLease(c, c'.lease.value.owner, now)
  }

  ghost predicate Requeued(c: A.Challenge, c': A.Challenge) {
    c.state == A.Delivering && c' == A.Requeue(c, c'.availableAt)
  }

  /** A verification that outlives the step keeps its index, and its expiry moves with the
      challenge's or not at all. */
  ghost predicate Follows(t: A.Tables, t': A.Tables, id: Id)
    requires id in t.challenges && id in t'.challenges
  {
    id in t'.verifications ==>
      && id in t.verifications && t'.verifications[id].index == t.verifications[id].index
      && t'.verifications[id].product == t.verifications[id].product
      && t'.verifications[id].plain == t.verifications[id].plain
      && t'.verifications[id].installation == t.verifications[id].installation
      && (if t'.challenges[id].expiresAt == t.challenges[id].expiresAt
          then t'.verifications[id].expiresAt == t.verifications[id].expiresAt
          else t'.verifications[id].expiresAt == t'.challenges[id].expiresAt)
  }

  /** Only a claim leases a row, and not before it is available; only a defer by the lease's
      owner puts one back, available from its retry time. A claim touches a leased row only
      once the lease has run out, and only a completion counts an attempt. */
  ghost predicate Attributed(c: A.Challenge, c': A.Challenge, id: Id, s: Service.Step) {
    && (c.state == A.Requested && c'.state == A.Delivering ==>
          s.op.Claim? && id in s.op.pick && A.Owns(c', s.op.owner) && c.availableAt <= s.now)
    && (c.state == A.Delivering && c'.state == A.Requested ==>
          s.op.Defer? && id == s.op.id && A.Owns(c, s.op.owner) && c'.availableAt == s.op.retryAt)
    && (c'.availableAt != c.availableAt ==> c.state == A.Delivering && c'.state == A.Requested)
    && (s.op.Claim? && c.state == A.Delivering && c' != c ==> c.lease.None? || c.lease.value.until <= s.now)
    && (c'.attempts != c.attempts ==> s.op.Complete? && id == s.op.proof.challenge)
  }

  ghost predicate RowMoves(t: A.Tables, t': A.Tables, id: Id, s: Service.Step)
    requires id in t'.challenges
  {
    && id in t.challenges
    && Change(t.challenges[id], t'.challenges[id], s.now)
    && Attributed(t.challenges[id], t'.challenges[id], id, s)
    && Follows(t, t', id)
  }

  ghost predicate Moves(t: A.Tables, t': A.Tables, s: Service.Step) {
    forall id {:trigger RowMoves(t, t', id, s)} :: id in t'.challenges ==> RowMoves(t, t', id, s)
  }

  /** A committed creation adds its row and may cancel the one it replaces. */
  ghost predicate Adds(t: A.Tables, t': A.Tables, s: Service.Step) {
    && s.op.Create? && s.op.id !in t.challenges && s.op.id in t'.challenges
    && t'.challenges[s.op.id] == s.op.c && A.ValidInput(s.op.c, s.op.v)
    && s.op.c.expiresAt <= s.op.c.createdAt + A.QUEUE_TTL
    && s.op.id in t'.verifications && t'.verifications[s.op.id] == s.op.v.(busy := false)
    && 1 <= s.op.limit && A.Taken(t, A.Key(s.op.c), s.now) < s.op.limit
    && t'.challenges == A.CancelReplaced(t, A.Key(s.op.c)).challenges[s.op.id := s.op.c]
    && (forall id ::
        id in t'.verifications && id != s.op.id ==>
            id in t.verifications && t'.verifications[id] == t.verifications[id])
  }

  lemma PutMoves(t: A.Tables, t': A.Tables, id: Id, c': A.Challenge, s: Service.Step)
    requires id in t.challenges && t'.challenges == t.challenges[id := c'] && t'.verifications == t.verifications
    requires Change(t.challenges[id], c', s.now) && c'.expiresAt == t.challenges[id].expiresAt
    requires Attributed(t.challenges[id], c', id, s)
    ensures Moves(t, t', s)
  {
  }

  lemma ResendMoves(t: A.Tables, t': A.Tables, id: Id, c': A.Challenge, s: Service.Step)
    requires id in t.challenges && id in t.verifications
    requires t'.challenges == A.Resend(t, id, c', c'.expiresAt).challenges
    requires t'.verifications == A.Resend(t, id, c', c'.expiresAt).verifications
    requires Change(t.challenges[id], c', s.now) && Attributed(t.challenges[id], c', id, s)
    requires c'.expiresAt == t.challenges[id].expiresAt ==> t.verifications[id].expiresAt == c'.expiresAt
    ensures Moves(t, t', s)
  {
  }

  lemma ClaimMoves(t: A.Tables, s: Service.Step, t': A.Tables, id: Id)
    requires s.op.Claim? && id in s.op.pick && id in t.challenges && Coupled(t, id)
    requires A.LeasedBy(t, t', id, s.op.owner, s.op.limit, s.now) || A.ClosedUnsent(t, t', id, s.now)
    ensures Moves(t, t', s)
  {
    if A.LeasedBy(t, t', id, s.op.owner, s.op.limit, s.now) {
      ResendMoves(t, t', id, A.TakeLease(t.challenges[id], s.op.owner, s.now), s);
    } else {
      PutMoves(t, t', id, t'.challenges[id], s);
    }
  }

  lemma DeferMoves(t: A.Tables, s: Service.Step, t': A.Tables)
    requires s.op.Defer? && A.Defer(t, s.op.id, s.op.owner, s.op.retryAt, s.now) == Ok(t')
    requires s.op.id in t.challenges && Coupled(t, s.op.id)
    ensures Moves(t, t', s)
  {
    var c := t.challenges[s.op.id];
    if A.Acknowledged(c.state) {
    } else if t'.challenges[s.op.id].state == A.Expired {
      PutMoves(t, t', s.op.id, A.Scrub(c, A.Expired), s);
    } else {
      ResendMoves(t, t', s.op.id, A.Requeue(c, s.op.retryAt), s);
    }
  }

  lemma CompleteMoves(w: Service.World, s: Service.Step, t': A.Tables, r: A.Completion)
    requires s.op.Complete? && A.Complete(w.t, w.saga.t.requests, w.keys, s.op.proof, s.now) == Ok((t', r))
    ensures Moves(w.t, t', s)
  {
    var t, p := w.t, s.op.proof;
    A.CompleteHasEffect(t, w.saga.t.requests, w.keys, p, s.now, t', r);
    if r.Rejected? {
      PutMoves(t, t', p.challenge, t'.challenges[p.challenge], s);
    } else {
      forall id | id in t'.challenges ensures RowMoves(t, t', id, s) {
      }
    }
  }

  lemma CleanupMoves(t: A.Tables, s: Service.Step)
    requires s.op.Cleanup? && A.Sweeps(t, s.now, s.op.limit, s.op.sweep)
    ensures Moves(t, A.Cleanup(t, s.op.sweep), s)
  {
    var t', expired := A.Cleanup(t, s.op.sweep), s.op.sweep.expired;
    forall id | id in t'.challenges ensures RowMoves(t, t', id, s) {
      assert t'.challenges[id] == A.ScrubAll(t.challenges, expired)[id];
      if id in expired {
        assert id in A.OverdueRows(t, s.now);
      }
    }
  }

  lemma EraseMoves(t: A.Tables, e: Registry.Target, s: Service.Step)
    ensures Moves(t, A.Erase(t, e), s)
  {
  }

  lemma CreateAdds(t: A.Tables, s: Service.Step, t': A.Tables)
    requires s.op.Create? && A.Create(t, s.op.id, s.op.c, s.op.v, s.op.contact, s.op.limit, s.now) == Ok((t', true))
    ensures Adds(t, t', s)
  {
  }

  lemma SameRowsMove(t: A.Tables, t': A.Tables, s: Service.Step)
    requires t'.challenges == t.challenges
    requires forall id :: id in t.challenges && id in t'.verifications ==>
               id in t.verifications &&
                   t'.verifications[id] ==
                       t.verifications[id].(verified := t'.verifications[id].verified,
                           busy := t'.verifications[id].busy)
    ensures Moves(t, t', s)
  {
  }

  /** Every step either adds one challenge or moves the rows there are. */
  lemma StepMoves(w: Service.World, s: Service.Step)
    requires Service.Possible(w, s) && forall id :: id in w.t.challenges ==> Coupled(w.t, id)
    ensures Adds(w.t, Service.After(w, s), s) || Moves(w.t, Service.After(w, s), s)
  {
    var t, t' := w.t, Service.After(w, s);
    match s.op
    case Create(id, c, v, contact, limit) =>
      var r := A.Create(t, id, c, v, contact, limit, s.now);
      if r.Ok? && r.value.1 {
        CreateAdds(t, s, t');
      } else {
        SameRowsMove(t, t', s);
      }
    case Claim(owner, products, limit, pick) =>
      var r := A.Claim(t, owner, products, limit, s.now, pick);
      if r.Ok? {
        A.ClaimHasEffect(t, owner, products, limit, s.now, pick, t', r.value.1);
        ClaimMoves(t, s, t', r.value.1);
      } else {
        SameRowsMove(t, t', s);
      }
    case Defer(id, owner, retryAt) =>
      if A.Defer(t, id, owner, retryAt, s.now).Ok? {
        DeferMoves(t, s, t');
      } else {
        SameRowsMove(t, t', s);
      }
    case Finish(id, owner, outcome) =>
      if A.Finish(t, id, owner, outcome).Ok? && t' != t {
        PutMoves(t, t', id, A.Settle(t.challenges[id], outcome), s);
      } else {
        SameRowsMove(t, t', s);
      }
    case Complete(p) =>
      var r := A.Complete(t, w.saga.t.requests, w.keys, p, s.now);
      if r.Ok? {
        CompleteMoves(w, s, t', r.value.1);
      } else {
        SameRowsMove(t, t', s);
      }
    case Cleanup(_, _) => CleanupMoves(t, s);
    case Privacy(op) =>
      if Service.ErasedBy(w, op).Some? {
        EraseMoves(t, Service.ErasedBy(w, op).value, s);
      } else {
        SameRowsMove(t, t', s);
      }
    case Rotate(_, _) => RotateKeepsRows(w, s);
    case _ => SameRowsMove(t, t', s);
  }

  lemma RotateKeepsRows(w: Service.World, s: Service.Step)
    requires Service.Possible(w, s) && s.op.Rotate?
    ensures Moves(w.t, Service.After(w, s), s)
  {
    var t' := Service.After(w, s);
    if t' != w.t {
      A.RotateHasEffect(w.t, w.saga.t.requests, s.op.used, s.op.next, s.now);
    }
    SameRowsMove(w.t, t', s);
  }

  // ------------------------------------------------------------------- invariants

  /** A live challenge and its verification expire together and have the same index,
      product and installation. */
  ghost predicate Coupled(t: A.Tables, id: Id)
    requires id in t.challenges
  {
    A.Live(t.challenges[id].state) && id in t.verifications ==>
      var c, v := t.challenges[id], t.verifications[id];
      v.plain && v.expiresAt == c.expiresAt && v.index == c.index && v.product == c.product &&
          v.installation == Some(c.installation)
  }

  /** What the state says about the row. */
  ghost predicate Shape(c: A.Challenge) {
    && (c.code.Some? <==> A.Live(c.state))
    && (c.hasCipher <==> c.state in {A.Requested, A.Delivering})
    && (c.lease.Some? <==> c.state == A.Delivering)
    && c.state != A.Verified
    && c.attempts <= A.MAX_ATTEMPTS && (c.attempts == A.MAX_ATTEMPTS <==> c.state == A.Locked)
  }

  /** When the code was last sent for, and until when it can be proved. */
  ghost predicate Timed(c: A.Challenge, claimed: Option<Time>, clock: Time) {
    && (c.state == A.Requested ==> c.expiresAt <= c.createdAt + A.QUEUE_TTL)
    && (c.state in {A.Delivering, A.Delivered, A.Uncertain} ==>
          && claimed.Some? && c.expiresAt == claimed.value + A.CODE_TTL
          && claimed.value < c.createdAt + A.QUEUE_TTL && claimed.value <= clock)
    && (c.lease.Some? ==> claimed.Some? && c.lease.value.until == claimed.value + A.MAIL_LEASE)
  }

  function At(claimedAt: map<Id, Time>, id: Id): Option<Time> {
    if id in claimedAt then Some(claimedAt[id]) else None
  }

  ghost predicate Row(w: Service.World, claimedAt: map<Id, Time>, id: Id)
    requires id in w.t.challenges
  {
    Shape(w.t.challenges[id]) && Timed(w.t.challenges[id], At(claimedAt, id), w.clock) && Coupled(w.t, id)
  }

  ghost predicate Sound(w: Service.World, claimedAt: map<Id, Time>) {
    forall id {:trigger Row(w, claimedAt, id)} :: id in w.t.challenges ==> Row(w, claimedAt, id)
  }

  /** The row goes from requested to delivering in this step. */
  ghost predicate NowLeased(t: A.Tables, t': A.Tables, id: Id) {
    id in t.challenges && id in t'.challenges && t.challenges[id].state == A.Requested &&
        t'.challenges[id].state == A.Delivering
  }

  ghost function Claims(claimedAt: map<Id, Time>, t: A.Tables, t': A.Tables, now: Time): map<Id, Time> {
    map id | id in t'.challenges && (NowLeased(t, t', id) || (id in t.challenges && id in claimedAt)) ::
      if NowLeased(t, t', id) then now else claimedAt[id]
  }

  /** When each present challenge was last claimed for delivery. */
  ghost function ClaimedAt(keys: Registry.Keyring, steps: seq<Service.Step>): map<Id, Time>
    requires Service.Legal(keys, steps)
    decreases |steps|
  {
    if steps == [] then map[] else
      var before, last := steps[..|steps| - 1], steps[|steps| - 1];
      var w := Service.Run(keys, before);
      Claims(ClaimedAt(keys, before), w.t, Service.After(w, last), last.now)
  }

  /** Challenge identifiers are chosen by clients and can be used again once a row is
      deleted; a life is the number of the step that created the present row. */
  ghost function Lives(lives: map<Id, nat>, born: nat, t: A.Tables, t': A.Tables): map<Id, nat> {
    map id | id in t'.challenges :: if id in t.challenges && id in lives then lives[id] else born
  }

  lemma ChangeKeepsShape(c: A.Challenge, c': A.Challenge, now: Time)
    requires Shape(c) && Change(c, c', now)
    ensures Shape(c')
  {
  }

  lemma ChangeKeepsTime(c: A.Challenge, c': A.Challenge, claimed: Option<Time>, clock: Time, now: Time)
    requires Timed(c, claimed, clock) && Change(c, c', now) && clock <= now
    ensures Timed(c', if c.state == A.Requested && c'.state == A.Delivering then Some(now) else claimed, now)
  {
  }

  lemma MoveKeepsRow(w: Service.World, w': Service.World, s: Service.Step, claimedAt: map<Id, Time>, id: Id)
    requires Sound(w, claimedAt) && w.clock <= w'.clock == s.now && id in w'.t.challenges && RowMoves(w.t, w'.t, id, s)
    ensures Row(w', Claims(claimedAt, w.t, w'.t, w'.clock), id)
  {
    assert Row(w, claimedAt, id);
    var c, c' := w.t.challenges[id], w'.t.challenges[id];
    ChangeKeepsShape(c, c', w'.clock);
    ChangeKeepsTime(c, c', At(claimedAt, id), w.clock, w'.clock);
    assert A.Live(c'.state) ==> A.Live(c.state);
  }

  lemma AddKeepsRow(w: Service.World, w': Service.World, s: Service.Step, claimedAt: map<Id, Time>, id: Id)
    requires Sound(w, claimedAt) && w.clock <= w'.clock == s.now && id in w'.t.challenges && Adds(w.t, w'.t, s)
    ensures Row(w', Claims(claimedAt, w.t, w'.t, w'.clock), id)
  {
    if id != s.op.id {
      assert Row(w, claimedAt, id);
      assert Change(w.t.challenges[id], w'.t.challenges[id], s.now);
      assert RowMoves(w.t, w'.t, id, s);
      MoveKeepsRow(w, w', s, claimedAt, id);
    }
  }

  lemma StepKeepsRows(w: Service.World, s: Service.Step, claimedAt: map<Id, Time>, w': Service.World)
    requires Sound(w, claimedAt) && Service.Possible(w, s) && w' == Service.Next(w, s)
    ensures Sound(w', Claims(claimedAt, w.t, w'.t, s.now))
  {
    assert forall id :: id in w.t.challenges ==> Row(w, claimedAt, id);
    StepMoves(w, s);
    forall id | id in w'.t.challenges ensures Row(w', Claims(claimedAt, w.t, w'.t, s.now), id) {
      if Adds(w.t, w'.t, s) {
        AddKeepsRow(w, w', s, claimedAt, id);
      } else {
        assert RowMoves(w.t, w'.t, id, s);
        MoveKeepsRow(w, w', s, claimedAt, id);
      }
    }
  }

  /** In every reachable state a challenge's state fixes what it holds, it expires with its
      verification, and its attempts stay below five until it is locked at five. */
  lemma {:induction false} RunIsSound(keys: Registry.Keyring, steps: seq<Service.Step>)
    requires Service.Legal(keys, steps)
    ensures Sound(Service.Run(keys, steps), ClaimedAt(keys, steps))
    decreases |steps|
  {
    if steps != [] {
      var before := steps[..|steps| - 1];
      RunIsSound(keys, before);
      StepKeepsRows(Service.Run(keys, before), steps[|steps| - 1], ClaimedAt(keys, before), Service.Run(keys, steps));
    }
  }

  // ----------------------------------------------------------------- main results

  /** A terminal row never changes again; only deletion ends it. */
  lemma TerminalIsAbsorbing(keys: Registry.Keyring, steps: seq<Service.Step>, s: Service.Step, id: Id)
    requires Service.Legal(keys, steps) && Service.Possible(Service.Run(keys, steps), s)
    requires id in Service.Run(keys, steps).t.challenges && !A.Live(Service.Run(keys, steps).t.challenges[id].state)
    ensures var t' := Service.Next(Service.Run(keys, steps), s).t;
      id in t'.challenges ==> t'.challenges[id] == Service.Run(keys, steps).t.challenges[id]
  {
    RunIsSound(keys, steps);
    var w := Service.Run(keys, steps);
    assert forall x :: x in w.t.challenges ==> Row(w, ClaimedAt(keys, steps), x);
    StepMoves(w, s);
    TerminalStays(w.t, Service.After(w, s), s, id);
  }

  lemma TerminalStays(t: A.Tables, t': A.Tables, s: Service.Step, id: Id)
    requires Adds(t, t', s) || Moves(t, t', s)
    requires id in t.challenges && !A.Live(t.challenges[id].state)
    ensures id in t'.challenges ==> t'.challenges[id] == t.challenges[id]
  {
    if id in t'.challenges && !Adds(t, t', s) {
      assert RowMoves(t, t', id, s);
    }
  }

  /** An accepted code is younger than ten minutes, counted from the last claim, and older
      than 48 hours and ten minutes it cannot be. */
  lemma AcceptedCodeIsFresh(keys: Registry.Keyring, steps: seq<Service.Step>, p: A.Proof, now: Time)
    requires Service.Legal(keys, steps)
    requires Service.Possible(Service.Run(keys, steps), Service.Step(now, Service.Complete(p)))
    requires var w := Service.Run(keys, steps);
      var r := A.Complete(w.t, w.saga.t.requests, w.keys, p, now);
      r.Ok? && r.value.1.Issued?
    ensures var c, claimedAt := Service.Run(keys, steps).t.challenges[p.challenge], ClaimedAt(keys, steps);
      && p.challenge in claimedAt
      && claimedAt[p.challenge] <= now < claimedAt[p.challenge] + A.CODE_TTL
      && now < c.createdAt + A.QUEUE_TTL + A.CODE_TTL
      && c.code == Some(p.code) && c.attempts < A.MAX_ATTEMPTS
  {
    RunIsSound(keys, steps);
    var w := Service.Run(keys, steps);
    var r := A.Complete(w.t, w.saga.t.requests, w.keys, p, now).value;
    A.CompleteHasEffect(w.t, w.saga.t.requests, w.keys, p, now, r.0, r.1);
    assert Row(w, ClaimedAt(keys, steps), p.challenge);
  }

  // ------------------------------------------------------------- the queue's capacity

  /** A defer that commits after the row's own expiry puts it back into the count. */
  ghost predicate LateDefer(w: Service.World, s: Service.Step)
    requires Service.Possible(w, s)
  {
    && s.op.Defer? && s.op.id in w.t.challenges && w.t.challenges[s.op.id].expiresAt <= s.now
    && s.op.id in Service.After(w, s).challenges
    && Requeued(w.t.challenges[s.op.id], Service.After(w, s).challenges[s.op.id])
  }

  ghost function LateDefers(keys: Registry.Keyring, steps: seq<Service.Step>): nat
    requires Service.Legal(keys, steps)
    decreases |steps|
  {
    if steps == [] then 0 else
      var before, last := steps[..|steps| - 1], steps[|steps| - 1];
      LateDefers(keys, before) + (if LateDefer(Service.Run(keys, before), last) then 1 else 0)
  }

  lemma Smaller(a: set<Id>, b: set<Id>)
    requires a <= b
    ensures |a| <= |b|
  {
    assert b == a + (b - a);
  }

  /** No step but a creation raises the count, except by one for a late defer. */
  lemma CountRisesOnlyLate(t: A.Tables, t': A.Tables, s: Service.Step, late: bool)
    requires Moves(t, t', s)
    requires late <==> s.op.Defer? && s.op.id in t.challenges && t.challenges[s.op.id].expiresAt <= s.now
                       && s.op.id in t'.challenges && Requeued(t.challenges[s.op.id], t'.challenges[s.op.id])
    ensures |A.Queue(t'.challenges, s.now)| <= |A.Queue(t.challenges, s.now)| + (if late then 1 else 0)
  {
    var before, after := A.Queue(t.challenges, s.now), A.Queue(t'.challenges, s.now);
    var extra: set<Id> := if late then {s.op.id} else {};
    forall id | id in after ensures id in before + extra {
      assert RowMoves(t, t', id, s);
    }
    Smaller(after, before + extra);
  }

  /** A committed defer raises the count exactly when it requeues a row past its own expiry:
      the 48-hour deadline is tested, the row's expiry is not. */
  lemma DeferRaisesCountIff(t: A.Tables, id: Id, owner: Id, retryAt: Time, now: Time, t': A.Tables)
    requires A.Defer(t, id, owner, retryAt, now) == Ok(t')
    ensures |A.Queue(t'.challenges, now)| > |A.Queue(t.challenges, now)| <==>
            && A.Owns(t.challenges[id], owner) && t.challenges[id].expiresAt <= now
            && retryAt < t.challenges[id].createdAt + A.QUEUE_TTL
  {
    var c := t.challenges[id];
    if A.Owns(c, owner) && retryAt < c.createdAt + A.QUEUE_TTL {
      assert t'.challenges == t.challenges[id := A.Requeue(c, retryAt)];
      RequeueCounts(t.challenges, id, retryAt, now);
    } else {
      assert t'.challenges == t.challenges || t'.challenges == t.challenges[id := A.Scrub(c, A.Expired)];
      Smaller(A.Queue(t'.challenges, now), A.Queue(t.challenges, now));
    }
  }

  lemma RequeueCounts(challenges: map<Id, A.Challenge>, id: Id, retryAt: Time, now: Time)
    requires id in challenges && challenges[id].state == A.Delivering && now < challenges[id].createdAt + A.QUEUE_TTL
    ensures |A.Queue(challenges[id := A.Requeue(challenges[id], retryAt)], now)|
         == |A.Queue(challenges, now)| + (if challenges[id].expiresAt <= now then 1 else 0)
  {
    var before, after := A.Queue(challenges, now), A.Queue(challenges[id := A.Requeue(challenges[id], retryAt)], now);
    assert id in before <==> challenges[id].expiresAt > now;
    assert after == before + {id};
    if id in before {
      assert after == before;
    }
  }

  /** Every committed creation leaves at most its limit waiting; replacing a waiting
      challenge of the same installation is a swap. */
  lemma CreationFits(t: A.Tables, t': A.Tables, s: Service.Step)
    requires Adds(t, t', s)
    ensures |A.Queue(t'.challenges, s.now)| <= s.op.limit
  {
    var key, queue := A.Key(s.op.c), A.Queue(t.challenges, s.now);
    var kept := match A.Replaced(t, key) case None => queue case Some(id) => queue - {id};
    assert |kept| == A.Taken(t, key, s.now);
    Smaller(A.Queue(t'.challenges, s.now), kept + {s.op.id});
  }

  lemma QueueShrinksWithTime(challenges: map<Id, A.Challenge>, early: Time, late: Time)
    requires early <= late
    ensures |A.Queue(challenges, late)| <= |A.Queue(challenges, early)|
  {
    Smaller(A.Queue(challenges, late), A.Queue(challenges, early));
  }

  /** With every creation under the same limit, the waiting mails never exceed that limit by
      more than the number of late defers. */
  lemma {:induction false} QueueIsBounded(keys: Registry.Keyring, steps: seq<Service.Step>, limit: nat)
    requires Service.Legal(keys, steps)
    requires forall i :: 0 <= i < |steps| && steps[i].op.Create? ==> steps[i].op.limit <= limit
    ensures var w := Service.Run(keys, steps);
      |A.Queue(w.t.challenges, w.clock)| <= limit + LateDefers(keys, steps)
    decreases |steps|
  {
    if steps == [] {
      assert A.Queue(A.EMPTY.challenges, 0) == {};
    } else {
      var before, last := steps[..|steps| - 1], steps[|steps| - 1];
      QueueIsBounded(keys, before, limit);
      RunIsSound(keys, before);
      var w := Service.Run(keys, before);
      QueueStep(w, last, ClaimedAt(keys, before), limit, LateDefers(keys, before));
    }
  }

  lemma QueueStep(w: Service.World, s: Service.Step, claimedAt: map<Id, Time>, limit: nat, late: nat)
    requires Service.Possible(w, s) && Sound(w, claimedAt) && (s.op.Create? ==> s.op.limit <= limit)
    requires |A.Queue(w.t.challenges, w.clock)| <= limit + late
    ensures |A.Queue(Service.After(w, s).challenges, s.now)| <= limit + late + (if LateDefer(w, s) then 1 else 0)
  {
    assert forall x :: x in w.t.challenges ==> Row(w, claimedAt, x);
    StepMoves(w, s);
    if Adds(w.t, Service.After(w, s), s) {
      CreationFits(w.t, Service.After(w, s), s);
    } else {
      CountRisesOnlyLate(w.t, Service.After(w, s), s, LateDefer(w, s));
      QueueShrinksWithTime(w.t.challenges, w.clock, s.now);
    }
  }
}
