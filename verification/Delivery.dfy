/** The mail senders around the queue (internal/accountbroker/delivery.go and
    delivery_worker.go): claim, recheck, send once, report. Any number of workers, each claim
    under a fresh owner, interleave with every other transaction; a worker may stop forever
    after any of its steps or go on arbitrarily late. */
module Delivery {
  import opened Common
  import A = Accounts
  import C = Challenges
  import Registry
  import Service
  import Smtp

  /** A worker that has sent knows the error, and which mail it was is recorded with it. */
  datatype Phase = Claimed | Checked | Sent(error: Option<Smtp.MailError>, mail: nat)

  /** What one worker is busy with: a challenge in one of its lives. */
  datatype Worker = Worker(challenge: Id, life: nat, phase: Phase)

  /** A submission made for one life of a challenge. */
  datatype Mail = Mail(life: nat, dialogue: Smtp.Dialogue)

  datatype Office = Office(
    w: Service.World,
    claimedAt: map<Id, Time>,
    lives: map<Id, nat>,
    born: nat,
    owners: set<Id>,
    workers: map<Id, Worker>,
    mails: seq<Mail>)

  datatype Event =
    | Elsewhere(step: Service.Step)
    | Claims(owner: Id, now: Time, products: set<Id>, limit: nat, pick: set<Id>)
    | Rechecks(owner: Id, now: Time)
    | GivesUp(owner: Id, now: Time)
    | Sends(owner: Id, dialogue: Smtp.Dialogue)
    | Reports(owner: Id, now: Time, retryAt: Time)
    | Stops(owner: Id)

  /** Where an outcome that is not temporary leaves the challenge. */
  function Verdict(e: Option<Smtp.MailError>): A.State {
    if e.None? then A.Delivered else if Smtp.Uncertain(e) then A.Uncertain else A.DeliveryFailed
  }

  /** The transaction behind an event, if it has one. */
  ghost function StepOf(x: Office, ev: Event): Option<Service.Step>
    requires (ev.GivesUp? || ev.Reports?) ==> ev.owner in x.workers
    requires ev.Reports? ==> x.workers[ev.owner].phase.Sent?
  {
    match ev
    case Elsewhere(s) => Some(s)
    case Claims(owner, now, products, limit, pick) =>
        Some(Service.Step(now, Service.Claim(owner, products, limit, pick)))
    case GivesUp(owner, now) =>
        Some(Service.Step(now, Service.Finish(x.workers[owner].challenge, owner, A.DeliveryFailed)))
    case Reports(owner, now, retryAt) =>
      var job := x.workers[owner];
      Some(Service.Step(now,
        if Smtp.Temporary(job.phase.error) then Service.Defer(job.challenge, owner, retryAt)
        else Service.Finish(job.challenge, owner, Verdict(job.phase.error))))
    case _ => None
  }

  /** Only senders claim, defer and finish deliveries; each claim has an owner never used
      before, and a worker's steps come in order. */
  ghost predicate Possible(x: Office, ev: Event) {
    && (match ev
        case Elsewhere(s) => !s.op.Claim? && !s.op.Defer? && !s.op.Finish?
        case Claims(owner, _, _, _, _) => owner !in x.owners
        case Rechecks(owner, now) => owner in x.workers && x.workers[owner].phase == Claimed && x.w.clock <= now
        case GivesUp(owner, _) => owner in x.workers && x.workers[owner].phase == Claimed
        case Sends(owner, d) => owner in x.workers && x.workers[owner].phase == Checked && Smtp.Consistent(d)
        case Reports(owner, _, _) => owner in x.workers && x.workers[owner].phase.Sent?
        case Stops(owner) => owner in x.workers)
    && (StepOf(x, ev).Some? ==> Service.Possible(x.w, StepOf(x, ev).value))
  }

  /** The row read again just before sending is still this worker's, and in time. */
  predicate StillMine(t: A.Tables, id: Id, owner: Id, now: Time) {
    id in t.challenges && A.Owns(t.challenges[id], owner) && now < t.challenges[id].lease.value.until &&
        now < t.challenges[id].expiresAt
  }

  /** The tables after a transaction, with the histories that depend on them. */
  ghost function Moved(x: Office, s: Service.Step): Office
    requires Service.Possible(x.w, s)
  {
    var w' := Service.Next(x.w, s);
    x.(w := w', claimedAt := C.Claims(x.claimedAt, x.w.t, w'.t, s.now),
        lives := C.Lives(x.lives, x.born, x.w.t, w'.t), born := x.born + 1)
  }

  /** The rows this owner holds after its claim. */
  ghost function Held(x: Office, owner: Id, pick: set<Id>): set<Id> {
    set id | id in pick && id in x.w.t.challenges && id in x.lives && A.Owns(x.w.t.challenges[id], owner)
  }

  ghost function Next(x: Office, ev: Event): Office
    requires Possible(x, ev)
  {
    match ev
    case Elsewhere(s) => Moved(x, s)
    case Claims(owner, _, _, _, pick) =>
      var y := Moved(x, StepOf(x, ev).value).(owners := x.owners + {owner});
      if Held(y, owner, pick) == {} then y else
        var id :| id in Held(y, owner, pick);
        y.(workers := x.workers[owner := Worker(id, y.lives[id], Claimed)])
    case Rechecks(owner, now) =>
      if StillMine(x.w.t, x.workers[owner].challenge, owner, now)
      then x.(workers := x.workers[owner := x.workers[owner].(phase := Checked)])
      else x.(workers := x.workers - {owner})
    case GivesUp(owner, _) => Moved(x, StepOf(x, ev).value).(workers := x.workers - {owner})
    case Sends(owner, d) =>
      var job := x.workers[owner];
      x.(workers := x.workers[owner := job.(phase := Sent(Smtp.Outcome(d), |x.mails|))],
          mails := x.mails + [Mail(job.life, d)])
    case Reports(owner, _, _) => Moved(x, StepOf(x, ev).value).(workers := x.workers - {owner})
    case Stops(owner) => x.(workers := x.workers - {owner})
  }

  ghost function Start(keys: Registry.Keyring): Office {
    Office(Service.Start(keys), map[], map[], 0, {}, map[], [])
  }

  ghost predicate Legal(keys: Registry.Keyring, events: seq<Event>)
    decreases |events|, 0
  {
    if events == [] then keys.Valid()
    else Legal(keys, events[..|events| - 1]) && Possible(Run(keys, events[..|events| - 1]), events[|events| - 1])
  }

  ghost function Run(keys: Registry.Keyring, events: seq<Event>): Office
    requires Legal(keys, events)
    decreases |events|, 1
  {
    if events == [] then Start(keys) else Next(Run(keys, events[..|events| - 1]), events[|events| - 1])
  }

  // ------------------------------------------------------------------- invariants

  /** Every mail of this life so far was definitely and temporarily refused. */
  ghost predicate AllRefused(mails: seq<Mail>, life: nat) {
    forall i :: 0 <= i < |mails| && mails[i].life == life ==> Smtp.Temporary(Smtp.Outcome(mails[i].dialogue))
  }

  /** The worker may still send for its challenge's life. */
  ghost predicate Armed(x: Office, owner: Id) {
    owner in x.workers && !x.workers[owner].phase.Sent?
  }

  /** What the worker knows of its mail is what became of it. */
  ghost predicate Reported(mails: seq<Mail>, job: Worker)
    requires job.phase.Sent?
  {
    && job.phase.mail < |mails| && mails[job.phase.mail].life == job.life
    && job.phase.error == Smtp.Outcome(mails[job.phase.mail].dialogue)
  }

  ghost predicate WorkerOk(x: Office, owner: Id)
    requires owner in x.workers
  {
    var job := x.workers[owner];
    && owner in x.owners && job.life < x.born
    && (job.phase.Sent? ==> Reported(x.mails, job))
    && (Armed(x, owner) ==> AllRefused(x.mails, job.life))
    && (Armed(x, owner) ==> forall o :: Armed(x, o) && x.workers[o].life == job.life ==> o == owner)
  }

  ghost predicate RowOk(x: Office, id: Id)
    requires id in x.w.t.challenges
  {
    && id in x.lives && x.lives[id] < x.born
    && (forall other :: other in x.w.t.challenges && other in x.lives && x.lives[other] == x.lives[id] ==> other == id)
    && match x.w.t.challenges[id].state
       case Requested =>
           AllRefused(x.mails, x.lives[id]) && forall o :: Armed(x, o) ==> x.workers[o].life != x.lives[id]
       case Delivering => x.w.t.challenges[id].lease.Some? && HolderOk(x, id, x.w.t.challenges[id].lease.value.owner)
       case _ => true
  }

  /** While a lease runs only its owner may send; once it reported a temporary refusal to
      itself, all mails of this life are refused. */
  ghost predicate HolderOk(x: Office, id: Id, holder: Id)
    requires id in x.lives
  {
    && holder in x.owners
    && (forall o :: Armed(x, o) && x.workers[o].life == x.lives[id] ==> o == holder)
    && (holder in x.workers ==>
          && x.workers[holder].challenge == id && x.workers[holder].life == x.lives[id]
          && (x.workers[holder].phase.Sent? && Smtp.Temporary(x.workers[holder].phase.error) ==>
              AllRefused(x.mails, x.lives[id])))
  }

  /** All mails of one life but the last were definitely refused. */
  ghost predicate OneAtMost(mails: seq<Mail>) {
    forall i, j ::
        0 <= i < j < |mails| && mails[i].life == mails[j].life ==> Smtp.Temporary(Smtp.Outcome(mails[i].dialogue))
  }

  ghost predicate Sound(x: Office) {
    && C.Sound(x.w, x.claimedAt)
    && (forall o {:trigger WorkerOk(x, o)} :: o in x.workers ==> WorkerOk(x, o))
    && (forall id {:trigger RowOk(x, id)} :: id in x.w.t.challenges ==> RowOk(x, id))
    && (forall i :: 0 <= i < |x.mails| ==> x.mails[i].life < x.born && Smtp.Consistent(x.mails[i].dialogue))
    && OneAtMost(x.mails)
  }

  // ------------------------------------------------ steps that do not touch the tables

  lemma WorkersShrink(x: Office, x': Office, owner: Id)
    requires Sound(x) && x' == x.(workers := x.workers - {owner})
    ensures Sound(x')
  {
    forall o | o in x'.workers ensures WorkerOk(x', o) {
      assert WorkerOk(x, o);
    }
    forall id | id in x'.w.t.challenges ensures RowOk(x', id) {
      assert RowOk(x, id);
    }
  }

  lemma RecheckIsSound(x: Office, x': Office, owner: Id)
    requires Sound(x) && owner in x.workers && x.workers[owner].phase == Claimed
    requires x' == x.(workers := x.workers[owner := x.workers[owner].(phase := Checked)])
    ensures Sound(x')
  {
    assert forall o :: Armed(x', o) <==> Armed(x, o);
    forall o | o in x'.workers ensures WorkerOk(x', o) {
      assert WorkerOk(x, o);
    }
    forall id | id in x'.w.t.challenges ensures RowOk(x', id) {
      assert RowOk(x, id);
    }
  }

  lemma SendIsSound(x: Office, x': Office, owner: Id, d: Smtp.Dialogue)
    requires Sound(x) && owner in x.workers && x.workers[owner].phase == Checked && Smtp.Consistent(d)
    requires x' == x.(workers := x.workers[owner := x.workers[owner].(phase := Sent(Smtp.Outcome(d), |x.mails|))],
                      mails := x.mails + [Mail(x.workers[owner].life, d)])
    ensures Sound(x')
  {
    assert WorkerOk(x, owner) && Armed(x, owner);
    var life := x.workers[owner].life;
    forall other: nat | other != life && AllRefused(x.mails, other) ensures AllRefused(x'.mails, other) {
    }
    assert Smtp.Temporary(Smtp.Outcome(d)) ==> AllRefused(x'.mails, life);
    forall o | o in x'.workers ensures WorkerOk(x', o) {
      assert WorkerOk(x, o);
      assert Armed(x', o) ==> Armed(x, o) && x.workers[o].life != life;
    }
    forall id | id in x'.w.t.challenges ensures RowOk(x', id) {
      assert RowOk(x, id);
    }
  }

  // ---------------------------------------------------- steps that move the tables

  /** What a transaction does to the office, the workers aside. */
  ghost predicate Shifts(x: Office, x': Office, s: Service.Step) {
    && (C.Adds(x.w.t, x'.w.t, s) || C.Moves(x.w.t, x'.w.t, s))
    && C.Sound(x'.w, x'.claimedAt)
    && x'.lives == C.Lives(x.lives, x.born, x.w.t, x'.w.t) && x'.born == x.born + 1
    && x'.workers == x.workers && x'.mails == x.mails && x.owners <= x'.owners
  }

  lemma MovedShifts(x: Office, s: Service.Step)
    requires Sound(x) && Service.Possible(x.w, s)
    ensures Shifts(x, Moved(x, s), s)
  {
    C.StepKeepsRows(x.w, s, x.claimedAt, Service.Next(x.w, s));
    assert forall id :: id in x.w.t.challenges ==> C.Row(x.w, x.claimedAt, id);
    C.StepMoves(x.w, s);
  }

  /** A row of the new tables was there before, or was just created as a new life. */
  lemma RowComesFrom(x: Office, x': Office, s: Service.Step, id: Id)
    requires Sound(x) && Shifts(x, x', s) && id in x'.w.t.challenges
    ensures id in x'.lives
    ensures id in x.w.t.challenges ==> id in x.lives && x'.lives[id] == x.lives[id] < x.born
    ensures id !in x.w.t.challenges ==> x'.lives[id] == x.born && x'.w.t.challenges[id].state == A.Requested
    ensures id in x.w.t.challenges ==>
              var c, c' := x.w.t.challenges[id], x'.w.t.challenges[id];
              && (c'.state == A.Requested && c.state != A.Requested ==>
                  c.state == A.Delivering && s.op.Defer? && id == s.op.id && A.Owns(c, s.op.owner))
              && (c'.state == A.Delivering && c.state != A.Delivering ==>
                  c.state == A.Requested && s.op.Claim? && id in s.op.pick && A.Owns(c', s.op.owner))
              && (c'.state == A.Delivering && c.state == A.Delivering ==> c'.lease == c.lease)
  {
    if id in x.w.t.challenges {
      assert RowOk(x, id) && C.Row(x.w, x.claimedAt, id);
    }
    if C.Moves(x.w.t, x'.w.t, s) {
      assert C.RowMoves(x.w.t, x'.w.t, id, s);
    }
  }

  lemma LivesStayApart(x: Office, x': Office, s: Service.Step, id: Id, other: Id)
    requires Sound(x) && Shifts(x, x', s) && id in x'.w.t.challenges && other in x'.w.t.challenges
    requires other in x'.lives && id in x'.lives && x'.lives[other] == x'.lives[id]
    ensures other == id
  {
    RowComesFrom(x, x', s, id);
    RowComesFrom(x, x', s, other);
    if C.Moves(x.w.t, x'.w.t, s) {
      assert C.RowMoves(x.w.t, x'.w.t, id, s) && C.RowMoves(x.w.t, x'.w.t, other, s);
    }
    if id in x.w.t.challenges && other in x.w.t.challenges {
      assert RowOk(x, id);
    }
  }

  lemma WorkersStayOk(x: Office, x': Office, s: Service.Step)
    requires Sound(x) && Shifts(x, x', s)
    ensures forall o :: o in x'.workers ==> WorkerOk(x', o)
  {
    forall o | o in x'.workers ensures WorkerOk(x', o) {
      assert WorkerOk(x, o);
      assert forall p :: Armed(x', p) <==> Armed(x, p);
    }
  }

  lemma WorkersAreKnown(x: Office)
    requires Sound(x)
    ensures x.workers.Keys <= x.owners
  {
    assert forall o :: o in x.workers ==> WorkerOk(x, o);
  }

  /** What must be known of the row a claim or a defer moves; other rows take care of
      themselves. */
  lemma RowStaysOk(x: Office, x': Office, s: Service.Step, id: Id)
    requires Sound(x) && Shifts(x, x', s) && id in x'.w.t.challenges
    requires s.op.Claim? ==> s.op.owner in x'.owners && s.op.owner !in x.workers
    requires (s.op.Defer? && id == s.op.id && id in x.w.t.challenges && id in x.lives
              && A.Owns(x.w.t.challenges[id], s.op.owner)) ==>
               AllRefused(x.mails, x.lives[id]) && forall o :: Armed(x, o) ==> x.workers[o].life != x.lives[id]
    ensures RowOk(x', id)
  {
    RowComesFrom(x, x', s, id);
    assert forall o :: Armed(x', o) <==> Armed(x, o);
    forall other | other in x'.w.t.challenges && other in x'.lives && x'.lives[other] == x'.lives[id]
        ensures other == id {
      LivesStayApart(x, x', s, id, other);
    }
    if id in x.w.t.challenges {
      assert RowOk(x, id) && C.Row(x'.w, x'.claimedAt, id);
    } else {
      NewLifeIsClean(x, x.born);
    }
  }

  lemma NewLifeIsClean(x: Office, life: nat)
    requires Sound(x) && life >= x.born
    ensures AllRefused(x.mails, life) && forall o :: Armed(x, o) ==> x.workers[o].life != life
  {
    forall o | Armed(x, o) ensures x.workers[o].life != life {
      assert WorkerOk(x, o);
    }
  }

  /** A transaction that is neither a claim nor a defer. */
  lemma ElsewhereIsSound(x: Office, x': Office, s: Service.Step)
    requires Sound(x) && Shifts(x, x', s) && !s.op.Claim? && !s.op.Defer?
    ensures Sound(x')
  {
    WorkersStayOk(x, x', s);
    forall id | id in x'.w.t.challenges ensures RowOk(x', id) {
      RowStaysOk(x, x', s, id);
    }
  }

  /** A defer by a worker whose mail was temporarily refused. */
  lemma DeferIsSound(x: Office, x': Office, s: Service.Step)
    requires Sound(x) && Shifts(x, x', s) && s.op.Defer?
    requires s.op.owner in x.workers && x.workers[s.op.owner].phase.Sent?
    requires Smtp.Temporary(x.workers[s.op.owner].phase.error)
    ensures Sound(x')
  {
    WorkersStayOk(x, x', s);
    forall id | id in x'.w.t.challenges ensures RowOk(x', id) {
      if id in x.w.t.challenges {
        assert RowOk(x, id);
      }
      RowStaysOk(x, x', s, id);
    }
  }

  /** A claim under a fresh owner, before its worker takes up the lease. */
  lemma ClaimIsSound(x: Office, y: Office, s: Service.Step)
    requires Sound(x) && Shifts(x, y, s) && s.op.Claim? && s.op.owner !in x.owners && s.op.owner in y.owners
    ensures Sound(y)
    ensures forall id :: id in Held(y, s.op.owner, s.op.pick) ==>
              AllRefused(y.mails, y.lives[id]) && forall o :: Armed(y, o) ==> y.workers[o].life != y.lives[id]
  {
    WorkersStayOk(x, y, s);
    WorkersAreKnown(x);
    forall id | id in y.w.t.challenges ensures RowOk(y, id) {
      RowStaysOk(x, y, s, id);
    }
    forall id | id in Held(y, s.op.owner, s.op.pick)
      ensures AllRefused(y.mails, y.lives[id]) && forall o :: Armed(y, o) ==> y.workers[o].life != y.lives[id]
    {
      RowComesFrom(x, y, s, id);
      if id in x.w.t.challenges {
        assert RowOk(x, id);
      }
      assert forall o :: Armed(y, o) <==> Armed(x, o);
    }
  }

  lemma TakeUpIsSound(y: Office, x': Office, owner: Id, id: Id)
    requires Sound(y) && owner in y.owners && owner !in y.workers
    requires id in y.w.t.challenges && id in y.lives && A.Owns(y.w.t.challenges[id], owner)
    requires AllRefused(y.mails, y.lives[id]) && forall o :: Armed(y, o) ==> y.workers[o].life != y.lives[id]
    requires x' == y.(workers := y.workers[owner := Worker(id, y.lives[id], Claimed)])
    requires forall other :: other in y.w.t.challenges && A.Owns(y.w.t.challenges[other], owner) ==> other == id
    ensures Sound(x')
  {
    assert RowOk(y, id);
    assert forall o :: Armed(x', o) <==> Armed(y, o) || o == owner;
    forall o | o in x'.workers ensures WorkerOk(x', o) {
      assert o != owner ==> WorkerOk(y, o);
    }
    forall other | other in x'.w.t.challenges ensures RowOk(x', other) {
      assert RowOk(y, other);
    }
  }

  /** A fresh owner holds only what its own claim leased. */
  lemma FreshOwnerHoldsPick(x: Office, y: Office, s: Service.Step, id: Id)
    requires Sound(x) && Shifts(x, y, s) && s.op.Claim? && s.op.owner !in x.owners
    requires id in y.w.t.challenges && A.Owns(y.w.t.challenges[id], s.op.owner)
    ensures id in Held(y, s.op.owner, s.op.pick)
  {
    RowComesFrom(x, y, s, id);
    if id in x.w.t.challenges {
      assert RowOk(x, id);
    }
  }

  lemma ClaimsIsSound(x: Office, ev: Event)
    requires Sound(x) && Possible(x, ev) && ev.Claims?
    ensures Sound(Next(x, ev))
  {
    var s := StepOf(x, ev).value;
    var y := Moved(x, s).(owners := x.owners + {ev.owner});
    MovedShifts(x, s);
    assert Shifts(x, y, s);
    ClaimIsSound(x, y, s);
    if Held(y, ev.owner, ev.pick) != {} {
      var x' := Next(x, ev);
      var id := x'.workers[ev.owner].challenge;
      A.PickIsQueued(x.w.t, ev.products, ev.now, ev.pick, id);
      forall other | other in y.w.t.challenges && A.Owns(y.w.t.challenges[other], ev.owner) ensures other == id {
        FreshOwnerHoldsPick(x, y, s, other);
      }
      WorkersAreKnown(x);
      TakeUpIsSound(y, x', ev.owner, id);
    }
  }

  lemma StepIsSound(x: Office, ev: Event)
    requires Sound(x) && Possible(x, ev)
    ensures Sound(Next(x, ev))
  {
    var x' := Next(x, ev);
    match ev
    case Elsewhere(s) =>
      MovedShifts(x, s);
      ElsewhereIsSound(x, x', s);
    case Claims(_, _, _, _, _) => ClaimsIsSound(x, ev);
    case Rechecks(owner, now) =>
      if StillMine(x.w.t, x.workers[owner].challenge, owner, now) {
        RecheckIsSound(x, x', owner);
      } else {
        WorkersShrink(x, x', owner);
      }
    case GivesUp(owner, _) => ReportIsSound(x, ev);
    case Sends(owner, d) => SendIsSound(x, x', owner, d);
    case Reports(owner, _, _) => ReportIsSound(x, ev);
    case Stops(owner) => WorkersShrink(x, x', owner);
  }

  lemma ReportIsSound(x: Office, ev: Event)
    requires Sound(x) && Possible(x, ev) && (ev.Reports? || ev.GivesUp?)
    ensures Sound(Next(x, ev))
  {
    var s := StepOf(x, ev).value;
    var y := Moved(x, s);
    MovedShifts(x, s);
    if s.op.Defer? {
      DeferIsSound(x, y, s);
    } else {
      ElsewhereIsSound(x, y, s);
    }
    WorkersShrink(y, Next(x, ev), ev.owner);
  }

  lemma {:induction false} RunIsSound(keys: Registry.Keyring, events: seq<Event>)
    requires Legal(keys, events)
    ensures Sound(Run(keys, events))
    decreases |events|
  {
    if events != [] {
      RunIsSound(keys, events[..|events| - 1]);
      StepIsSound(Run(keys, events[..|events| - 1]), events[|events| - 1]);
    }
  }

  // ----------------------------------------------------------------- main results

  /** In every run, every submission for one life of a challenge except possibly the last
      ended in a definite temporary refusal. */
  lemma OnlyRefusedMailIsRepeated(keys: Registry.Keyring, events: seq<Event>, i: nat, j: nat)
    requires Legal(keys, events) && i < j < |Run(keys, events).mails|
    requires Run(keys, events).mails[i].life == Run(keys, events).mails[j].life
    ensures Smtp.Temporary(Smtp.Outcome(Run(keys, events).mails[i].dialogue))
  {
    RunIsSound(keys, events);
  }

  /** So at most one mail of each life was ever taken by a mail server, whatever the workers
      knew of it. */
  lemma AtMostOneMailIsTaken(keys: Registry.Keyring, events: seq<Event>, i: nat, j: nat)
    requires Legal(keys, events) && i < |Run(keys, events).mails| && j < |Run(keys, events).mails|
    requires Run(keys, events).mails[i].life == Run(keys, events).mails[j].life
    requires Run(keys, events).mails[i].dialogue.kept && Run(keys, events).mails[j].dialogue.kept
    ensures i == j
  {
    RunIsSound(keys, events);
    var mails := Run(keys, events).mails;
    if i < j {
      Smtp.TemporaryMeansNotTaken(mails[i].dialogue);
    } else if j < i {
      Smtp.TemporaryMeansNotTaken(mails[j].dialogue);
    }
  }

  // --------------------------------------------------- what is stored is what happened

  /** What a report makes of the row its worker still holds, given what became of the mail:
      delivered exactly if every reply was a success, and then the message was taken; failed
      only if it was not taken; uncertain exactly if the replies fit both. Unless the mail
      failed for good its code stays provable. */
  ghost predicate Truthful(c: A.Challenge, c': A.Challenge, d: Smtp.Dialogue) {
    && (c'.state == A.Delivered <==> Smtp.Taken(d))
    && (c'.state == A.Delivered ==> d.kept)
    && (c'.state == A.DeliveryFailed ==> !d.kept)
    && (c'.state == A.Uncertain <==> Smtp.Consistent(d.(kept := true)) && Smtp.Consistent(d.(kept := false)))
    && (c'.state in {A.Delivered, A.Uncertain} ==>
          c'.code == c.code && c'.code.Some? && c'.expiresAt == c.expiresAt && c'.attempts == c.attempts)
    && (!Smtp.Temporary(Smtp.Outcome(d)) ==> c'.state in {A.Delivered, A.DeliveryFailed, A.Uncertain})
    && (Smtp.Temporary(Smtp.Outcome(d)) ==> c'.state in {A.Requested, A.Expired} || c' == c)
  }

  /** In every run, a worker that reports while it still holds its challenge stores what
      became of its mail. */
  lemma ReportsAreTruthful(keys: Registry.Keyring, events: seq<Event>, owner: Id, now: Time, retryAt: Time)
    requires Legal(keys, events) && Possible(Run(keys, events), Reports(owner, now, retryAt))
    requires var x := Run(keys, events);
      var id := x.workers[owner].challenge;
      id in x.w.t.challenges && A.Owns(x.w.t.challenges[id], owner)
    ensures var x, y := Run(keys, events), Next(Run(keys, events), Reports(owner, now, retryAt));
      var job := x.workers[owner];
      && job.phase.mail < |x.mails| && x.mails[job.phase.mail].life == job.life
      && job.challenge in y.w.t.challenges
      && Truthful(x.w.t.challenges[job.challenge], y.w.t.challenges[job.challenge], x.mails[job.phase.mail].dialogue)
  {
    RunIsSound(keys, events);
    var x := Run(keys, events);
    var job := x.workers[owner];
    assert WorkerOk(x, owner) && C.Row(x.w, x.claimedAt, job.challenge);
    var d := x.mails[job.phase.mail].dialogue;
    if Smtp.Temporary(job.phase.error) {
      DeferIsTruthful(x.w.t, job.challenge, owner, retryAt, now, d);
    } else {
      FinishIsTruthful(x.w.t, job.challenge, owner, d);
    }
    ReportSteps(x, owner, now, retryAt);
  }

  /** The tables after a report are those its one transaction commits. */
  lemma ReportSteps(x: Office, owner: Id, now: Time, retryAt: Time)
    requires Possible(x, Reports(owner, now, retryAt))
    ensures var job, y := x.workers[owner], Next(x, Reports(owner, now, retryAt));
      y.w.t == ReportedTables(x.w.t, job, owner, now, retryAt)
  {
  }

  function ReportedTables(t: A.Tables, job: Worker, owner: Id, now: Time, retryAt: Time): A.Tables
    requires job.phase.Sent?
  {
    var r :=
      if Smtp.Temporary(job.phase.error) then A.Defer(t, job.challenge, owner, retryAt, now)
      else A.Finish(t, job.challenge, owner, Verdict(job.phase.error));
    if r.Ok? then r.value else t
  }

  lemma FinishIsTruthful(t: A.Tables, id: Id, owner: Id, d: Smtp.Dialogue)
    requires id in t.challenges && A.Owns(t.challenges[id], owner) && C.Shape(t.challenges[id])
    requires Smtp.Consistent(d) && !Smtp.Temporary(Smtp.Outcome(d))
    ensures A.Finish(t, id, owner, Verdict(Smtp.Outcome(d))).Ok?
    ensures var t' := A.Finish(t, id, owner, Verdict(Smtp.Outcome(d))).value;
      id in t'.challenges && Truthful(t.challenges[id], t'.challenges[id], d)
      && t' == t.(challenges := t.challenges[id := t'.challenges[id]])
  {
    Smtp.UncertainIffUnknown(d);
  }

  lemma DeferIsTruthful(t: A.Tables, id: Id, owner: Id, retryAt: Time, now: Time, d: Smtp.Dialogue)
    requires id in t.challenges && A.Owns(t.challenges[id], owner)
    requires Smtp.Consistent(d) && Smtp.Temporary(Smtp.Outcome(d))
    ensures var r := A.Defer(t, id, owner, retryAt, now);
      var t' := if r.Ok? then r.value else t;
      id in t'.challenges && Truthful(t.challenges[id], t'.challenges[id], d)
  {
    Smtp.UncertainIffUnknown(d);
    Smtp.TemporaryMeansNotTaken(d);
  }

  /** A worker goes on to send only if, when it looks again, the challenge is still being
      delivered under its own lease and neither lease nor code has expired. */
  lemma RecheckStopsTheStale(keys: Registry.Keyring, events: seq<Event>, owner: Id, now: Time)
    requires Legal(keys, events) && Possible(Run(keys, events), Rechecks(owner, now))
    ensures var x, y := Run(keys, events), Next(Run(keys, events), Rechecks(owner, now));
      var id := x.workers[owner].challenge;
      Armed(y, owner) <==>
        && id in x.w.t.challenges && x.w.t.challenges[id].state == A.Delivering
        && x.w.t.challenges[id].lease.Some? && x.w.t.challenges[id].lease.value.owner == owner
        && now < x.w.t.challenges[id].lease.value.until && now < x.w.t.challenges[id].expiresAt
  {
  }
}
