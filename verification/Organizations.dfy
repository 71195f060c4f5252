/** Canonical organizations, their merges, and the submissions and memberships that point
    at them (internal/store/organizations.go).

    A merge rewrites every reference to the source organization at once. The claim proved
    here is that this eager rewriting always agrees with following merged_into pointers
    from the organization each row was first attached to. */
module Organizations {
  import opened Common
  import Registry

  datatype Organization = Organization(active: bool, mergedInto: Option<Id>)

  datatype SubmissionStatus = Pending | Reviewed(verdict: Id) | Merged
  datatype Submission = Submission(person: Option<Id>, product: Id, status: SubmissionStatus, canonical: Option<Id>)

  /** Primary key (person_id, organization_id, product_id). */
  datatype MemberKey = MemberKey(person: Id, organization: Id, product: Id)
  /** What a membership is about: role, status and the time it holds. */
  datatype Terms = Terms(role: Option<Id>, status: Id, started: Option<Time>, ended: Option<Time>)
  datatype Member = Member(id: Id, terms: Terms, version: nat)

  /** A row of organization_merge_audit. */
  datatype Merge = Merge(source: Id, target: Id)

  datatype Tables = Tables(
    organizations: map<Id, Organization>,
    submissions: map<Id, Submission>,
    members: map<MemberKey, Member>,
    merges: seq<Merge>)

  const EMPTY: Tables := Tables(map[], map[], map[], [])

  // ------------------------------------------------------------- specification

  function ActiveOrganization(t: Tables, id: Id): Check {
    if id in t.organizations && t.organizations[id].active then Pass else Fail(NotFound)
  }

  function CreateOrganization(t: Tables, id: Id): Result<Tables> {
    if id in t.organizations then Err(Conflict) else
    Ok(t.(organizations := t.organizations[id := Organization(true, None)]))
  }

  function Submit(t: Tables, id: Id, person: Option<Id>, product: Id): Result<Tables> {
    if id in t.submissions then Err(Conflict) else
    Ok(t.(submissions := t.submissions[id := Submission(person, product, Pending, None)]))
  }

  function Resolve(t: Tables, id: Id, verdict: Id, organization: Option<Id>): Result<Tables> {
    var s :- Read(t.submissions, id);
    :- Need(s.status == Pending, NotFound);
    :- (if organization.Some? then ActiveOrganization(t, organization.value) else Pass);
    Ok(t.(submissions := t.submissions[id := s.(status := Reviewed(verdict), canonical := organization)]))
  }

  /** The person exists and is not deleted. */
  function ValidPerson(persons: map<Id, Registry.Person>, id: Id): Check {
    if id in persons && !persons[id].deleted then Pass else Fail(NotFound)
  }

  /** An existing row keeps its id and takes the new terms. */
  function Join(t: Tables, persons: map<Id, Registry.Person>, key: MemberKey, id: Id, terms: Terms): Result<Tables> {
    var organization := ActiveOrganization(t, key.organization);
    :- organization;
    :- ValidPerson(persons, key.person);
    if key in t.members then
      var m := t.members[key];
      Ok(t.(members := t.members[key := Member(m.id, terms, m.version + 1)]))
    else
      Ok(t.(members := t.members[key := Member(id, terms, 1)]))
  }

  function Repoint(s: Submission, source: Id, target: Id): Submission {
    if s.canonical == Some(source) then s.(canonical := Some(target), status := Merged) else s
  }

  function RepointAll(submissions: map<Id, Submission>, source: Id, target: Id): map<Id, Submission> {
    map id | id in submissions :: Repoint(submissions[id], source, target)
  }

  function Rehome(key: MemberKey, source: Id, target: Id): MemberKey {
    if key.organization == source then key.(organization := target) else key
  }

  /** The keys left after moving every row of `source` to `target`. */
  function RehomedKeys(keys: set<MemberKey>, source: Id, target: Id): set<MemberKey> {
    set k | k in keys :: Rehome(k, source, target)
  }

  /** The memberships after a merge. A person who already belongs to the target keeps the
      target's row; any other row moves with its id and terms, at version one. */
  function Rehomed(members: map<MemberKey, Member>, source: Id, target: Id): map<MemberKey, Member>
    requires source != target
  {
    map k | k in RehomedKeys(members.Keys, source, target) ::
      if k in members then members[k] else
        var moved := k.(organization := source);
        if moved in members then members[moved].(version := 1) else Member(0, Terms(None, 0, None, None), 0)
  }

  function MergeInto(t: Tables, source: Id, target: Id): Result<Tables> {
    if source == target then Err(Invalid) else
    :- ActiveOrganization(t, target);
    :- ActiveOrganization(t, source);
    Ok(Tables(
      t.organizations[source := Organization(false, Some(target))],
      RepointAll(t.submissions, source, target),
      Rehomed(t.members, source, target),
      t.merges + [Merge(source, target)]))
  }

  /** The part of a privacy erasure that reaches these tables. */
  function Erase(t: Tables, person: Id, product: Option<Id>): Tables {
    t.(submissions := map id | id in t.submissions && !ErasedSubmission(t.submissions[id], person, product) ::
        t.submissions[id],
       members := map k | k in t.members && !ErasedKey(k, person, product) :: t.members[k])
  }

  predicate ErasedSubmission(s: Submission, person: Id, product: Option<Id>) {
    s.person == Some(person) && (product.Some? ==> s.product == product.value)
  }

  predicate ErasedKey(k: MemberKey, person: Id, product: Option<Id>) {
    k.person == person && (product.Some? ==> k.product == product.value)
  }

  // -------------------------------------------------------- the transactions

  class OrganizationStore {
    var organizations: map<Id, Organization>
    var submissions: map<Id, Submission>
    var members: map<MemberKey, Member>
    var merges: seq<Merge>

    ghost function View(): Tables
      reads this
    {
      Tables(organizations, submissions, members, merges)
    }

    constructor ()
      ensures View() == EMPTY
    {
      organizations, submissions, members, merges := map[], map[], map[], [];
    }

    method IsActive(id: Id) returns (active: bool)
      ensures active == ActiveOrganization(View(), id).Pass?
    {
      if id !in organizations {
        return false;
      }
      active := organizations[id].active;
    }

    method ResolveSubmission(id: Id, verdict: Id, organization: Option<Id>) returns (r: Result<()>)
      modifies this
      ensures var spec := Resolve(old(View()), id, verdict, organization);
        if spec.Ok? then r == Ok(()) && View() == spec.value else r == Err(spec.error) && View() == old(View())
    {
      if id !in submissions || submissions[id].status != Pending {
        return Err(NotFound);
      }
      if organization.Some? {
        var active := IsActive(organization.value);
        if !active {
          return Err(NotFound);
        }
      }
      submissions := submissions[id := submissions[id].(status := Reviewed(verdict), canonical := organization)];
      return Ok(());
    }

    method CreateMembership(
        persons: map<Id, Registry.Person>, key: MemberKey, id: Id, terms: Terms) returns (r: Result<()>)
      modifies this
      ensures var spec := Join(old(View()), persons, key, id, terms);
        if spec.Ok? then r == Ok(()) && View() == spec.value else r == Err(spec.error) && View() == old(View())
    {
      var active := IsActive(key.organization);
      if !active {
        return Err(NotFound);
      }
      if key.person !in persons || persons[key.person].deleted {
        return Err(NotFound);
      }
      if key in members {
        var version := members[key].version;
        members := members[key := Member(members[key].id, terms, version + 1)];
      } else {
        members := members[key := Member(id, terms, 1)];
      }
      return Ok(());
    }

    method MergeOrganization(source: Id, target: Id) returns (r: Result<()>)
      modifies this
      ensures var spec := MergeInto(old(View()), source, target);
        if spec.Ok? then r == Ok(()) && View() == spec.value else r == Err(spec.error) && View() == old(View())
    {
      if source == target {
        return Err(Invalid);
      }
      var active := IsActive(target);
      if !active {
        return Err(NotFound);
      }
      active := IsActive(source);
      if !active {
        return Err(NotFound);
      }
      organizations := organizations[source := Organization(false, Some(target))];
      merges := merges + [Merge(source, target)];
      UpdateSubmissions(source, target);
      MoveMemberships(source, target);
      return Ok(());
    }

    /** UPDATE organization_submissions ... WHERE canonical_organization_id = source. */
    method UpdateSubmissions(source: Id, target: Id)
      modifies this`submissions
      ensures submissions == RepointAll(old(submissions), source, target)
    {
      var before, rest := submissions, submissions.Keys;
      while rest != {}
        invariant rest <= before.Keys == submissions.Keys
        invariant forall id :: id in rest ==> submissions[id] == before[id]
        invariant forall id :: id in before.Keys - rest ==> submissions[id] == Repoint(before[id], source, target)
        decreases rest
      {
        var id :| id in rest;
        if submissions[id].canonical == Some(source) {
          submissions := submissions[id := submissions[id].(canonical := Some(target), status := Merged)];
        }
        rest := rest - {id};
      }
    }

    /** Reads the source's rows, then for each inserts it under the target unless the
        target has one, and deletes it under the source. */
    method MoveMemberships(source: Id, target: Id)
      requires source != target
      modifies this`members
      ensures members == Rehomed(old(members), source, target)
    {
      var before := members;
      var rows := set k | k in members && k.organization == source;
      var rest := rows;
      while rest != {}
        invariant rest <= rows
        invariant Moved(before, members, rows - rest, source, target)
        decreases rest
      {
        var k :| k in rest;
        var under := k.(organization := target);
        MoveOne(before, members, rows - rest, k, source, target);
        if under !in members {
          members := members[under := before[k].(version := 1)];
        }
        members := members - {k};
        rest := rest - {k};
        assert rows - rest == (rows - (rest + {k})) + {k};
      }
      AllMoved(before, members, source, target);
    }
  }

  /** The row under a key: the one that was there, or the one that came from the source. */
  ghost predicate MovedRow(before: map<MemberKey, Member>, row: Member, k: MemberKey, source: Id) {
    if k in before then row == before[k]
    else k.(organization := source) in before && row == before[k.(organization := source)].(version := 1)
  }

  /** Where a membership table stands once the rows in `done` have been moved. */
  ghost predicate Moved(
      before: map<MemberKey, Member>, now: map<MemberKey, Member>, done: set<MemberKey>, source: Id, target: Id) {
    forall k ::
      && (k in now <==> (k in before && k !in done) || (k.organization == target && k.(organization := source) in done))
      && (k in now ==> MovedRow(before, now[k], k, source))
  }

  lemma MoveOne(
      before: map<MemberKey, Member>, now: map<MemberKey, Member>, done: set<MemberKey>, k: MemberKey, source: Id,
      target: Id)
    requires source != target && Moved(before, now, done, source, target)
    requires forall d :: d in done ==> d.organization == source
    requires k in before && k.organization == source && k !in done
    ensures var under := k.(organization := target);
      var widened := if under in now then now else now[under := before[k].(version := 1)];
      Moved(before, widened - {k}, done + {k}, source, target)
  {
    var under := k.(organization := target);
    assert under.(organization := source) == k;
    var widened := if under in now then now else now[under := before[k].(version := 1)];
    var after := widened - {k};
    forall x
      ensures (x in after <==>
          (x in before && x !in done + {k}) || (x.organization == target && x.(organization := source) in done + {k}))
      ensures x in after ==> MovedRow(before, after[x], x, source)
    {
      if x.organization == target && x.(organization := source) == k {
        assert x == under;
      }
    }
  }

  lemma AllMoved(before: map<MemberKey, Member>, now: map<MemberKey, Member>, source: Id, target: Id)
    requires source != target
    requires Moved(before, now, (set k | k in before && k.organization == source), source, target)
    ensures now == Rehomed(before, source, target)
  {
    var rehomed := Rehomed(before, source, target);
    forall k ensures k in now <==> k in rehomed {
      if k in now && k !in before {
        assert Rehome(k.(organization := source), source, target) == k;
      }
      if k in now && k in before {
        assert Rehome(k, source, target) == k;
      }
      if k in rehomed {
        var from :| from in before && Rehome(from, source, target) == k;
      }
    }
    assert now.Keys == rehomed.Keys;
  }

  // ------------------------------------------------- following merged_into lazily

  /** Position of the merge that retired `id`, or the number of merges if none did. */
  function MergedAt(merges: seq<Merge>, id: Id): (at: nat)
    ensures at <= |merges|
  {
    if merges == [] then 0 else
      var last := |merges| - 1;
      if merges[last].source == id then last else
        var at := MergedAt(merges[..last], id);
        if at == last then last + 1 else at
  }

  /** Pointers lead only from an organization to one that was retired later or not at all. */
  ghost predicate Forest(t: Tables) {
    forall id :: id in t.organizations ==> Rooted(t, id)
  }

  ghost predicate Rooted(t: Tables, id: Id)
    requires id in t.organizations
  {
    var o := t.organizations[id];
    match o.mergedInto
    case None => o.active && MergedAt(t.merges, id) == |t.merges|
    case Some(parent) =>
      && !o.active
      && parent in t.organizations
      && MergedAt(t.merges, id) < MergedAt(t.merges, parent)
  }

  /** Follows merged_into from `id` until an active organization. */
  function Chase(t: Tables, id: Id): Id
    requires Forest(t) && id in t.organizations
    decreases |t.merges| - MergedAt(t.merges, id)
  {
    var o := t.organizations[id];
    if o.active then id else Chase(t, o.mergedInto.value)
  }

  /** What an organization became after the listed merges, each applied at once to
      whatever stood on its source. */
  function Became(merges: seq<Merge>, id: Id): Id {
    if merges == [] then id else
      var last := merges[|merges| - 1];
      var r := Became(merges[..|merges| - 1], id);
      if r == last.source then last.target else r
  }

  /** One pointer hop; an organization without a pointer stays. */
  function Up(t: Tables, id: Id): Id {
    if id in t.organizations && t.organizations[id].mergedInto.Some? then t.organizations[id].mergedInto.value else id
  }

  /** `n` pointer hops. */
  function Climb(t: Tables, id: Id, n: nat): Id {
    if n == 0 then id else Up(t, Climb(t, id, n - 1))
  }

  /** Eager replay and pointer following meet at the same active organization. */
  ghost predicate Agrees(t: Tables) {
    && Forest(t)
    && forall id :: id in t.organizations ==> Rooted(t, id) && AgreesAt(t, id)
  }

  ghost predicate AgreesAt(t: Tables, id: Id)
    requires id in t.organizations && Rooted(t, id)
  {
    && Became(t.merges, id) in t.organizations
    && t.organizations[Became(t.merges, id)].active
    && (t.organizations[id].active ==> Became(t.merges, id) == id)
    && (!t.organizations[id].active ==>
         Became(t.merges, id) == Became(t.merges, t.organizations[id].mergedInto.value))
  }

  lemma AppendMerge(merges: seq<Merge>, m: Merge, id: Id)
    ensures Became(merges + [m], id) == if Became(merges, id) == m.source then m.target else Became(merges, id)
    ensures MergedAt(merges + [m], id) ==
            if id == m.source then |merges|
            else if MergedAt(merges, id) == |merges| then |merges| + 1 else MergedAt(merges, id)
  {
    assert (merges + [m])[..|merges|] == merges;
  }

  lemma MergeKeepsAgreement(t: Tables, source: Id, target: Id)
    requires Agrees(t) && MergeInto(t, source, target).Ok?
    ensures Agrees(MergeInto(t, source, target).value)
  {
    var t' := MergeInto(t, source, target).value;
    forall id | id in t'.organizations ensures Rooted(t', id) && AgreesAt(t', id) {
      MergeKeepsAgreementAt(t, t', source, target, id);
    }
  }

  lemma MergeKeepsAgreementAt(t: Tables, t': Tables, source: Id, target: Id, id: Id)
    requires Agrees(t) && MergeInto(t, source, target).Ok? && id in t.organizations
    requires t'.organizations == t.organizations[source := Organization(false, Some(target))]
    requires t'.merges == t.merges + [Merge(source, target)]
    ensures Rooted(t', id) && AgreesAt(t', id)
  {
    var m := Merge(source, target);
    assert Rooted(t, id) && AgreesAt(t, id) && Rooted(t, source) && Rooted(t, target);
    AppendMerge(t.merges, m, id);
    AppendMerge(t.merges, m, source);
    AppendMerge(t.merges, m, target);
    assert AgreesAt(t, source) && AgreesAt(t, target);
    if t.organizations[id].mergedInto.Some? {
      var parent := t.organizations[id].mergedInto.value;
      assert Rooted(t, parent) && AgreesAt(t, parent);
      AppendMerge(t.merges, m, parent);
    }
  }

  lemma {:induction false} ChaseIsBecame(t: Tables, id: Id)
    requires Agrees(t) && id in t.organizations
    ensures Chase(t, id) == Became(t.merges, id)
    decreases |t.merges| - MergedAt(t.merges, id)
  {
    if !t.organizations[id].active {
      ChaseIsBecame(t, t.organizations[id].mergedInto.value);
    }
  }

  /** A chain of pointers never comes back: each hop from a merged organization moves to a
      later retirement. */
  lemma {:induction false} NoCycles(t: Tables, id: Id, n: nat)
    requires Forest(t) && id in t.organizations && n > 0
    ensures Climb(t, id, n) in t.organizations
    ensures !t.organizations[id].active ==> MergedAt(t.merges, id) < MergedAt(t.merges, Climb(t, id, n))
    ensures !t.organizations[id].active ==> Climb(t, id, n) != id
  {
    if n > 1 {
      NoCycles(t, id, n - 1);
    } else {
      assert Climb(t, id, 0) == id;
    }
  }

  lemma HopKeepsEnd(t: Tables, id: Id)
    requires Agrees(t) && id in t.organizations
    ensures Up(t, id) in t.organizations && Became(t.merges, Up(t, id)) == Became(t.merges, id)
  {
    assert Rooted(t, id) && AgreesAt(t, id);
  }

  lemma {:induction false} ClimbKeepsEnd(t: Tables, id: Id, n: nat)
    requires Agrees(t) && id in t.organizations
    ensures Climb(t, id, n) in t.organizations
    ensures Became(t.merges, Climb(t, id, n)) == Became(t.merges, id)
  {
    if n > 0 {
      ClimbKeepsEnd(t, id, n - 1);
      HopKeepsEnd(t, Climb(t, id, n - 1));
    }
  }

  /** Every active organization reachable from `id` is the one `Chase` returns. */
  lemma ActiveRootIsUnique(t: Tables, id: Id, n: nat)
    requires Agrees(t) && id in t.organizations
    ensures Climb(t, id, n) in t.organizations
    ensures Became(t.merges, Climb(t, id, n)) == Became(t.merges, id)
    ensures t.organizations[Climb(t, id, n)].active ==> Climb(t, id, n) == Chase(t, id)
  {
    ClimbKeepsEnd(t, id, n);
    var up := Climb(t, id, n);
    ChaseIsBecame(t, id);
    ChaseIsBecame(t, up);
    assert t.organizations[up].active ==> Chase(t, up) == up;
  }

  // ---------------------------------------------------------------- whole runs

  datatype Op =
    | OpCreate(id: Id)
    | OpSubmit(id: Id, submitter: Option<Id>, product: Id)
    | OpResolve(id: Id, verdict: Id, organization: Option<Id>)
    | OpJoin(persons: map<Id, Registry.Person>, key: MemberKey, id: Id, terms: Terms)
    | OpMerge(source: Id, target: Id)
    | OpErase(person: Id, within: Option<Id>)

  /** The tables, with the organization each surviving row was first attached to. */
  datatype Trace = Trace(t: Tables, reviewed: map<Id, Option<Id>>, joined: set<MemberKey>)

  function Apply(t: Tables, op: Op): Result<Tables> {
    match op
    case OpCreate(id) => CreateOrganization(t, id)
    case OpSubmit(id, person, product) => Submit(t, id, person, product)
    case OpResolve(id, verdict, organization) => Resolve(t, id, verdict, organization)
    case OpJoin(persons, key, id, terms) => Join(t, persons, key, id, terms)
    case OpMerge(source, target) => MergeInto(t, source, target)
    case OpErase(person, product) => Ok(Erase(t, person, product))
  }

  /** A refused transaction leaves everything as it was. */
  function Next(h: Trace, op: Op): Trace {
    var r := Apply(h.t, op);
    if r.Err? then h else
      match op
      case OpSubmit(id, _, _) => h.(t := r.value, reviewed := h.reviewed[id := None])
      case OpResolve(id, _, organization) => h.(t := r.value, reviewed := h.reviewed[id := organization])
      case OpJoin(_, key, _, _) => h.(t := r.value, joined := h.joined + {key})
      case OpErase(person, product) =>
        Trace(r.value,
              map id | id in h.reviewed && id in r.value.submissions :: h.reviewed[id],
              set k | k in h.joined && !ErasedKey(k, person, product))
      case _ => h.(t := r.value)
  }

  function Run(ops: seq<Op>): Trace {
    if ops == [] then Trace(EMPTY, map[], {}) else Next(Run(ops[..|ops| - 1]), ops[|ops| - 1])
  }

  function Settled(merges: seq<Merge>, k: MemberKey): MemberKey {
    k.(organization := Became(merges, k.organization))
  }

  function SettledKeys(merges: seq<Merge>, joined: set<MemberKey>): set<MemberKey> {
    set k | k in joined :: Settled(merges, k)
  }

  /** Every row sits where its first organization has ended up. */
  ghost predicate Attached(h: Trace) {
    && h.t.submissions.Keys == h.reviewed.Keys
    && (forall id :: id in h.reviewed ==>
          match h.reviewed[id]
          case None => h.t.submissions[id].canonical == None
          case Some(first) =>
            && first in h.t.organizations
            && h.t.submissions[id].canonical == Some(Became(h.t.merges, first)))
    && (forall k :: k in h.joined ==> k.organization in h.t.organizations)
    && h.t.members.Keys == SettledKeys(h.t.merges, h.joined)
  }

  lemma MergeKeepsAttachment(h: Trace, source: Id, target: Id)
    requires Agrees(h.t) && Attached(h) && MergeInto(h.t, source, target).Ok?
    ensures Attached(Next(h, OpMerge(source, target)))
  {
    var h' := Next(h, OpMerge(source, target));
    assert h'.t.merges[..|h.t.merges|] == h.t.merges;
    forall k | k in h.joined
      ensures Settled(h'.t.merges, k) == Rehome(Settled(h.t.merges, k), source, target)
    {
    }
    forall x ensures x in h'.t.members <==> x in SettledKeys(h'.t.merges, h.joined) {
      if x in h'.t.members {
        var was :| was in h.t.members.Keys && Rehome(was, source, target) == x;
        var k :| k in h.joined && Settled(h.t.merges, k) == was;
        assert Settled(h'.t.merges, k) == x;
      }
      if x in SettledKeys(h'.t.merges, h.joined) {
        var k :| k in h.joined && Settled(h'.t.merges, k) == x;
        assert Settled(h.t.merges, k) in h.t.members.Keys;
      }
    }
  }

  lemma EraseKeepsAttachment(h: Trace, person: Id, product: Option<Id>)
    requires Attached(h)
    ensures Attached(Next(h, OpErase(person, product)))
  {
    var h' := Next(h, OpErase(person, product));
    forall x ensures x in h'.t.members <==> x in SettledKeys(h.t.merges, h'.joined) {
      if x in h'.t.members {
        var k :| k in h.joined && Settled(h.t.merges, k) == x;
        assert k in h'.joined;
      }
    }
  }

  lemma JoinKeepsAttachment(h: Trace, op: Op)
    requires Agrees(h.t) && Attached(h) && op.OpJoin? && Apply(h.t, op).Ok?
    ensures Attached(Next(h, op))
  {
    var h' := Next(h, op);
    assert Settled(h.t.merges, op.key) == op.key;
    assert SettledKeys(h.t.merges, h'.joined) == SettledKeys(h.t.merges, h.joined) + {op.key};
  }

  lemma CreateKeepsAgreement(t: Tables, id: Id)
    requires Agrees(t) && id !in t.organizations && MergesAreKnown(t)
    ensures Agrees(t.(organizations := t.organizations[id := Organization(true, None)]))
  {
    var t' := t.(organizations := t.organizations[id := Organization(true, None)]);
    NeverMerged(t.merges, id);
    forall x | x in t'.organizations ensures Rooted(t', x) && AgreesAt(t', x) {
      assert x != id ==> Rooted(t, x) && AgreesAt(t, x);
    }
  }

  /** Every merge on record names organizations that exist. */
  ghost predicate MergesAreKnown(t: Tables) {
    forall m :: m in t.merges ==> m.source in t.organizations && m.target in t.organizations
  }

  lemma {:induction false} NeverMerged(merges: seq<Merge>, id: Id)
    requires forall m :: m in merges ==> m.source != id
    ensures MergedAt(merges, id) == |merges| && Became(merges, id) == id
  {
    if merges != [] {
      NeverMerged(merges[..|merges| - 1], id);
    }
  }

  ghost predicate Sound(h: Trace) {
    Agrees(h.t) && MergesAreKnown(h.t) && Attached(h)
  }

  lemma QuietStepIsSound(h: Trace, op: Op)
    requires Sound(h) && (op.OpSubmit? || op.OpResolve?) && Apply(h.t, op).Ok?
    ensures Sound(Next(h, op))
  {
    var h' := Next(h, op);
    assert forall id :: id in h.t.organizations ==> Rooted(h.t, id) && AgreesAt(h.t, id);
    forall id | id in h'.t.organizations ensures Rooted(h'.t, id) && AgreesAt(h'.t, id) {
      assert Rooted(h.t, id) && AgreesAt(h.t, id);
    }
  }

  lemma SameOrganizations(t: Tables, t': Tables)
    requires Agrees(t) && MergesAreKnown(t) && t'.organizations == t.organizations && t'.merges == t.merges
    ensures Agrees(t') && MergesAreKnown(t')
  {
    forall id | id in t'.organizations ensures Rooted(t', id) && AgreesAt(t', id) {
      assert Rooted(t, id) && AgreesAt(t, id);
    }
  }

  lemma CreateIsSound(h: Trace, id: Id)
    requires Sound(h) && CreateOrganization(h.t, id).Ok?
    ensures Sound(Next(h, OpCreate(id)))
  {
    CreateKeepsAgreement(h.t, id);
    var h' := Next(h, OpCreate(id));
    assert h'.t.merges == h.t.merges && h'.t.members == h.t.members && h'.t.submissions == h.t.submissions;
  }

  lemma MergeIsSound(h: Trace, source: Id, target: Id)
    requires Sound(h) && MergeInto(h.t, source, target).Ok?
    ensures Sound(Next(h, OpMerge(source, target)))
  {
    MergeKeepsAgreement(h.t, source, target);
    MergeKeepsAttachment(h, source, target);
  }

  lemma StepIsSound(h: Trace, op: Op)
    requires Sound(h)
    ensures Sound(Next(h, op))
  {
    if Apply(h.t, op).Ok? {
      match op
      case OpCreate(id) => CreateIsSound(h, id);
      case OpSubmit(_, _, _) => QuietStepIsSound(h, op);
      case OpResolve(_, _, _) => QuietStepIsSound(h, op);
      case OpJoin(_, _, _, _) =>
        JoinKeepsAttachment(h, op);
        SameOrganizations(h.t, Next(h, op).t);
      case OpMerge(source, target) => MergeIsSound(h, source, target);
      case OpErase(person, product) =>
        EraseKeepsAttachment(h, person, product);
        SameOrganizations(h.t, Next(h, op).t);
    }
  }

  lemma {:induction false} RunIsSound(ops: seq<Op>)
    ensures Sound(Run(ops))
  {
    if ops != [] {
      RunIsSound(ops[..|ops| - 1]);
      StepIsSound(Run(ops[..|ops| - 1]), ops[|ops| - 1]);
    }
  }

  /** Whatever happened, a reviewed submission names the active organization that pointer
      following reaches from its first review, and the memberships are exactly the joined
      (person, product) pairs, each on the active root of the organization it joined. */
  lemma EagerAgreesWithLazy(ops: seq<Op>)
    ensures var h := Run(ops);
      && Forest(h.t)
      && h.t.submissions.Keys == h.reviewed.Keys
      && (forall id :: id in h.reviewed ==>
            match h.reviewed[id]
            case None => h.t.submissions[id].canonical == None
            case Some(first) => first in h.t.organizations && h.t.submissions[id].canonical == Some(Chase(h.t, first)))
      && (forall k :: k in h.joined ==> k.organization in h.t.organizations)
      && h.t.members.Keys == set k | k in h.joined :: k.(organization := Chase(h.t, k.organization))
  {
    RunIsSound(ops);
    SoundMeansChased(Run(ops));
  }

  lemma SoundMeansChased(h: Trace)
    requires Sound(h)
    ensures forall id :: id in h.reviewed && h.reviewed[id].Some? ==>
              h.t.submissions[id].canonical == Some(Chase(h.t, h.reviewed[id].value))
    ensures h.t.members.Keys == set k | k in h.joined :: k.(organization := Chase(h.t, k.organization))
  {
    forall id | id in h.t.organizations ensures Chase(h.t, id) == Became(h.t.merges, id) {
      ChaseIsBecame(h.t, id);
    }
    var chased := set k | k in h.joined :: k.(organization := Chase(h.t, k.organization));
    forall x ensures x in chased <==> x in SettledKeys(h.t.merges, h.joined) {
      if x in chased {
        var k :| k in h.joined && k.(organization := Chase(h.t, k.organization)) == x;
        assert Settled(h.t.merges, k) == x;
      }
      if x in SettledKeys(h.t.merges, h.joined) {
        var k :| k in h.joined && Settled(h.t.merges, k) == x;
        assert k.(organization := Chase(h.t, k.organization)) == x;
      }
    }
  }

  function Pairs(keys: set<MemberKey>): set<(Id, Id)> {
    set k | k in keys :: (k.person, k.product)
  }

  /** A merge neither loses nor invents a (person, product) pair, empties the source, and
      leaves at most one row per pair on the target. */
  lemma MergeConservesPairs(members: map<MemberKey, Member>, source: Id, target: Id)
    requires source != target
    ensures var after := Rehomed(members, source, target);
      && Pairs(after.Keys) == Pairs(members.Keys)
      && (forall k :: k in after ==> k.organization != source)
  {
    var after := Rehomed(members, source, target);
    forall k | k in members
      ensures (k.person, k.product) in Pairs(after.Keys)
    {
      var to := Rehome(k, source, target);
      assert to in after.Keys && (to.person, to.product) == (k.person, k.product);
    }
  }

  /** Rows elsewhere keep their content; a moved row keeps its own unless the target
      already had one for that person and product. */
  lemma MergeKeepsRows(members: map<MemberKey, Member>, source: Id, target: Id, k: MemberKey)
    requires source != target && k in members
    ensures var after := Rehomed(members, source, target);
      var to := Rehome(k, source, target);
      && to in after
      && (to in members ==> after[to] == members[to])
      && (to !in members ==> after[to] == members[k].(version := 1))
  {
    var to := Rehome(k, source, target);
    assert to in RehomedKeys(members.Keys, source, target);
    if to !in members {
      assert to.(organization := source) == k;
    }
  }

  // -------------------------------------------------------- what the rows themselves say

  /** The step of a run commits. */
  predicate Commits(ops: seq<Op>, op: Op) {
    Apply(Run(ops).t, op).Ok?
  }

  /** The membership of one person in one product and organization, looking back over the
      run: the terms last given, under the identifier first inserted; a merge hands the
      source's row over unless the target has its own. */
  function MemberOf(ops: seq<Op>, k: MemberKey): Option<Member> {
    if ops == [] then None else
      var before, last := ops[..|ops| - 1], ops[|ops| - 1];
      var known := MemberOf(before, k);
      if !Commits(before, last) then known else
        match last
        case OpJoin(_, key, id, terms) =>
          if key != k then known
          else if known.None? then Some(Member(id, terms, 1))
          else Some(Member(known.value.id, terms, known.value.version + 1))
        case OpMerge(source, target) =>
          if k.organization == source then None
          else if k.organization != target || known.Some? then known
          else
            (match MemberOf(before, k.(organization := source))
             case None => None
             case Some(m) => Some(Member(m.id, m.terms, 1)))
        case OpErase(person, within) =>
          if k.person == person && (within.None? || within.value == k.product) then None else known
        case _ => known
  }

  /** What one committed step makes of a submission. */
  function SubmissionAfter(known: Option<Submission>, op: Op, id: Id): Option<Submission> {
    match op
    case OpSubmit(added, person, product) =>
      if added == id then Some(Submission(person, product, Pending, None)) else known
    case OpResolve(reviewed, verdict, organization) =>
      if reviewed != id || known.None? then known
      else Some(Submission(known.value.person, known.value.product, Reviewed(verdict), organization))
    case OpMerge(source, target) =>
      if known.Some? && known.value.canonical == Some(source)
      then Some(Submission(known.value.person, known.value.product, Merged, Some(target))) else known
    case OpErase(person, within) =>
      if known.Some? && known.value.person == Some(person) && (within.None? || within.value == known.value.product)
      then None else known
    case _ => known
  }

  /** One submission, looking back over the run: reviewed once, and renamed by each merge of
      the organization it stands on. */
  function SubmissionOf(ops: seq<Op>, id: Id): Option<Submission> {
    if ops == [] then None else
      var before, last := ops[..|ops| - 1], ops[|ops| - 1];
      if Commits(before, last) then SubmissionAfter(SubmissionOf(before, id), last, id) else SubmissionOf(before, id)
  }

  function At<K, V>(table: map<K, V>, key: K): Option<V> {
    if key in table then Some(table[key]) else None
  }

  lemma MergedMember(members: map<MemberKey, Member>, source: Id, target: Id, k: MemberKey)
    requires source != target
    ensures var after := Rehomed(members, source, target);
      At(after, k) ==
        if k.organization == source then None
        else if k.organization != target || k in members then At(members, k)
        else if k.(organization := source) in members then
          Some(members[k.(organization := source)].(version := 1))
        else None
  {
    var keys := RehomedKeys(members.Keys, source, target);
    if k in members && k.organization != source {
      assert Rehome(k, source, target) == k;
    }
    var from := k.(organization := source);
    if from in members && k.organization == target {
      assert Rehome(from, source, target) == k;
    }
    if k in keys {
      var was :| was in members.Keys && Rehome(was, source, target) == k;
      assert was == k || was == from;
    }
  }

  /** In every run the membership table holds exactly what looking back says of each key. */
  lemma {:induction false} MembershipsAreAsGiven(ops: seq<Op>, k: MemberKey)
    ensures At(Run(ops).t.members, k) == MemberOf(ops, k)
  {
    if ops != [] {
      var before, last := ops[..|ops| - 1], ops[|ops| - 1];
      MembershipsAreAsGiven(before, k);
      if Commits(before, last) {
        match last
        case OpMerge(source, target) =>
          MembershipsAreAsGiven(before, k.(organization := source));
          MergedMember(Run(before).t.members, source, target, k);
        case _ =>
      }
    }
  }

  lemma SubmissionStep(t: Tables, op: Op, id: Id)
    requires Apply(t, op).Ok?
    ensures At(Apply(t, op).value.submissions, id) == SubmissionAfter(At(t.submissions, id), op, id)
  {
  }

  /** And the submission table likewise. */
  lemma {:induction false} SubmissionsAreAsGiven(ops: seq<Op>, id: Id)
    ensures At(Run(ops).t.submissions, id) == SubmissionOf(ops, id)
  {
    if ops != [] {
      var before, last := ops[..|ops| - 1], ops[|ops| - 1];
      SubmissionsAreAsGiven(before, id);
      if Commits(before, last) {
        SubmissionStep(Run(before).t, last, id);
      }
    }
  }

  /** When each transaction commits, in terms of the rows it needs. */
  lemma CommitsIff(t: Tables, op: Op)
    ensures Apply(t, op).Ok? <==>
      match op
      case OpCreate(id) => id !in t.organizations
      case OpSubmit(id, _, _) => id !in t.submissions
      case OpResolve(id, _, organization) =>
        && id in t.submissions && t.submissions[id].status == Pending
        && (organization.Some? ==> organization.value in t.organizations && t.organizations[organization.value].active)
      case OpJoin(persons, key, _, _) =>
        && key.organization in t.organizations && t.organizations[key.organization].active
        && key.person in persons && !persons[key.person].deleted
      case OpMerge(source, target) =>
        && source != target && source in t.organizations && t.organizations[source].active
        && target in t.organizations && t.organizations[target].active
      case OpErase(_, _) => true
  {
  }
}
