/** People, their email identities and blind indexes, accounts, installations and pairwise
    aliases (internal/store/identity.go, internal/store/aliases.go,
    internal/cryptokit/blind_index.go, and the erasure of these rows in
    internal/store/privacy_erasure.go).

    Every transaction is serializable, so a compare-and-swap on a row that the same
    transaction has just read cannot fail; row versions are left out here. */
module Registry {
  import opened Common

  datatype Scope = WithinProduct(product: Id) | Global

  /** A keyed digest. HMAC is taken to be free of collisions under one key version. */
  datatype Digest = Digest(version: nat, email: Id)

  /** The configured key versions in ascending order, as All enumerates them. */
  datatype Keyring = Keyring(versions: seq<nat>, current: nat) {
    ghost predicate Valid() {
      && current in versions
      && forall i, j :: 0 <= i < j < |versions| ==> versions[i] < versions[j]
    }
  }

  datatype Person = Person(deleted: bool)
  datatype Identity = Identity(person: Id, product: Id, space: Id, scope: Scope)
  datatype IndexKey = IndexKey(space: Id, scope: Scope, version: nat, digest: Digest)
  datatype Account = Account(person: Id, active: bool)
  datatype Installation = Installation(product: Id, person: Option<Id>, disabled: bool)

  datatype Subject = OfPerson(id: Id) | OfAccount(id: Id) | OfInstallation(id: Id)
  /** Primary key of subject_alias_keys. */
  datatype AliasKey = AliasKey(product: Id, audience: Id, subject: Subject)
  /** A row of subject_aliases, keyed by its public key. */
  datatype Alias = Alias(key: AliasKey, person: Option<Id>)

  datatype Tables = Tables(
    persons: map<Id, Person>,
    identities: map<Id, Identity>,
    indexes: map<IndexKey, Id>,
    accounts: map<Id, Account>,
    accountOf: map<Id, Id>,
    installations: map<Id, Installation>,
    aliases: map<Id, Alias>,
    aliasKeys: map<AliasKey, Id>)

  const EMPTY: Tables := Tables(map[], map[], map[], map[], map[], map[], map[], map[])

  // ------------------------------------------------------------- registration

  datatype NewIdentity = NewIdentity(
    id: Id, person: Id, account: Id, product: Id, space: Id, acrossProducts: bool,
    createAccount: bool, installation: Option<Id>)
  {
    /** An identity is linked within its own product unless it was opted into global linkage. */
    function Scope(): Scope {
      if acrossProducts then Global else WithinProduct(product)
    }
  }

  datatype Registered = Registered(identity: Id, person: Id, account: Option<Id>, matched: nat, created: bool)

  function KeyAt(space: Id, scope: Scope, version: nat, email: Id): IndexKey {
    IndexKey(space, scope, version, Digest(version, email))
  }

  /** The lowest configured version whose index row exists. */
  function FirstMatch(t: Tables, versions: seq<nat>, space: Id, scope: Scope, email: Id): Option<nat> {
    if versions == [] then None
    else if KeyAt(space, scope, versions[0], email) in t.indexes then Some(versions[0])
    else FirstMatch(t, versions[1..], space, scope, email)
  }

  function InsertIndex(t: Tables, key: IndexKey, identity: Id): Result<Tables> {
    if key in t.indexes then Err(Conflict) else
    Ok(t.(indexes := t.indexes[key := identity]))
  }

  function InsertAccount(t: Tables, id: Id, person: Id): Result<Tables> {
    if id in t.accounts || person in t.accountOf then Err(Conflict) else
    Ok(t.(accounts := t.accounts[id := Account(person, true)], accountOf := t.accountOf[person := id]))
  }

  function Relabel(a: Alias, installation: Id, person: Id): Alias {
    if a.key.subject == OfInstallation(installation) then a.(person := Some(person)) else a
  }

  function Relabelled(aliases: map<Id, Alias>, installation: Id, person: Id): map<Id, Alias> {
    map k | k in aliases :: Relabel(aliases[k], installation, person)
  }

  /** Binds an installation to a person, and every alias of the installation with it. */
  function LinkInstallation(t: Tables, id: Id, product: Id, person: Id): Result<Tables> {
    var i :- Read(t.installations, id);
    :- Need(i.product == product && !i.disabled && (i.person == None || i.person == Some(person)), Conflict);
    Ok(t.(installations := t.installations[id := i.(person := Some(person))],
          aliases := Relabelled(t.aliases, id, person)))
  }

  /** The end of a registration: the account if one is wanted, then the installation. */
  function AccountAndLink(t: Tables, n: NewIdentity, create: bool, person: Id): Result<Tables> {
    var t1 :- (if create then InsertAccount(t, n.account, person) else Ok(t));
    if n.installation.Some? then LinkInstallation(t1, n.installation.value, n.product, person) else Ok(t1)
  }

  /** An identity found by its index: migrate the index, then account and installation. */
  function Rejoin(t: Tables, k: Keyring, email: Id, n: NewIdentity, matched: nat): Result<(Tables, Registered)>
    requires KeyAt(n.space, n.Scope(), matched, email) in t.indexes
  {
    var id := t.indexes[KeyAt(n.space, n.Scope(), matched, email)];
    var identity :- Read(t.identities, id);
    var person := identity.person;
    var t1 :- (if matched == k.current then Ok(t) else InsertIndex(t, KeyAt(n.space, n.Scope(), k.current, email), id));
    var known := if person in t.accountOf then Some(t.accountOf[person]) else None;
    var create := n.createAccount && known == None;
    var t2 :- AccountAndLink(t1, n, create, person);
    Ok((t2, Registered(id, person, if create then Some(n.account) else known, matched, false)))
  }

  /** Nothing found: a new person with its first identity and index. */
  function Enroll(t: Tables, k: Keyring, email: Id, n: NewIdentity): Result<(Tables, Registered)> {
    if n.person in t.persons || n.id in t.identities then Err(Conflict) else
    var t0 := t.(persons := t.persons[n.person := Person(false)],
                 identities := t.identities[n.id := Identity(n.person, n.product, n.space, n.Scope())]);
    var t1 :- InsertIndex(t0, KeyAt(n.space, n.Scope(), k.current, email), n.id);
    var t2 :- AccountAndLink(t1, n, n.createAccount, n.person);
    Ok((t2, Registered(n.id, n.person, if n.createAccount then Some(n.account) else None, k.current, true)))
  }

  function Register(t: Tables, k: Keyring, email: Id, n: NewIdentity): Result<(Tables, Registered)> {
    match FirstMatch(t, k.versions, n.space, n.Scope(), email)
    case Some(matched) =>
      MatchExists(t, k.versions, n.space, n.Scope(), email);
      Rejoin(t, k, email, n, matched)
    case None => Enroll(t, k, email, n)
  }

  lemma {:induction false} MatchExists(t: Tables, versions: seq<nat>, space: Id, scope: Scope, email: Id)
    ensures var m := FirstMatch(t, versions, space, scope, email);
      && (m.Some? ==> m.value in versions && KeyAt(space, scope, m.value, email) in t.indexes)
      && (m.None? ==> forall v :: v in versions ==> KeyAt(space, scope, v, email) !in t.indexes)
  {
    if versions != [] {
      MatchExists(t, versions[1..], space, scope, email);
    }
  }

  // ----------------------------------------------- installations, aliases, erasure

  function CreateInstallation(t: Tables, id: Id, product: Id): Result<Tables> {
    if id in t.installations then
      :- Need(!t.installations[id].disabled && t.installations[id].product == product, Conflict);
      Ok(t)
    else
      Ok(t.(installations := t.installations[id := Installation(product, None, false)]))
  }

  /** The person behind an alias' subject, refused for deleted or disabled subjects. */
  function AliasPerson(t: Tables, subject: Subject): Result<Option<Id>> {
    match subject
    case OfPerson(id) =>
      var p :- Read(t.persons, id);
      :- Need(!p.deleted, NotFound);
      Ok(Some(id))
    case OfAccount(id) =>
      var a :- Read(t.accounts, id);
      :- Need(a.active, NotFound);
      Ok(Some(a.person))
    case OfInstallation(id) =>
      var i :- Read(t.installations, id);
      :- Need(!i.disabled, NotFound);
      Ok(i.person)
  }

  function EnsureAlias(t: Tables, handle: Id, key: AliasKey): Result<Tables> {
    var person :- AliasPerson(t, key.subject);
    if handle in t.aliases then
      :- Need(t.aliases[handle].key == key, Conflict);
      Ok(t)
    else if key in t.aliasKeys then
      :- Need(t.aliasKeys[key] == handle, Conflict);
      Ok(t)
    else
      Ok(t.(aliases := t.aliases[handle := Alias(key, person)], aliasKeys := t.aliasKeys[key := handle]))
  }

  /** The aliases a deletion of the person is announced under. */
  function FanoutAliases(t: Tables, person: Id, product: Option<Id>): set<Id> {
    set k | k in t.aliases && t.aliases[k].person == Some(person) && InProduct(t.aliases[k].key.product, product)
  }

  predicate InProduct(product: Id, only: Option<Id>) {
    only.None? || only == Some(product)
  }

  datatype Target =
    | ThePerson(person: Id)
    | PersonInProduct(person: Id, product: Id)
    | OneInstallation(installation: Id, product: Id)

  /** Installations that lose their person. */
  function Detached(t: Tables, e: Target): set<Id> {
    match e
    case ThePerson(p) => set i | i in t.installations && t.installations[i].person == Some(p)
    case PersonInProduct(p, product) =>
      set i | i in t.installations && t.installations[i].person == Some(p) && t.installations[i].product == product
    case OneInstallation(id, product) =>
      set i | i in t.installations && i == id && t.installations[i].product == product
  }

  function ErasedIdentities(t: Tables, e: Target): set<Id> {
    match e
    case ThePerson(p) => set i | i in t.identities && t.identities[i].person == p
    case PersonInProduct(p, product) =>
      set i | i in t.identities && t.identities[i].person == p && t.identities[i].product == product &&
          t.identities[i].scope.WithinProduct?
    case OneInstallation(_, _) => {}
  }

  predicate ErasesAlias(t: Tables, e: Target, a: Alias) {
    match e
    case ThePerson(p) => a.person == Some(p) || (a.key.subject.OfInstallation? && a.key.subject.id in Detached(t, e))
    case PersonInProduct(p, product) =>
      a.key.product == product &&
          (a.person == Some(p) || (a.key.subject.OfInstallation? && a.key.subject.id in Detached(t, e)))
    case OneInstallation(id, product) => a.key.product == product && a.key.subject == OfInstallation(id)
  }

  function ErasedAliases(t: Tables, e: Target): set<Id> {
    set k | k in t.aliases && ErasesAlias(t, e, t.aliases[k])
  }

  function DropIdentities(t: Tables, ids: set<Id>): Tables {
    t.(identities := t.identities - ids,
       indexes := map k | k in t.indexes && t.indexes[k] !in ids :: t.indexes[k])
  }

  /** The reverse index without the rows of the given aliases. */
  function Unkeyed(aliases: map<Id, Alias>, aliasKeys: map<AliasKey, Id>, keys: set<Id>): map<AliasKey, Id> {
    map k | k in aliasKeys && (forall a :: a in keys && a in aliases ==> aliases[a].key != k) :: aliasKeys[k]
  }

  function DropAliases(t: Tables, keys: set<Id>): Tables {
    t.(aliases := t.aliases - keys, aliasKeys := Unkeyed(t.aliases, t.aliasKeys, keys))
  }

  function Disabled(i: Installation): Installation {
    i.(person := None, disabled := true)
  }

  function Detach(t: Tables, e: Target): Tables {
    t.(installations := map i | i in t.installations ::
         if i in Detached(t, e) then Disabled(t.installations[i]) else t.installations[i])
  }

  /** Only the erasure of a whole person reaches the person and account rows. */
  function Bury(t: Tables, e: Target): Tables {
    if !e.ThePerson? then t else
      t.(persons := map p | p in t.persons :: if p == e.person then Person(true) else t.persons[p],
         accounts := map a | a in t.accounts ::
           if t.accounts[a].person == e.person then t.accounts[a].(active := false) else t.accounts[a])
  }

  function Erase(t: Tables, e: Target): Tables {
    var t1 := DropAliases(DropIdentities(t, ErasedIdentities(t, e)), ErasedAliases(t, e));
    Bury(Detach(t1, e), e)
  }

  // -------------------------------------------------------- the transactions

  /** The indexer's All: its map's versions in ascending order. */
  method SortVersions(keys: set<nat>) returns (versions: seq<nat>)
    ensures forall v :: v in versions <==> v in keys
    ensures forall i, j :: 0 <= i < j < |versions| ==> versions[i] < versions[j]
  {
    versions := [];
    var rest := keys;
    while rest != {}
      invariant rest <= keys
      invariant forall v :: v in versions <==> v in keys && v !in rest
      invariant forall i, j :: 0 <= i < j < |versions| ==> versions[i] < versions[j]
      invariant forall v, w :: v in versions && w in rest ==> v < w
      decreases rest
    {
      var least := Least(rest);
      assert forall i :: 0 <= i < |versions| ==> versions[i] in versions;
      versions, rest := versions + [least], rest - {least};
    }
  }

  method Least(keys: set<nat>) returns (least: nat)
    requires keys != {}
    ensures least in keys && forall v :: v in keys ==> least <= v
  {
    least :| least in keys;
    var rest := keys - {least};
    while rest != {}
      invariant least in keys && rest <= keys
      invariant forall v :: v in keys && v !in rest ==> least <= v
      decreases rest
    {
      var v :| v in rest;
      if v < least {
        least := v;
      }
      rest := rest - {v};
    }
  }

  /** UPDATE subject_aliases SET person_id ... WHERE the subject is this installation. */
  method RelabelAll(aliases: map<Id, Alias>, installation: Id, person: Id) returns (after: map<Id, Alias>)
    ensures after == Relabelled(aliases, installation, person)
  {
    after := aliases;
    var rest := aliases.Keys;
    while rest != {}
      invariant rest <= aliases.Keys == after.Keys
      invariant forall k :: k in aliases ==>
        after[k] == if k in rest then aliases[k] else Relabel(aliases[k], installation, person)
      decreases rest
    {
      var k :| k in rest;
      if after[k].key.subject == OfInstallation(installation) {
        after := after[k := after[k].(person := Some(person))];
      }
      rest := rest - {k};
    }
  }

  /** The erasure loop over collected aliases: each goes from both tables. */
  method DeleteAliasRows(aliases: map<Id, Alias>, aliasKeys: map<AliasKey, Id>, keys: set<Id>)
      returns (rows: map<Id, Alias>, back: map<AliasKey, Id>)
    requires keys <= aliases.Keys
    ensures rows == aliases - keys
    ensures back == Unkeyed(aliases, aliasKeys, keys)
  {
    rows, back := aliases, aliasKeys;
    var rest := keys;
    while rest != {}
      invariant rest <= keys
      invariant rows == aliases - (keys - rest)
      invariant back.Keys <= aliasKeys.Keys && forall k :: k in back ==> back[k] == aliasKeys[k]
      invariant forall k ::
          k in aliasKeys ==> (k in back <==> forall a :: a in keys && a !in rest ==> aliases[a].key != k)
      decreases rest
    {
      var k :| k in rest;
      rows, back := rows - {k}, back - {rows[k].key};
      rest := rest - {k};
    }
  }

  /** The store over its tables. A transaction that fails puts the tables back. */
  class RegistryStore {
    var t: Tables

    constructor ()
      ensures t == EMPTY
    {
      t := EMPTY;
    }

    /** Looks the email up under every configured version, oldest first, and stops at a hit. */
    method Lookup(versions: seq<nat>, space: Id, scope: Scope, email: Id) returns (matched: Option<nat>)
      ensures matched == FirstMatch(t, versions, space, scope, email)
    {
      for i := 0 to |versions|
        invariant FirstMatch(t, versions, space, scope, email) == FirstMatch(t, versions[i..], space, scope, email)
      {
        if KeyAt(space, scope, versions[i], email) in t.indexes {
          return Some(versions[i]);
        }
        assert versions[i..][1..] == versions[i + 1..];
      }
      return None;
    }

    method Link(id: Id, product: Id, person: Id) returns (r: Result<()>)
      modifies this
      ensures var spec := LinkInstallation(old(t), id, product, person);
        if spec.Ok? then r == Ok(()) && t == spec.value else r == Err(spec.error) && t == old(t)
    {
      if id !in t.installations {
        return Err(NotFound);
      }
      var i := t.installations[id];
      if i.product != product || i.disabled || (i.person.Some? && i.person.value != person) {
        return Err(Conflict);
      }
      var relabelled := RelabelAll(t.aliases, id, person);
      t := t.(installations := t.installations[id := i.(person := Some(person))], aliases := relabelled);
      return Ok(());
    }

    method AddAccountAndLink(n: NewIdentity, create: bool, person: Id) returns (r: Result<()>)
      modifies this
      ensures var spec := AccountAndLink(old(t), n, create, person);
        if spec.Ok? then r == Ok(()) && t == spec.value else r == Err(spec.error) && t == old(t)
    {
      var before := t;
      if create {
        if n.account in t.accounts || person in t.accountOf {
          return Err(Conflict);
        }
        t := t.(accounts := t.accounts[n.account := Account(person, true)],
            accountOf := t.accountOf[person := n.account]);
      }
      r := Ok(());
      if n.installation.Some? {
        r := Link(n.installation.value, n.product, person);
        if r.Err? {
          t := before;
        }
      }
    }

    method RejoinIdentity(k: Keyring, email: Id, n: NewIdentity, matched: nat) returns (r: Result<Registered>)
      requires KeyAt(n.space, n.Scope(), matched, email) in t.indexes
      modifies this
      ensures var spec := Rejoin(old(t), k, email, n, matched);
        if spec.Ok? then t == spec.value.0 && r == Ok(spec.value.1) else t == old(t) && r == Err(spec.error)
    {
      var before := t;
      var id := t.indexes[KeyAt(n.space, n.Scope(), matched, email)];
      if id !in t.identities {
        return Err(NotFound);
      }
      var person := t.identities[id].person;
      var account := if person in t.accountOf then Some(t.accountOf[person]) else None;
      if matched != k.current {
        var now := KeyAt(n.space, n.Scope(), k.current, email);
        if now in t.indexes {
          return Err(Conflict);
        }
        t := t.(indexes := t.indexes[now := id]);
      }
      var create := n.createAccount && account.None?;
      var finished := AddAccountAndLink(n, create, person);
      if finished.Err? {
        t := before;
        return Err(finished.error);
      }
      return Ok(Registered(id, person, if create then Some(n.account) else account, matched, false));
    }

    method EnrollIdentity(k: Keyring, email: Id, n: NewIdentity) returns (r: Result<Registered>)
      modifies this
      ensures var spec := Enroll(old(t), k, email, n);
        if spec.Ok? then t == spec.value.0 && r == Ok(spec.value.1) else t == old(t) && r == Err(spec.error)
    {
      var before := t;
      var now := KeyAt(n.space, n.Scope(), k.current, email);
      if n.person in t.persons || n.id in t.identities || now in t.indexes {
        return Err(Conflict);
      }
      t := t.(persons := t.persons[n.person := Person(false)],
              identities := t.identities[n.id := Identity(n.person, n.product, n.space, n.Scope())]);
      t := t.(indexes := t.indexes[now := n.id]);
      var finished := AddAccountAndLink(n, n.createAccount, n.person);
      if finished.Err? {
        t := before;
        return Err(finished.error);
      }
      return Ok(Registered(n.id, n.person, if n.createAccount then Some(n.account) else None, k.current, true));
    }

    method RegisterEmailIdentity(k: Keyring, email: Id, n: NewIdentity) returns (r: Result<Registered>)
      modifies this
      ensures var spec := Register(old(t), k, email, n);
        if spec.Ok? then t == spec.value.0 && r == Ok(spec.value.1) else t == old(t) && r == Err(spec.error)
    {
      var matched := Lookup(k.versions, n.space, n.Scope(), email);
      MatchExists(t, k.versions, n.space, n.Scope(), email);
      if matched.Some? {
        r := RejoinIdentity(k, email, n, matched.value);
      } else {
        r := EnrollIdentity(k, email, n);
      }
    }

    method EnsureSubjectAlias(handle: Id, key: AliasKey) returns (r: Result<()>)
      modifies this
      ensures var spec := EnsureAlias(old(t), handle, key);
        if spec.Ok? then r == Ok(()) && t == spec.value else r == Err(spec.error) && t == old(t)
    {
      var person := AliasPerson(t, key.subject);
      if person.Err? {
        return Err(person.error);
      }
      if handle in t.aliases {
        return if t.aliases[handle].key == key then Ok(()) else Err(Conflict);
      }
      if key in t.aliasKeys {
        return if t.aliasKeys[key] == handle then Ok(()) else Err(Conflict);
      }
      t := t.(aliases := t.aliases[handle := Alias(key, person.value)], aliasKeys := t.aliasKeys[key := handle]);
      return Ok(());
    }

    /** The erasure loop over collected identities: first index rows, then the identity. */
    method DeleteIdentities(ids: set<Id>)
      modifies this
      ensures t == DropIdentities(old(t), ids)
    {
      var rest := ids;
      while rest != {}
        invariant rest <= ids && t == DropIdentities(old(t), ids - rest)
        decreases rest
      {
        var id :| id in rest;
        t := t.(indexes := map k | k in t.indexes && t.indexes[k] != id :: t.indexes[k]);
        t := t.(identities := t.identities - {id});
        rest := rest - {id};
      }
      assert ids - rest == ids;
    }

    method EraseTarget(e: Target)
      modifies this
      ensures t == Erase(old(t), e)
    {
      var identified, aliased := ErasedIdentities(t, e), ErasedAliases(t, e);
      DeleteIdentities(identified);
      var rows, back := DeleteAliasRows(t.aliases, t.aliasKeys, aliased);
      t := t.(aliases := rows, aliasKeys := back);
      t := Detach(t, e);
      if e.ThePerson? {
        t := t.(accounts := map a | a in t.accounts ::
          if t.accounts[a].person == e.person then t.accounts[a].(active := false) else t.accounts[a]);
        t := t.(persons := map p | p in t.persons :: if p == e.person then Person(true) else t.persons[p]);
      }
    }
  }

  // ---------------------------------------------------------------- invariants

  predicate SameEmail(a: IndexKey, b: IndexKey) {
    a.space == b.space && a.scope == b.scope && a.digest.email == b.digest.email
  }

  ghost predicate IndexRow(t: Tables, k: IndexKey)
    requires k in t.indexes
  {
    && k.digest.version == k.version
    && t.indexes[k] in t.identities
    && t.identities[t.indexes[k]].space == k.space
    && t.identities[t.indexes[k]].scope == k.scope
  }

  ghost predicate IdentityRow(t: Tables, i: Id)
    requires i in t.identities
  {
    && t.identities[i].person in t.persons
    && !t.persons[t.identities[i].person].deleted
    && (t.identities[i].scope.WithinProduct? ==> t.identities[i].scope.product == t.identities[i].product)
  }

  /** Emails and identities correspond one to one through the index, whatever the version, and
      no person has two identities. */
  ghost predicate Indexed(t: Tables) {
    && (forall k :: k in t.indexes ==> IndexRow(t, k))
    && (forall i :: i in t.identities ==> IdentityRow(t, i))
    && (forall a, b :: a in t.indexes && b in t.indexes ==> (SameEmail(a, b) <==> t.indexes[a] == t.indexes[b]))
    && (forall i, j ::
        i in t.identities && j in t.identities && t.identities[i].person == t.identities[j].person ==> i == j)
  }

  ghost predicate AccountRow(t: Tables, a: Id)
    requires a in t.accounts
  {
    var p := t.accounts[a].person;
    && p in t.accountOf && t.accountOf[p] == a
    && p in t.persons && (t.accounts[a].active <==> !t.persons[p].deleted)
  }

  ghost predicate InstallationRow(t: Tables, i: Id)
    requires i in t.installations
  {
    match t.installations[i].person
    case None => true
    case Some(p) => !t.installations[i].disabled && p in t.persons && !t.persons[p].deleted
  }

  ghost predicate Owned(t: Tables) {
    && (forall a :: a in t.accounts ==> AccountRow(t, a))
    && (forall p :: p in t.accountOf ==> t.accountOf[p] in t.accounts && t.accounts[t.accountOf[p]].person == p)
    && (forall i :: i in t.installations ==> InstallationRow(t, i))
  }

  /** The person an alias row must carry. */
  ghost predicate AliasRow(t: Tables, k: Id)
    requires k in t.aliases
  {
    var a := t.aliases[k];
    && a.key in t.aliasKeys && t.aliasKeys[a.key] == k
    && (a.person.Some? ==> a.person.value in t.persons && !t.persons[a.person.value].deleted)
    && match a.key.subject
       case OfPerson(p) => a.person == Some(p)
       case OfAccount(x) => x in t.accounts && a.person == Some(t.accounts[x].person)
       case OfInstallation(i) =>
         i in t.installations && (a.key.product == t.installations[i].product ==> a.person == t.installations[i].person)
  }

  /** subject_aliases and subject_alias_keys are exact inverses. */
  ghost predicate Aliased(t: Tables) {
    && (forall k :: k in t.aliases ==> AliasRow(t, k))
    && (forall x :: x in t.aliasKeys ==> t.aliasKeys[x] in t.aliases && t.aliases[t.aliasKeys[x]].key == x)
  }

  ghost predicate Sound(t: Tables) {
    Indexed(t) && Owned(t) && Aliased(t)
  }

  lemma LinkIsSound(t: Tables, id: Id, product: Id, person: Id)
    requires Sound(t) && LinkInstallation(t, id, product, person).Ok?
    requires person in t.persons && !t.persons[person].deleted
    ensures Sound(LinkInstallation(t, id, product, person).value)
  {
    var t' := LinkInstallation(t, id, product, person).value;
    forall k | k in t'.aliases ensures AliasRow(t', k) {
      assert AliasRow(t, k);
    }
    forall i | i in t'.installations ensures InstallationRow(t', i) {
      assert InstallationRow(t, i);
    }
    forall a | a in t'.accounts ensures AccountRow(t', a) {
      assert AccountRow(t, a);
    }
    SameIdentities(t, t');
  }

  lemma SameIdentities(t: Tables, t': Tables)
    requires Indexed(t) && t'.identities == t.identities && t'.indexes == t.indexes && t'.persons == t.persons
    ensures Indexed(t')
  {
    forall k | k in t'.indexes ensures IndexRow(t', k) {
      assert IndexRow(t, k);
    }
    forall i | i in t'.identities ensures IdentityRow(t', i) {
      assert IdentityRow(t, i);
    }
  }

  lemma SameOwners(t: Tables, t': Tables)
    requires Owned(t) && Aliased(t)
    requires t'.persons == t.persons && t'.accounts == t.accounts && t'.accountOf == t.accountOf
    requires t'.installations == t.installations && t'.aliases == t.aliases && t'.aliasKeys == t.aliasKeys
    ensures Owned(t') && Aliased(t')
  {
    forall a | a in t'.accounts ensures AccountRow(t', a) {
      assert AccountRow(t, a);
    }
    forall i | i in t'.installations ensures InstallationRow(t', i) {
      assert InstallationRow(t, i);
    }
    forall k | k in t'.aliases ensures AliasRow(t', k) {
      assert AliasRow(t, k);
    }
  }

  lemma AccountIsSound(t: Tables, id: Id, person: Id)
    requires Sound(t) && InsertAccount(t, id, person).Ok?
    requires person in t.persons && !t.persons[person].deleted
    ensures Sound(InsertAccount(t, id, person).value)
  {
    var t' := InsertAccount(t, id, person).value;
    forall a | a in t'.accounts ensures AccountRow(t', a) {
      assert a != id ==> AccountRow(t, a);
    }
    forall i | i in t'.installations ensures InstallationRow(t', i) {
      assert InstallationRow(t, i);
    }
    forall k | k in t'.aliases ensures AliasRow(t', k) {
      assert AliasRow(t, k);
    }
    SameIdentities(t, t');
  }

  lemma IndexIsSound(t: Tables, k: IndexKey, identity: Id)
    requires Sound(t) && InsertIndex(t, k, identity).Ok? && k.digest.version == k.version
    requires identity in t.identities && t.identities[identity].space == k.space
    requires t.identities[identity].scope == k.scope
    requires forall a :: a in t.indexes ==> (SameEmail(a, k) <==> t.indexes[a] == identity)
    ensures Sound(InsertIndex(t, k, identity).value)
  {
    var t' := InsertIndex(t, k, identity).value;
    forall a | a in t'.indexes ensures IndexRow(t', a) {
      assert a != k ==> IndexRow(t, a);
    }
    forall i | i in t'.identities ensures IdentityRow(t', i) {
      assert IdentityRow(t, i);
    }
    SameOwners(t, t');
  }

  lemma PersonIsSound(t: Tables, n: NewIdentity)
    requires Sound(t) && n.person !in t.persons && n.id !in t.identities
    ensures Sound(t.(persons := t.persons[n.person := Person(false)],
                     identities := t.identities[n.id := Identity(n.person, n.product, n.space, n.Scope())]))
  {
    var t' := t.(persons := t.persons[n.person := Person(false)],
                 identities := t.identities[n.id := Identity(n.person, n.product, n.space, n.Scope())]);
    forall k | k in t'.indexes ensures IndexRow(t', k) {
      assert IndexRow(t, k);
    }
    forall i | i in t'.identities ensures IdentityRow(t', i) {
      assert i != n.id ==> IdentityRow(t, i);
    }
    forall a | a in t'.accounts ensures AccountRow(t', a) {
      assert AccountRow(t, a);
    }
    forall i | i in t'.installations ensures InstallationRow(t', i) {
      assert InstallationRow(t, i);
    }
    forall k | k in t'.aliases ensures AliasRow(t', k) {
      assert AliasRow(t, k);
    }
  }

  /** Every index row's key version is configured: what the startup check enforces. */
  predicate Configured(t: Tables, k: Keyring) {
    forall x :: x in t.indexes ==> x.version in k.versions
  }

  lemma RejoinIsSound(t: Tables, k: Keyring, email: Id, n: NewIdentity, matched: nat)
    requires Sound(t) && KeyAt(n.space, n.Scope(), matched, email) in t.indexes
    requires Rejoin(t, k, email, n, matched).Ok?
    ensures Sound(Rejoin(t, k, email, n, matched).value.0)
  {
    var found := KeyAt(n.space, n.Scope(), matched, email);
    var id := t.indexes[found];
    assert IndexRow(t, found) && IdentityRow(t, id);
    var person := t.identities[id].person;
    var now := KeyAt(n.space, n.Scope(), k.current, email);
    var t1 := t;
    if matched != k.current {
      forall a | a in t.indexes ensures SameEmail(a, now) <==> t.indexes[a] == id {
        assert SameEmail(a, now) <==> SameEmail(a, found);
      }
      IndexIsSound(t, now, id);
      t1 := InsertIndex(t, now, id).value;
    }
    TailIsSound(t1, n, n.createAccount && person !in t.accountOf, person);
  }

  lemma EnrollIsSound(t: Tables, k: Keyring, email: Id, n: NewIdentity)
    requires Sound(t) && Configured(t, k) && Enroll(t, k, email, n).Ok?
    requires FirstMatch(t, k.versions, n.space, n.Scope(), email) == None
    ensures Sound(Enroll(t, k, email, n).value.0)
  {
    var t0 := t.(persons := t.persons[n.person := Person(false)],
                 identities := t.identities[n.id := Identity(n.person, n.product, n.space, n.Scope())]);
    PersonIsSound(t, n);
    var now := KeyAt(n.space, n.Scope(), k.current, email);
    MatchExists(t, k.versions, n.space, n.Scope(), email);
    forall a | a in t.indexes ensures !SameEmail(a, now) && t.indexes[a] != n.id {
      assert IndexRow(t, a) && a.version in k.versions;
      assert SameEmail(a, now) ==> a == KeyAt(n.space, n.Scope(), a.version, email);
    }
    IndexIsSound(t0, now, n.id);
    var t1 := InsertIndex(t0, now, n.id).value;
    TailIsSound(t1, n, n.createAccount, n.person);
  }

  lemma RegisterIsSound(t: Tables, k: Keyring, email: Id, n: NewIdentity)
    requires Sound(t) && Configured(t, k) && Register(t, k, email, n).Ok?
    ensures Sound(Register(t, k, email, n).value.0)
  {
    MatchExists(t, k.versions, n.space, n.Scope(), email);
    match FirstMatch(t, k.versions, n.space, n.Scope(), email)
    case Some(matched) => RejoinIsSound(t, k, email, n, matched);
    case None => EnrollIsSound(t, k, email, n);
  }

  /** What a committed registration can have changed in the identity tables. */
  ghost predicate RegisterEffect(t: Tables, k: Keyring, email: Id, n: NewIdentity, t': Tables, r: Registered) {
    var now := KeyAt(n.space, n.Scope(), k.current, email);
    && t'.indexes == t.indexes[now := r.identity]
    && t'.persons == (if r.created then t.persons[n.person := Person(false)] else t.persons)
    && t'.identities ==
        (if r.created then t.identities[n.id := Identity(n.person, n.product, n.space, n.Scope())] else t.identities)
    && (r.created ==> n.person !in t.persons && n.id !in t.identities && r.identity == n.id && r.person == n.person)
    && (!r.created ==> r.identity in t.identities && r.person == t.identities[r.identity].person)
  }

  /** Creating an account and linking an installation leave the identity tables alone. */
  lemma TailEffect(t: Tables, n: NewIdentity, create: bool, person: Id)
    requires AccountAndLink(t, n, create, person).Ok?
    ensures var t' := AccountAndLink(t, n, create, person).value;
      t'.indexes == t.indexes && t'.persons == t.persons && t'.identities == t.identities
  {
  }

  lemma TailIsSound(t: Tables, n: NewIdentity, create: bool, person: Id)
    requires Sound(t) && person in t.persons && !t.persons[person].deleted
    requires AccountAndLink(t, n, create, person).Ok?
    ensures Sound(AccountAndLink(t, n, create, person).value)
  {
    var t1 := t;
    if create {
      AccountIsSound(t, n.account, person);
      t1 := InsertAccount(t, n.account, person).value;
    }
    if n.installation.Some? {
      LinkIsSound(t1, n.installation.value, n.product, person);
    }
  }

  lemma RejoinEffect(t: Tables, k: Keyring, email: Id, n: NewIdentity, matched: nat)
    requires KeyAt(n.space, n.Scope(), matched, email) in t.indexes
    requires Rejoin(t, k, email, n, matched).Ok?
    ensures var (t', r) := Rejoin(t, k, email, n, matched).value;
      RegisterEffect(t, k, email, n, t', r) && !r.created && r.matched == matched
      && r.identity == t.indexes[KeyAt(n.space, n.Scope(), matched, email)]
  {
    var id := t.indexes[KeyAt(n.space, n.Scope(), matched, email)];
    var person := t.identities[id].person;
    var now := KeyAt(n.space, n.Scope(), k.current, email);
    var t1 := if matched == k.current then t else InsertIndex(t, now, id).value;
    assert t1.indexes == t.indexes[now := id] && t1.persons == t.persons && t1.identities == t.identities;
    TailEffect(t1, n, n.createAccount && person !in t.accountOf, person);
  }

  lemma EnrollEffect(t: Tables, k: Keyring, email: Id, n: NewIdentity)
    requires Enroll(t, k, email, n).Ok?
    ensures var (t', r) := Enroll(t, k, email, n).value;
      RegisterEffect(t, k, email, n, t', r) && r.created && r.matched == k.current
  {
    var t0 := t.(persons := t.persons[n.person := Person(false)],
                 identities := t.identities[n.id := Identity(n.person, n.product, n.space, n.Scope())]);
    var t1 := InsertIndex(t0, KeyAt(n.space, n.Scope(), k.current, email), n.id).value;
    TailEffect(t1, n, n.createAccount, n.person);
  }

  lemma RegisterHasEffect(t: Tables, k: Keyring, email: Id, n: NewIdentity, t': Tables, r: Registered)
    requires Register(t, k, email, n) == Ok((t', r))
    ensures RegisterEffect(t, k, email, n, t', r)
    ensures var m := FirstMatch(t, k.versions, n.space, n.Scope(), email);
      && (r.created <==> m.None?)
      && (m.Some? ==> r.matched == m.value && KeyAt(n.space, n.Scope(), m.value, email) in t.indexes
                      && r.identity == t.indexes[KeyAt(n.space, n.Scope(), m.value, email)])
  {
    MatchExists(t, k.versions, n.space, n.Scope(), email);
    match FirstMatch(t, k.versions, n.space, n.Scope(), email)
    case Some(matched) => RejoinEffect(t, k, email, n, matched);
    case None => EnrollEffect(t, k, email, n);
  }

  lemma RegisterKeepsVersions(t: Tables, k: Keyring, email: Id, n: NewIdentity, t': Tables, r: Registered)
    requires k.Valid() && Configured(t, k) && Register(t, k, email, n) == Ok((t', r))
    ensures Configured(t', k)
  {
    RegisterHasEffect(t, k, email, n, t', r);
  }

  lemma AliasIsSound(t: Tables, handle: Id, key: AliasKey)
    requires Sound(t) && EnsureAlias(t, handle, key).Ok?
    ensures Sound(EnsureAlias(t, handle, key).value)
  {
    var t' := EnsureAlias(t, handle, key).value;
    if t' != t {
      var person := AliasPerson(t, key.subject).value;
      AliasPersonIsRight(t, key.subject, person);
      NewAliasIsSound(t, handle, key, person);
    }
  }

  lemma AliasPersonIsRight(t: Tables, subject: Subject, person: Option<Id>)
    requires Owned(t) && AliasPerson(t, subject) == Ok(person)
    ensures person.Some? ==> person.value in t.persons && !t.persons[person.value].deleted
    ensures match subject
      case OfPerson(p) => person == Some(p)
      case OfAccount(x) => x in t.accounts && person == Some(t.accounts[x].person)
      case OfInstallation(i) => i in t.installations && person == t.installations[i].person
  {
    match subject
    case OfPerson(_) =>
    case OfAccount(a) => assert AccountRow(t, a);
    case OfInstallation(i) => assert InstallationRow(t, i);
  }

  lemma NewAliasIsSound(t: Tables, handle: Id, key: AliasKey, person: Option<Id>)
    requires Sound(t) && handle !in t.aliases && key !in t.aliasKeys
    requires AliasPerson(t, key.subject) == Ok(person)
    ensures Sound(t.(aliases := t.aliases[handle := Alias(key, person)], aliasKeys := t.aliasKeys[key := handle]))
  {
    var t' := t.(aliases := t.aliases[handle := Alias(key, person)], aliasKeys := t.aliasKeys[key := handle]);
    AliasPersonIsRight(t, key.subject, person);
    SameIdentities(t, t');
    forall a | a in t'.accounts ensures AccountRow(t', a) {
      assert AccountRow(t, a);
    }
    forall i | i in t'.installations ensures InstallationRow(t', i) {
      assert InstallationRow(t, i);
    }
    forall k | k in t'.aliases ensures AliasRow(t', k) {
      assert k != handle ==> AliasRow(t, k);
    }
  }

  lemma InstallIsSound(t: Tables, id: Id, product: Id)
    requires Sound(t) && CreateInstallation(t, id, product).Ok?
    ensures Sound(CreateInstallation(t, id, product).value)
  {
    var t' := CreateInstallation(t, id, product).value;
    SameIdentities(t, t');
    forall a | a in t'.accounts ensures AccountRow(t', a) {
      assert AccountRow(t, a);
    }
    forall i | i in t'.installations ensures InstallationRow(t', i) {
      assert i in t.installations ==> InstallationRow(t, i);
    }
    forall k | k in t'.aliases ensures AliasRow(t', k) {
      assert AliasRow(t, k);
    }
  }

  lemma EraseIsSound(t: Tables, e: Target)
    requires Sound(t)
    ensures Sound(Erase(t, e))
  {
    EraseKeepsIndexed(t, e);
    EraseKeepsOwned(t, e);
    EraseKeepsAliased(t, e);
  }

  lemma EraseKeepsIndexed(t: Tables, e: Target)
    requires Indexed(t)
    ensures Indexed(Erase(t, e))
  {
    var t' := Erase(t, e);
    forall k | k in t'.indexes ensures IndexRow(t', k) {
      assert IndexRow(t, k);
    }
    forall i | i in t'.identities ensures IdentityRow(t', i) {
      assert IdentityRow(t, i);
    }
  }

  lemma EraseKeepsOwned(t: Tables, e: Target)
    requires Owned(t)
    ensures Owned(Erase(t, e))
  {
    var t' := Erase(t, e);
    forall a | a in t'.accounts ensures AccountRow(t', a) {
      assert AccountRow(t, a);
    }
    forall i | i in t'.installations ensures InstallationRow(t', i) {
      assert InstallationRow(t, i);
    }
  }

  lemma EraseKeepsAliased(t: Tables, e: Target)
    requires Owned(t) && Aliased(t)
    ensures Aliased(Erase(t, e))
  {
    var t' := Erase(t, e);
    UnkeyedIsInverse(t, ErasedAliases(t, e));
    forall k | k in t'.aliases ensures AliasRow(t', k) {
      assert AliasRow(t, k);
      SurvivingAlias(t, e, k);
    }
  }

  lemma UnkeyedIsInverse(t: Tables, keys: set<Id>)
    requires Aliased(t)
    ensures var t' := DropAliases(t, keys);
      && (forall x :: x in t'.aliasKeys ==> t'.aliasKeys[x] in t'.aliases && t'.aliases[t'.aliasKeys[x]].key == x)
      && (forall k :: k in t'.aliases ==> t'.aliases[k].key in t'.aliasKeys && t'.aliasKeys[t'.aliases[k].key] == k)
  {
    assert forall k :: k in t.aliases ==> AliasRow(t, k);
  }

  /** An alias that outlives an erasure still carries the right person. */
  lemma SurvivingAlias(t: Tables, e: Target, k: Id)
    requires Owned(t) && k in t.aliases && AliasRow(t, k) && !ErasesAlias(t, e, t.aliases[k])
    ensures var t', a := Erase(t, e), t.aliases[k];
      && (a.person.Some? ==> a.person.value in t'.persons && !t'.persons[a.person.value].deleted)
      && match a.key.subject
         case OfPerson(p) => true
         case OfAccount(x) => x in t'.accounts && t'.accounts[x].person == t.accounts[x].person
         case OfInstallation(i) =>
           i in t'.installations && t'.installations[i].product == t.installations[i].product
           && (a.key.product == t.installations[i].product ==> t'.installations[i] == t.installations[i])
  {
  }

  // ---------------------------------------------------------------- whole runs

  datatype World = World(t: Tables, keys: Keyring)

  datatype Op =
    | OpRegister(email: Id, input: NewIdentity)
    | OpInstall(id: Id, product: Id)
    | OpAlias(handle: Id, key: AliasKey)
    | OpErase(target: Target)
    | OpRotate(keys: Keyring)

  /** A process starts with new keys only if the startup check passes. */
  ghost predicate Possible(w: World, op: Op) {
    op.OpRotate? ==> op.keys.Valid() && Configured(w.t, op.keys)
  }

  function Next(w: World, op: Op): World {
    match op
    case OpRegister(email, n) =>
      var r := Register(w.t, w.keys, email, n);
      if r.Ok? then w.(t := r.value.0) else w
    case OpInstall(id, product) =>
      var r := CreateInstallation(w.t, id, product);
      if r.Ok? then w.(t := r.value) else w
    case OpAlias(handle, key) =>
      var r := EnsureAlias(w.t, handle, key);
      if r.Ok? then w.(t := r.value) else w
    case OpErase(target) => w.(t := Erase(w.t, target))
    case OpRotate(keys) => w.(keys := keys)
  }

  function Run(keys: Keyring, ops: seq<Op>): World {
    if ops == [] then World(EMPTY, keys) else Next(Run(keys, ops[..|ops| - 1]), ops[|ops| - 1])
  }

  ghost predicate Legal(keys: Keyring, ops: seq<Op>) {
    if ops == [] then keys.Valid()
    else Legal(keys, ops[..|ops| - 1]) && Possible(Run(keys, ops[..|ops| - 1]), ops[|ops| - 1])
  }

  ghost predicate Good(w: World) {
    Sound(w.t) && w.keys.Valid() && Configured(w.t, w.keys)
  }

  lemma StepIsGood(w: World, op: Op)
    requires Good(w) && Possible(w, op)
    ensures Good(Next(w, op))
  {
    match op
    case OpRegister(email, n) =>
      if Register(w.t, w.keys, email, n).Ok? {
        RegisterIsSound(w.t, w.keys, email, n);
        var (t', r) := Register(w.t, w.keys, email, n).value;
        RegisterKeepsVersions(w.t, w.keys, email, n, t', r);
      }
    case OpInstall(id, product) =>
      if CreateInstallation(w.t, id, product).Ok? {
        InstallIsSound(w.t, id, product);
      }
    case OpAlias(handle, key) =>
      if EnsureAlias(w.t, handle, key).Ok? {
        AliasIsSound(w.t, handle, key);
      }
    case OpErase(target) => EraseIsSound(w.t, target);
    case OpRotate(_) =>
  }

  /** In every reachable state the blind index rows of one email lead to one existing
      identity, and the alias tables are inverses that carry the right person. */
  lemma {:induction false} RunIsGood(keys: Keyring, ops: seq<Op>)
    requires Legal(keys, ops)
    ensures Good(Run(keys, ops))
  {
    if ops != [] {
      RunIsGood(keys, ops[..|ops| - 1]);
      StepIsGood(Run(keys, ops[..|ops| - 1]), ops[|ops| - 1]);
    }
  }

  /** Some row, under any key version, knows this email. */
  ghost predicate Known(t: Tables, space: Id, scope: Scope, email: Id) {
    exists v: nat :: KeyAt(space, scope, v, email) in t.indexes
  }

  /** A committed registration creates a person exactly when no row knows the email, and
      otherwise returns the person every such row leads to. */
  lemma RegistrationDeduplicates(keys: Keyring, ops: seq<Op>, email: Id, n: NewIdentity, t': Tables, r: Registered)
    requires Legal(keys, ops)
    requires Register(Run(keys, ops).t, Run(keys, ops).keys, email, n) == Ok((t', r))
    ensures var t := Run(keys, ops).t;
      && (r.created <==> !Known(t, n.space, n.Scope(), email))
      && t'.persons.Keys == t.persons.Keys + (if r.created then {n.person} else {})
      && (!r.created ==> r.identity in t.identities && t.identities[r.identity].person == r.person)
      && (forall v: nat :: KeyAt(n.space, n.Scope(), v, email) in t.indexes ==>
            t.indexes[KeyAt(n.space, n.Scope(), v, email)] == r.identity)
      && KeyAt(n.space, n.Scope(), Run(keys, ops).keys.current, email) in t'.indexes
  {
    RunIsGood(keys, ops);
    var w := Run(keys, ops);
    RegisterHasEffect(w.t, w.keys, email, n, t', r);
    KnownIsMatched(w.t, w.keys, n.space, n.Scope(), email);
    if !r.created {
      var found := KeyAt(n.space, n.Scope(), r.matched, email);
      forall v: nat | KeyAt(n.space, n.Scope(), v, email) in w.t.indexes
        ensures w.t.indexes[KeyAt(n.space, n.Scope(), v, email)] == r.identity
      {
        assert SameEmail(KeyAt(n.space, n.Scope(), v, email), found);
      }
    }
  }

  lemma KnownIsMatched(t: Tables, k: Keyring, space: Id, scope: Scope, email: Id)
    requires Configured(t, k)
    ensures Known(t, space, scope, email) <==> FirstMatch(t, k.versions, space, scope, email).Some?
  {
    MatchExists(t, k.versions, space, scope, email);
    if Known(t, space, scope, email) {
      var v: nat :| KeyAt(space, scope, v, email) in t.indexes;
      assert v in k.versions;
    }
  }

  /** What the startup check is for: under any keyring, a registration of a known email that
      commits enrolls a second person if and only if none of the versions the email is
      indexed under is configured. */
  lemma DuplicatesIffUnconfigured(t: Tables, k: Keyring, email: Id, n: NewIdentity, t': Tables, r: Registered)
    requires Known(t, n.space, n.Scope(), email) && Register(t, k, email, n) == Ok((t', r))
    ensures r.created <==> forall v: nat :: KeyAt(n.space, n.Scope(), v, email) in t.indexes ==> v !in k.versions
    ensures r.created ==> n.person !in t.persons && n.person in t'.persons && !Configured(t, k)
  {
    RegisterHasEffect(t, k, email, n, t', r);
    MatchExists(t, k.versions, n.space, n.Scope(), email);
    var v: nat :| KeyAt(n.space, n.Scope(), v, email) in t.indexes;
  }

  /** Such a case: the only referenced version is dropped from the keyring, and the same
      email is enrolled as a second person. */
  lemma DroppedVersionDuplicatesPerson()
    ensures var first := NewIdentity(1, 10, 20, 5, 0, false, false, None);
      var second := NewIdentity(2, 11, 21, 5, 0, false, false, None);
      var t := Register(EMPTY, Keyring([1], 1), 99, first).value.0;
      && Register(EMPTY, Keyring([1], 1), 99, first).Ok?
      && !Configured(t, Keyring([2], 2))
      && Register(t, Keyring([2], 2), 99, second).Ok?
      && Register(t, Keyring([2], 2), 99, second).value.1.created
  {
    var first := NewIdentity(1, 10, 20, 5, 0, false, false, None);
    var second := NewIdentity(2, 11, 21, 5, 0, false, false, None);
    assert FirstMatch(EMPTY, [1], 0, WithinProduct(5), 99) == None;
    var t := Register(EMPTY, Keyring([1], 1), 99, first).value.0;
    assert KeyAt(0, WithinProduct(5), 1, 99) in t.indexes;
    assert FirstMatch(t, [2], 0, WithinProduct(5), 99) == None;
  }

  // ----------------------------------------------- what key rotation does to lookups

  /** The current version's row exists and so does one of a lower configured version. */
  ghost predicate Shadowed(t: Tables, k: Keyring, space: Id, scope: Scope, email: Id) {
    && KeyAt(space, scope, k.current, email) in t.indexes
    && exists v: nat :: v in k.versions && v < k.current && KeyAt(space, scope, v, email) in t.indexes
  }

  lemma {:induction false} FirstMatchIsLowest(t: Tables, versions: seq<nat>, space: Id, scope: Scope, email: Id)
    requires forall i, j :: 0 <= i < j < |versions| ==> versions[i] < versions[j]
    ensures var m := FirstMatch(t, versions, space, scope, email);
      forall v :: v in versions && KeyAt(space, scope, v, email) in t.indexes ==> m.Some? && m.value <= v
  {
    if versions != [] {
      FirstMatchIsLowest(t, versions[1..], space, scope, email);
    }
  }

  /** What the end of a registration needs: a free account identifier if the person still
      needs an account, and an installation of this product that is enabled and not bound to
      somebody else. */
  predicate CanFinish(t: Tables, n: NewIdentity, person: Id) {
    && (n.createAccount && person !in t.accountOf ==> n.account !in t.accounts)
    && (n.installation.Some? ==>
          && n.installation.value in t.installations
          && (var i := t.installations[n.installation.value];
              i.product == n.product && !i.disabled && (i.person == None || i.person == Some(person))))
  }

  lemma FinishesIff(t: Tables, n: NewIdentity, person: Id)
    ensures AccountAndLink(t, n, n.createAccount && person !in t.accountOf, person).Ok? <==> CanFinish(t, n, person)
  {
  }

  /** Lookup stops at the lowest version, so the migrating INSERT collides exactly when the
      email is shadowed. Registering a known email commits if and only if it is not, and the
      account and installation of its person can be finished; a collision is a conflict
      whatever else was asked for. `v` is any version under which the email is indexed. */
  lemma RegistrationCollidesIff(t: Tables, k: Keyring, email: Id, n: NewIdentity, v: nat)
    requires Indexed(t) && k.Valid() && Configured(t, k) && KeyAt(n.space, n.Scope(), v, email) in t.indexes
    ensures t.indexes[KeyAt(n.space, n.Scope(), v, email)] in t.identities
    ensures var person := t.identities[t.indexes[KeyAt(n.space, n.Scope(), v, email)]].person;
      Register(t, k, email, n).Ok? <==> !Shadowed(t, k, n.space, n.Scope(), email) && CanFinish(t, n, person)
    ensures Shadowed(t, k, n.space, n.Scope(), email) ==> Register(t, k, email, n) == Err(Conflict)
  {
    var known := KeyAt(n.space, n.Scope(), v, email);
    MatchExists(t, k.versions, n.space, n.Scope(), email);
    FirstMatchIsLowest(t, k.versions, n.space, n.Scope(), email);
    assert IndexRow(t, known) && v in k.versions;
    var matched := FirstMatch(t, k.versions, n.space, n.Scope(), email).value;
    var found := KeyAt(n.space, n.Scope(), matched, email);
    assert IndexRow(t, found) && SameEmail(known, found);
    RejoinsIff(t, k, email, n, matched);
  }

  lemma RejoinsIff(t: Tables, k: Keyring, email: Id, n: NewIdentity, matched: nat)
    requires KeyAt(n.space, n.Scope(), matched, email) in t.indexes
    requires t.indexes[KeyAt(n.space, n.Scope(), matched, email)] in t.identities
    ensures var person := t.identities[t.indexes[KeyAt(n.space, n.Scope(), matched, email)]].person;
      var collides := matched != k.current && KeyAt(n.space, n.Scope(), k.current, email) in t.indexes;
      && (Rejoin(t, k, email, n, matched).Ok? <==> !collides && CanFinish(t, n, person))
      && (collides ==> Rejoin(t, k, email, n, matched) == Err(Conflict))
  {
    var id := t.indexes[KeyAt(n.space, n.Scope(), matched, email)];
    var person := t.identities[id].person;
    var now := KeyAt(n.space, n.Scope(), k.current, email);
    if matched == k.current {
      FinishesIff(t, n, person);
    } else if now !in t.indexes {
      var t1 := InsertIndex(t, now, id).value;
      FinishesIff(t1, n, person);
      assert CanFinish(t1, n, person) <==> CanFinish(t, n, person);
    }
  }

  /** A registration that migrates an index forward locks its email out: the next
      registration under the same keys fails, for every input. */
  lemma MigrationLocksOut(
      t: Tables, k: Keyring, email: Id, n: NewIdentity, t': Tables, r: Registered, again: NewIdentity)
    requires Sound(t) && k.Valid() && Configured(t, k)
    requires Register(t, k, email, n) == Ok((t', r)) && r.matched < k.current
    requires again.space == n.space && again.Scope() == n.Scope()
    ensures Register(t', k, email, again) == Err(Conflict)
  {
    RegisterHasEffect(t, k, email, n, t', r);
    RegisterIsSound(t, k, email, n);
    RegisterKeepsVersions(t, k, email, n, t', r);
    MatchExists(t, k.versions, n.space, n.Scope(), email);
    assert KeyAt(n.space, n.Scope(), r.matched, email) in t'.indexes;
    assert KeyAt(n.space, n.Scope(), k.current, email) in t'.indexes;
    RegistrationCollidesIff(t', k, email, again, k.current);
  }

  // A run that locks an email out: one registration, then a key is added.
  const FIRST: NewIdentity := NewIdentity(1, 10, 20, 5, 0, false, false, None)
  const AGAIN: NewIdentity := NewIdentity(2, 11, 21, 5, 0, false, false, None)
  const LOCKING: seq<Op> := [OpRegister(99, FIRST), OpRotate(Keyring([1, 2], 2))]

  lemma RunAppends(keys: Keyring, ops: seq<Op>, op: Op)
    requires Legal(keys, ops) && Possible(Run(keys, ops), op)
    ensures Legal(keys, ops + [op]) && Run(keys, ops + [op]) == Next(Run(keys, ops), op)
  {
    assert (ops + [op])[..|ops + [op]| - 1] == ops;
  }

  lemma AfterRotation()
    ensures Legal(Keyring([1], 1), LOCKING)
    ensures var w, key := Run(Keyring([1], 1), LOCKING), KeyAt(0, WithinProduct(5), 1, 99);
      && w.keys == Keyring([1, 2], 2) && w.t.indexes == map[key := 1]
      && w.t.identities == map[1 := Identity(10, 5, 0, WithinProduct(5))]
  {
    var keys, key := Keyring([1], 1), KeyAt(0, WithinProduct(5), 1, 99);
    assert keys.versions[0] == 1 && Legal(keys, []);
    assert FirstMatch(EMPTY, [1], 0, WithinProduct(5), 99) == None;
    RunAppends(keys, [], OpRegister(99, FIRST));
    var w := Run(keys, [OpRegister(99, FIRST)]);
    assert [] + [OpRegister(99, FIRST)] == [OpRegister(99, FIRST)];
    assert w.t.indexes == map[key := 1];
    var both := Keyring([1, 2], 2);
    assert both.versions[0] == 1 && both.versions[1] == 2;
    RunAppends(keys, [OpRegister(99, FIRST)], OpRotate(both));
    assert [OpRegister(99, FIRST)] + [OpRotate(both)] == LOCKING;
  }

  /** The lock-out happens: after that run the email can be registered once more, which
      migrates it, and from then on no registration of it commits. */
  lemma LockOutHappens(n: NewIdentity)
    requires n.space == 0 && n.Scope() == WithinProduct(5)
    ensures Legal(Keyring([1], 1), LOCKING)
    ensures var w := Run(Keyring([1], 1), LOCKING);
      && Register(w.t, w.keys, 99, AGAIN).Ok? && Register(w.t, w.keys, 99, AGAIN).value.1.matched == 1
      && Register(Register(w.t, w.keys, 99, AGAIN).value.0, w.keys, 99, n) == Err(Conflict)
  {
    AfterRotation();
    RunIsGood(Keyring([1], 1), LOCKING);
    var w := Run(Keyring([1], 1), LOCKING);
    assert KeyAt(0, WithinProduct(5), 2, 99) !in w.t.indexes;
    RegistrationCollidesIff(w.t, w.keys, 99, AGAIN, 1);
    var (t', r) := Register(w.t, w.keys, 99, AGAIN).value;
    assert w.keys.versions[0] == 1;
    MigrationLocksOut(w.t, w.keys, 99, AGAIN, t', r, n);
  }

  /** No step but an erasure removes an index row. */
  lemma IndexRowsStay(w: World, op: Op, key: IndexKey)
    requires key in w.t.indexes && !op.OpErase?
    ensures key in Next(w, op).t.indexes
  {
    if op.OpRegister? && Register(w.t, w.keys, op.email, op.input).Ok? {
      var (t', r) := Register(w.t, w.keys, op.email, op.input).value;
      RegisterHasEffect(w.t, w.keys, op.email, op.input, t', r);
    }
  }

  /** The lock-out lasts: only an erasure or another key change can end it. */
  lemma LockOutPersists(w: World, op: Op, space: Id, scope: Scope, email: Id)
    requires Shadowed(w.t, w.keys, space, scope, email) && !op.OpErase? && !op.OpRotate?
    ensures Shadowed(Next(w, op).t, Next(w, op).keys, space, scope, email)
  {
    var v: nat :| v in w.keys.versions && v < w.keys.current && KeyAt(space, scope, v, email) in w.t.indexes;
    IndexRowsStay(w, op, KeyAt(space, scope, v, email));
    IndexRowsStay(w, op, KeyAt(space, scope, w.keys.current, email));
  }

  // ---------------------------------------------------------------- fan-out and erasure

  /** What a deletion of the person has to reach. */
  ghost predicate BelongsTo(t: Tables, key: AliasKey, person: Id) {
    match key.subject
    case OfPerson(p) => p == person
    case OfAccount(a) => a in t.accounts && t.accounts[a].person == person
    case OfInstallation(i) =>
      i in t.installations && t.installations[i].person == Some(person) && t.installations[i].product == key.product
  }

  /** Fan-out by person finds every alias of the person, of their accounts, and of their
      installations in those installations' own products; nothing else but installation
      aliases issued for a foreign product can appear in it. */
  ghost predicate Reached(t: Tables, person: Id, product: Option<Id>, k: Id)
    requires k in t.aliases
  {
    var a := t.aliases[k];
    && (BelongsTo(t, a.key, person) && InProduct(a.key.product, product) ==> k in FanoutAliases(t, person, product))
    && (k in FanoutAliases(t, person, product) ==>
          BelongsTo(t, a.key, person)
          || (a.key.subject.OfInstallation? && a.key.subject.id in t.installations
              && t.installations[a.key.subject.id].product != a.key.product))
  }

  lemma FanoutReaches(t: Tables, person: Id, product: Option<Id>, k: Id)
    requires Aliased(t) && k in t.aliases
    ensures Reached(t, person, product, k)
  {
    assert AliasRow(t, k);
  }

  lemma FanoutIsComplete(keys: Keyring, ops: seq<Op>, person: Id, product: Option<Id>, k: Id)
    requires Legal(keys, ops) && k in Run(keys, ops).t.aliases
    ensures Reached(Run(keys, ops).t, person, product, k)
  {
    RunIsGood(keys, ops);
    FanoutReaches(Run(keys, ops).t, person, product, k);
  }

  /** Deleting a person in one product removes exactly their identities within that product;
      identities linked across products stay. */
  lemma ProductErasureTakesIdentityIff(t: Tables, person: Id, product: Id, i: Id)
    requires Indexed(t) && i in t.identities
    ensures i !in Erase(t, PersonInProduct(person, product)).identities <==>
            t.identities[i].person == person && t.identities[i].scope == WithinProduct(product)
  {
    assert IdentityRow(t, i);
  }

  /** An erased person keeps nothing that could identify them, now or later. */
  ghost predicate Gone(t: Tables, person: Id) {
    && person in t.persons && t.persons[person].deleted
    && (forall i :: i in t.identities ==> t.identities[i].person != person)
    && (forall i :: i in t.installations ==> t.installations[i].person != Some(person))
    && (forall a :: a in t.accounts && t.accounts[a].person == person ==> !t.accounts[a].active)
    && (forall k :: k in t.aliases ==> t.aliases[k].person != Some(person))
  }

  lemma DeletedMeansGone(t: Tables, person: Id)
    requires Sound(t) && person in t.persons && t.persons[person].deleted
    ensures Gone(t, person)
  {
    assert forall i :: i in t.identities ==> IdentityRow(t, i);
    assert forall i :: i in t.installations ==> InstallationRow(t, i);
    assert forall a :: a in t.accounts ==> AccountRow(t, a);
    assert forall k :: k in t.aliases ==> AliasRow(t, k);
  }

  /** Person rows are never removed, and deletion is never undone. */
  lemma DeletionIsForever(w: World, op: Op, person: Id)
    requires person in w.t.persons
    ensures person in Next(w, op).t.persons
    ensures w.t.persons[person].deleted ==> Next(w, op).t.persons[person].deleted
  {
    if op.OpRegister? && Register(w.t, w.keys, op.email, op.input).Ok? {
      var (t', r) := Register(w.t, w.keys, op.email, op.input).value;
      RegisterHasEffect(w.t, w.keys, op.email, op.input, t', r);
    }
  }

  lemma {:induction false} ErasureIsForever(keys: Keyring, ops: seq<Op>, person: Id, i: nat)
    requires Legal(keys, ops) && i < |ops| && ops[i] == OpErase(ThePerson(person))
    requires person in Run(keys, ops[..i]).t.persons
    ensures Gone(Run(keys, ops).t, person)
  {
    var before := ops[..|ops| - 1];
    assert before[..i] == ops[..i];
    KnownForever(keys, before, i, person);
    DeletionIsForever(Run(keys, before), ops[|ops| - 1], person);
    if i < |ops| - 1 {
      ErasureIsForever(keys, before, person, i);
    }
    RunIsGood(keys, ops);
    DeletedMeansGone(Run(keys, ops).t, person);
  }

  lemma {:induction false} KnownForever(keys: Keyring, ops: seq<Op>, i: nat, person: Id)
    requires i <= |ops| && person in Run(keys, ops[..i]).t.persons
    ensures person in Run(keys, ops).t.persons
    decreases |ops| - i
  {
    if i < |ops| {
      RunUnfolds(keys, ops, i);
      DeletionIsForever(Run(keys, ops[..i]), ops[i], person);
      KnownForever(keys, ops, i + 1, person);
    } else {
      assert ops[..i] == ops;
    }
  }

  lemma RunUnfolds(keys: Keyring, ops: seq<Op>, i: nat)
    requires i < |ops|
    ensures Run(keys, ops[..i + 1]) == Next(Run(keys, ops[..i]), ops[i])
  {
    assert ops[..i + 1][..i] == ops[..i];
  }

  // ------------------------------------------------------ what lasts through any step

  /** Rows that are never taken back: persons and their deletion, the person of an account,
      the product and the disabling of an installation. Nobody gains an identity later. */
  ghost predicate Lasting(t: Tables, t': Tables) {
    && (forall p :: p in t.persons ==> p in t'.persons && (t.persons[p].deleted ==> t'.persons[p].deleted))
    && (forall a :: a in t.accounts ==> a in t'.accounts && t'.accounts[a].person == t.accounts[a].person)
    && (forall i ::
        i in t.installations ==> i in t'.installations && InstallationLasts(t.installations[i], t'.installations[i]))
    && (forall i :: i in t'.identities && t'.identities[i].person in t.persons ==>
          i in t.identities && t'.identities[i] == t.identities[i])
  }

  ghost predicate InstallationLasts(i: Installation, i': Installation) {
    i'.product == i.product && (i.disabled ==> i'.disabled)
  }

  /** The end of a registration touches one account and one installation. */
  ghost predicate Linked(t: Tables, t': Tables, n: NewIdentity, person: Id) {
    && (forall a :: a in t.accounts ==> a in t'.accounts && t'.accounts[a] == t.accounts[a])
    && t'.installations.Keys == t.installations.Keys
    && (forall i :: i in t.installations ==>
          || t'.installations[i] == t.installations[i]
          || (t.installations[i].person == None && t'.installations[i] == t.installations[i].(person := Some(person))))
    && (n.installation.Some? ==>
          && n.installation.value in t'.installations
          && t'.installations[n.installation.value].person == Some(person)
          && t'.installations[n.installation.value].product == n.product)
  }

  lemma TailLinks(t: Tables, n: NewIdentity, create: bool, person: Id)
    requires AccountAndLink(t, n, create, person).Ok?
    ensures Linked(t, AccountAndLink(t, n, create, person).value, n, person)
  {
  }

  lemma RegisterLinks(t: Tables, k: Keyring, email: Id, n: NewIdentity, t': Tables, r: Registered)
    requires Register(t, k, email, n) == Ok((t', r))
    ensures Linked(t, t', n, r.person)
  {
    MatchExists(t, k.versions, n.space, n.Scope(), email);
    match FirstMatch(t, k.versions, n.space, n.Scope(), email)
    case Some(matched) =>
      var id := t.indexes[KeyAt(n.space, n.Scope(), matched, email)];
      var t1 := if matched == k.current
          then t else InsertIndex(t, KeyAt(n.space, n.Scope(), k.current, email), id).value;
      TailLinks(t1, n, n.createAccount && r.person !in t.accountOf, r.person);
    case None =>
      var t0 := t.(persons := t.persons[n.person := Person(false)],
                   identities := t.identities[n.id := Identity(n.person, n.product, n.space, n.Scope())]);
      TailLinks(InsertIndex(t0, KeyAt(n.space, n.Scope(), k.current, email), n.id).value, n, n.createAccount, n.person);
  }

  lemma RegisterLasts(t: Tables, k: Keyring, email: Id, n: NewIdentity, t': Tables, r: Registered)
    requires Register(t, k, email, n) == Ok((t', r))
    ensures Lasting(t, t')
  {
    RegisterHasEffect(t, k, email, n, t', r);
    RegisterLinks(t, k, email, n, t', r);
    AdditionsLast(t, t', n, r);
  }

  /** Adding one person with one identity, an account and a binding takes nothing back. */
  lemma AdditionsLast(t: Tables, t': Tables, n: NewIdentity, r: Registered)
    requires Linked(t, t', n, r.person)
    requires t'.persons == t.persons || t'.persons == t.persons[n.person := Person(false)]
    requires n.person in t.persons ==> t'.persons == t.persons
    requires || t'.identities == t.identities
             || (n.person !in t.persons
                 && t'.identities == t.identities[n.id := Identity(n.person, n.product, n.space, n.Scope())])
    ensures Lasting(t, t')
  {
  }

  lemma EraseLasts(t: Tables, e: Target)
    ensures Lasting(t, Erase(t, e))
  {
  }

  lemma StepLasts(w: World, op: Op)
    ensures Lasting(w.t, Next(w, op).t)
  {
    match op
    case OpRegister(email, n) =>
      if Register(w.t, w.keys, email, n).Ok? {
        var (t', r) := Register(w.t, w.keys, email, n).value;
        RegisterLasts(w.t, w.keys, email, n, t', r);
      }
    case OpErase(e) => EraseLasts(w.t, e);
    case _ =>
  }

  // ------------------------------------------- exactly when, and exactly what

  /** An unknown email is enrolled if and only if the new identifiers are unused and its
      installation can be bound to a new person. */
  lemma EnrollmentCommitsIff(t: Tables, k: Keyring, email: Id, n: NewIdentity)
    requires Configured(t, k) && !Known(t, n.space, n.Scope(), email)
    requires Owned(t) && k.Valid()
    ensures Register(t, k, email, n).Ok? <==>
            n.person !in t.persons && n.id !in t.identities && CanFinish(t, n, n.person)
  {
    KnownIsMatched(t, k, n.space, n.Scope(), email);
    assert KeyAt(n.space, n.Scope(), k.current, email) !in t.indexes;
    if n.person !in t.persons && n.id !in t.identities {
      assert n.person !in t.accountOf by {
        assert n.person in t.accountOf ==> AccountRow(t, t.accountOf[n.person]);
      }
      var t0 := t.(persons := t.persons[n.person := Person(false)],
                   identities := t.identities[n.id := Identity(n.person, n.product, n.space, n.Scope())]);
      var t1 := InsertIndex(t0, KeyAt(n.space, n.Scope(), k.current, email), n.id).value;
      FinishesIff(t1, n, n.person);
      assert CanFinish(t1, n, n.person) <==> CanFinish(t, n, n.person);
    }
  }

  /** The account a registration reports is the person's, there is one if one was asked for,
      and the installation ends up bound to the person. */
  lemma RegistrationReportsAccount(t: Tables, k: Keyring, email: Id, n: NewIdentity, t': Tables, r: Registered)
    requires Sound(t) && Configured(t, k) && Register(t, k, email, n) == Ok((t', r))
    ensures r.account == (if r.person in t'.accountOf then Some(t'.accountOf[r.person]) else None)
    ensures n.createAccount ==> r.account.Some?
    ensures r.account.Some? ==>
        r.account.value in t'.accounts && t'.accounts[r.account.value] == Account(r.person, true)
    ensures n.installation.Some? ==>
              && n.installation.value in t'.installations
              && t'.installations[n.installation.value] == Installation(n.product, Some(r.person), false)
  {
    RegisterIsSound(t, k, email, n);
    RegisterHasEffect(t, k, email, n, t', r);
    RegisterLinks(t, k, email, n, t', r);
    RegistersAccount(t, k, email, n, t', r);
    assert r.person in t'.persons && !t'.persons[r.person].deleted by {
      assert IdentityRow(t', r.identity);
    }
    if r.account.Some? {
      assert AccountRow(t', r.account.value);
    }
    if n.installation.Some? {
      assert InstallationRow(t', n.installation.value);
    }
  }

  lemma TailAccounts(t: Tables, n: NewIdentity, create: bool, person: Id)
    requires AccountAndLink(t, n, create, person).Ok?
    ensures AccountAndLink(t, n, create, person).value.accountOf
         == if create then t.accountOf[person := n.account] else t.accountOf
  {
  }

  lemma RegistersAccount(t: Tables, k: Keyring, email: Id, n: NewIdentity, t': Tables, r: Registered)
    requires Owned(t) && Register(t, k, email, n) == Ok((t', r))
    ensures r.account == (if r.person in t'.accountOf then Some(t'.accountOf[r.person]) else None)
    ensures n.createAccount ==> r.account.Some?
  {
    MatchExists(t, k.versions, n.space, n.Scope(), email);
    match FirstMatch(t, k.versions, n.space, n.Scope(), email)
    case Some(matched) => RejoinsAccount(t, k, email, n, matched);
    case None => EnrollsAccount(t, k, email, n);
  }

  lemma RejoinsAccount(t: Tables, k: Keyring, email: Id, n: NewIdentity, matched: nat)
    requires KeyAt(n.space, n.Scope(), matched, email) in t.indexes && Rejoin(t, k, email, n, matched).Ok?
    ensures var (t', r) := Rejoin(t, k, email, n, matched).value;
      && r.account == (if r.person in t'.accountOf then Some(t'.accountOf[r.person]) else None)
      && (n.createAccount ==> r.account.Some?)
  {
    var id := t.indexes[KeyAt(n.space, n.Scope(), matched, email)];
    var person := t.identities[id].person;
    var t1 :=
      if matched == k.current then t else InsertIndex(t, KeyAt(n.space, n.Scope(), k.current, email), id).value;
    TailAccounts(t1, n, n.createAccount && person !in t.accountOf, person);
  }

  lemma EnrollsAccount(t: Tables, k: Keyring, email: Id, n: NewIdentity)
    requires Owned(t) && Enroll(t, k, email, n).Ok?
    ensures var (t', r) := Enroll(t, k, email, n).value;
      && r.account == (if r.person in t'.accountOf then Some(t'.accountOf[r.person]) else None)
      && (n.createAccount ==> r.account.Some?)
  {
    assert n.person in t.accountOf ==> AccountRow(t, t.accountOf[n.person]);
    var t0 := t.(persons := t.persons[n.person := Person(false)],
                 identities := t.identities[n.id := Identity(n.person, n.product, n.space, n.Scope())]);
    TailAccounts(InsertIndex(t0, KeyAt(n.space, n.Scope(), k.current, email), n.id).value, n, n.createAccount,
        n.person);
  }

  /** An alias is ensured if and only if its subject is usable and neither table knows the
      handle or the key otherwise; then both tables hold the pair. */
  lemma AliasIsEnsuredIff(t: Tables, handle: Id, key: AliasKey)
    requires Aliased(t)
    ensures EnsureAlias(t, handle, key).Ok? <==>
      && (match key.subject
          case OfPerson(p) => p in t.persons && !t.persons[p].deleted
          case OfAccount(a) => a in t.accounts && t.accounts[a].active
          case OfInstallation(i) => i in t.installations && !t.installations[i].disabled)
      && (handle in t.aliases ==> t.aliases[handle].key == key)
      && (key in t.aliasKeys ==> t.aliasKeys[key] == handle)
    ensures EnsureAlias(t, handle, key).Ok? ==>
      var t' := EnsureAlias(t, handle, key).value;
      && handle in t'.aliases && t'.aliases[handle].key == key && key in t'.aliasKeys && t'.aliasKeys[key] == handle
      && t'.aliases == t.aliases[handle := t'.aliases[handle]] && t'.aliasKeys == t.aliasKeys[key := handle]
  {
    if handle in t.aliases {
      assert AliasRow(t, handle);
    }
  }

  /** An installation is created once; the same request finds it while it is enabled, and a
      disabled or foreign one is refused. */
  lemma InstallationIsCreatedIff(t: Tables, id: Id, product: Id)
    ensures CreateInstallation(t, id, product).Ok? <==>
            id !in t.installations || (!t.installations[id].disabled && t.installations[id].product == product)
    ensures CreateInstallation(t, id, product).Ok? ==>
      var t' := CreateInstallation(t, id, product).value;
      && t' == t.(installations := t.installations[id := t'.installations[id]])
      && t'.installations[id] ==
          (if id in t.installations then t.installations[id] else Installation(product, None, false))
  {
  }

  /** Whose the erased rows are: a person's everywhere or in one product, or one
      installation's of one product. */
  predicate TakesPerson(e: Target, person: Id, product: Id) {
    match e
    case ThePerson(p) => person == p
    case PersonInProduct(p, q) => person == p && product == q
    case OneInstallation(_, _) => false
  }

  /** A product's erasure spares identities linked across products. */
  predicate TakesIdentity(e: Target, i: Identity) {
    if e.ThePerson? then i.person == e.person
    else i.scope.WithinProduct? && TakesPerson(e, i.person, i.scope.product)
  }

  predicate TakesDevice(t: Tables, e: Target, i: Id)
    requires i in t.installations
  {
    match e
    case OneInstallation(id, q) => i == id && t.installations[i].product == q
    case _ =>
      && t.installations[i].person.Some?
      && TakesPerson(e, t.installations[i].person.value, t.installations[i].product)
  }

  /** An erasure removes exactly the identities of the person in scope, with their index rows,
      and disables and unbinds exactly the installations in scope. Accounts and persons change
      only when the whole person goes. */
  lemma ErasureTakesExactly(t: Tables, e: Target)
    requires Indexed(t)
    ensures var t' := Erase(t, e);
      && (forall i :: i in t.identities ==>
            (i !in t'.identities <==> TakesIdentity(e, t.identities[i])))
      && (forall i :: i in t'.identities ==> i in t.identities && t'.identities[i] == t.identities[i])
      && (forall x :: x in t'.indexes <==> x in t.indexes && t.indexes[x] in t'.identities)
      && (forall x :: x in t'.indexes ==> t'.indexes[x] == t.indexes[x])
      && t'.installations.Keys == t.installations.Keys
      && (forall i :: i in t.installations ==>
            t'.installations[i] ==
              if TakesDevice(t, e, i) then Installation(t.installations[i].product, None, true) else t.installations[i])
  {
    var t' := Erase(t, e);
    forall i | i in t.identities ensures IdentityRow(t, i) {
    }
    assert forall x :: x in t.indexes ==> IndexRow(t, x);
  }

  lemma ErasureBuriesExactly(t: Tables, e: Target)
    ensures var t' := Erase(t, e);
      && t'.accountOf == t.accountOf && t'.persons.Keys == t.persons.Keys && t'.accounts.Keys == t.accounts.Keys
      && (forall p :: p in t.persons ==> t'.persons[p] == if e == ThePerson(p) then Person(true) else t.persons[p])
      && (forall a :: a in t.accounts ==>
            t'.accounts[a] ==
                Account(t.accounts[a].person, t.accounts[a].active && e != ThePerson(t.accounts[a].person)))
  {
  }

  /** And it removes exactly the aliases that carry the person in scope or belong to an
      installation in scope. */
  lemma ErasureTakesAliasIff(t: Tables, e: Target, k: Id)
    requires k in t.aliases && Aliased(t)
    ensures var a := t.aliases[k];
      k !in Erase(t, e).aliases <==>
        || (a.person.Some? && TakesPerson(e, a.person.value, a.key.product))
        || (a.key.subject.OfInstallation? && TakesDevice(t, e, a.key.subject.id) &&
            (e.ThePerson? || a.key.product == e.product))
        || (e.OneInstallation? && a.key.subject == OfInstallation(e.installation) && a.key.product == e.product)
    ensures k in Erase(t, e).aliases ==> Erase(t, e).aliases[k] == t.aliases[k]
  {
    assert AliasRow(t, k);
  }
}
