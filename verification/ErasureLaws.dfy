/** Exactly which public rows an erasure takes: by installation, by the email of the erased
    identities, and by account (internal/store/public_account_erasure.go). */
module ErasureLaws {
  import opened Common
  import A = Accounts
  import C = Challenges
  import D = Deletion
  import Registry
  import Saga
  import Service

  /** The installation's rows in this product are erased: it is the one named, or it is bound
      to the person. */
  predicate OnErasedDevice(t: Registry.Tables, e: Registry.Target, installation: Id, product: Id) {
    match e
    case OneInstallation(i, q) => installation == i && product == q
    case ThePerson(p) => installation in t.installations && t.installations[installation].person == Some(p)
    case PersonInProduct(p, q) =>
      && product == q && installation in t.installations
      && t.installations[installation].person == Some(p) && t.installations[installation].product == q
  }

  /** The digest is indexed, as an account email within this product, to an identity of the
      person whose rows in this product are erased. */
  ghost predicate ErasedEmail(t: Registry.Tables, e: Registry.Target, product: Id, digest: Registry.Digest) {
    exists i ::
      && i in t.identities && Registry.TakesPerson(e, t.identities[i].person, product)
      && Registry.IndexKey(A.ACCOUNT, Registry.WithinProduct(product), digest.version, digest) in t.indexes
      && t.indexes[Registry.IndexKey(A.ACCOUNT, Registry.WithinProduct(product), digest.version, digest)] == i
  }

  /** A challenge goes if and only if it is on an erased installation or for an erased email. */
  lemma ErasureTakesChallengeIff(t: A.Tables, e: Registry.Target, id: Id)
    requires Registry.Indexed(t.registry) && id in t.challenges
    ensures var c := t.challenges[id];
      id !in A.Erase(t, e).challenges <==>
        OnErasedDevice(t.registry, e, c.installation, c.product) || ErasedEmail(t.registry, e, c.product, c.index)
    ensures id in A.Erase(t, e).challenges ==> A.Erase(t, e).challenges[id] == t.challenges[id]
  {
    var c := t.challenges[id];
    NamedIff(t.registry, e, c);
    assert (c.installation in A.Devices(t.registry, e) && Registry.InProduct(c.product, A.Only(e)))
      <==> OnErasedDevice(t.registry, e, c.installation, c.product);
  }

  lemma NamedIff(t: Registry.Tables, e: Registry.Target, c: A.Challenge)
    requires Registry.Indexed(t)
    ensures A.NamesErased(t, e, c) <==> ErasedEmail(t, e, c.product, c.index)
  {
    var k := Registry.IndexKey(A.ACCOUNT, Registry.WithinProduct(c.product), c.index.version, c.index);
    if k in t.indexes {
      assert Registry.IndexRow(t, k);
      var i := t.indexes[k];
      assert Registry.IdentityRow(t, i);
      assert i in Registry.ErasedIdentities(t, e) && Registry.InProduct(c.product, A.Only(e))
        <==> Registry.TakesPerson(e, t.identities[i].person, c.product);
    }
  }

  /** A verification goes if and only if it is on an erased installation or its own challenge,
      of the same product and installation, goes. */
  lemma ErasureTakesVerificationIff(t: A.Tables, e: Registry.Target, id: Id)
    requires Registry.Indexed(t.registry) && id in t.verifications
    ensures var v := t.verifications[id];
      id !in A.Erase(t, e).verifications <==>
        || (v.installation.Some? && OnErasedDevice(t.registry, e, v.installation.value, v.product))
        || (&& id in t.challenges && v.product == t.challenges[id].product
            && v.installation == Some(t.challenges[id].installation)
            && id !in A.Erase(t, e).challenges)
    ensures id in A.Erase(t, e).verifications ==> A.Erase(t, e).verifications[id] == t.verifications[id]
  {
    var v := t.verifications[id];
    if v.installation.Some? {
      assert (v.installation.value in A.Devices(t.registry, e) && Registry.InProduct(v.product, A.Only(e)))
        <==> OnErasedDevice(t.registry, e, v.installation.value, v.product);
    }
  }

  /** A product account goes if and only if its account's person is erased in that product. */
  lemma ErasureTakesProfileIff(t: A.Tables, e: Registry.Target, k: A.ProfileKey)
    requires k in t.profiles && k.account in t.registry.accounts
    ensures k !in A.Erase(t, e).profiles <==> Registry.TakesPerson(e, t.registry.accounts[k.account].person, k.product)
    ensures k in A.Erase(t, e).profiles ==> A.Erase(t, e).profiles[k] == t.profiles[k]
  {
  }

  /** In a state where sessions are bound to their installations, a flow goes if and only if
      it is an erased installation's, or has no session and leads to an erased challenge. */
  lemma ErasureTakesFlowIff(t: A.Tables, e: Registry.Target, k: A.FlowKey)
    requires D.Bonds(t) && k in t.flows
    ensures var f := t.flows[k];
      k !in A.Erase(t, e).flows <==>
        || OnErasedDevice(t.registry, e, k.installation, k.product)
        || (f.session == None && f.challenge in t.challenges && A.Key(t.challenges[f.challenge]) == k
            && f.challenge !in A.Erase(t, e).challenges)
    ensures k in A.Erase(t, e).flows ==> A.Erase(t, e).flows[k] == t.flows[k]
  {
    var f := t.flows[k];
    if f.session.Some? && f.session.value in t.sessions {
      assert D.Bond(t, f.session.value);
    }
    assert (k.installation in A.Devices(t.registry, e) && Registry.InProduct(k.product, A.Only(e)))
      <==> OnErasedDevice(t.registry, e, k.installation, k.product);
  }

  /** After a committed erasure in any run, no challenge is stored for an email that was
      indexed to the erased person in scope; and none of the verifications that belong to a
      live challenge is. */
  lemma ErasedEmailIsForgotten(keys: Registry.Keyring, steps: seq<Service.Step>, now: Time, op: Saga.Op)
    requires Service.Legal(keys, steps)
    requires Service.Possible(Service.Run(keys, steps), Service.Step(now, Service.Privacy(op)))
    requires Service.ErasedBy(Service.Run(keys, steps), op).Some?
    ensures var w := Service.Run(keys, steps);
      Forgotten(w.t, Service.After(w, Service.Step(now, Service.Privacy(op))), Service.ErasedBy(w, op).value)
  {
    Service.RunIsSound(keys, steps);
    C.RunIsSound(keys, steps);
    var w := Service.Run(keys, steps);
    assert forall id :: id in w.t.challenges ==> C.Row(w, C.ClaimedAt(keys, steps), id);
    EraseForgets(w.t, Service.ErasedBy(w, op).value);
  }

  ghost predicate Forgotten(t: A.Tables, t': A.Tables, e: Registry.Target) {
    && (forall id :: id in t'.challenges ==>
          id in t.challenges && !ErasedEmail(t.registry, e, t'.challenges[id].product, t'.challenges[id].index))
    && (forall id :: id in t'.verifications && id in t.challenges && A.Live(t.challenges[id].state) ==>
          && id in t.verifications
          && !ErasedEmail(t.registry, e, t'.verifications[id].product, t'.verifications[id].index))
  }

  lemma EraseForgets(t: A.Tables, e: Registry.Target)
    requires Registry.Indexed(t.registry) && forall id :: id in t.challenges ==> C.Coupled(t, id)
    ensures Forgotten(t, A.Erase(t, e), e)
  {
    var t' := A.Erase(t, e);
    forall id | id in t'.challenges
      ensures id in t.challenges && !ErasedEmail(t.registry, e, t'.challenges[id].product, t'.challenges[id].index)
    {
      ErasureTakesChallengeIff(t, e, id);
    }
    forall id | id in t'.verifications && id in t.challenges && A.Live(t.challenges[id].state)
      ensures id in t.verifications
      ensures !ErasedEmail(t.registry, e, t'.verifications[id].product, t'.verifications[id].index)
    {
      assert C.Coupled(t, id);
      ErasureTakesVerificationIff(t, e, id);
      ErasureTakesChallengeIff(t, e, id);
    }
  }
}
