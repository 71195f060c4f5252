/** The product directory's keyset pages (internal/productdirectory/directory.go and
    internal/store/product_directory.go). Every repository call reads its own snapshot, and
    anything may be committed between two calls. */
module Directory {
  import opened Common
  import A = Accounts
  import D = Deletion
  import Registry
  import Saga
  import Service

  datatype Snapshot = Snapshot(t: A.Tables, requests: map<Id, Saga.Request>)

  /** The state the n-th repository call sees. */
  type Timeline = nat -> Snapshot

  const DEFAULT_LIMIT: nat := 25
  const MAX_LIMIT: nat := 50

  /** The joined rows a candidate page is made of. */
  predicate Eligible(t: A.Tables, product: Id, account: Id) {
    && A.ProfileKey(product, account) in t.profiles && t.profiles[A.ProfileKey(product, account)].active
    && account in t.registry.accounts && t.registry.accounts[account].active
    && (var person := t.registry.accounts[account].person;
        && person in t.registry.persons && !t.registry.persons[person].deleted
        && t.profiles[A.ProfileKey(product, account)].identity in t.registry.identities
        && t.registry.identities[t.profiles[A.ProfileKey(product, account)].identity]
           == Registry.Identity(person, product, A.ACCOUNT, Registry.WithinProduct(product)))
  }

  /** The fence asked for a person alone: no installation is named. */
  predicate PersonPending(requests: map<Id, Saga.Request>, person: Id, product: Id) {
    exists r :: r in requests && requests[r].deletion && Saga.Open(requests[r].status)
                && (requests[r].all || requests[r].product == Some(product))
                && requests[r].subject == Saga.Person(person)
  }

  /** What the authoritative read of one account lets through. */
  predicate Visible(s: Snapshot, product: Id, account: Id) {
    Eligible(s.t, product, account) && !PersonPending(s.requests, s.t.registry.accounts[account].person, product)
  }

  function EligibleAfter(t: A.Tables, product: Id, after: int): set<Id> {
    set k | k in t.profiles && k.product == product && k.account > after && Eligible(t, product, k.account) :: k.account
  }

  ghost predicate Increasing(ids: seq<Id>) {
    forall i, j :: 0 <= i < j < |ids| ==> ids[i] < ids[j]
  }

  /** The first `limit` eligible accounts after the cursor, in order. */
  ghost predicate IsPage(t: A.Tables, product: Id, after: int, limit: nat, ids: seq<Id>) {
    && Increasing(ids) && |ids| <= limit
    && (forall a :: a in ids ==> a > after && Eligible(t, product, a))
    && (forall a: Id ::
        a > after && Eligible(t, product, a) ==> a in ids || (|ids| == limit && forall b :: b in ids ==> b < a))
  }

  /** The least `limit` members of a set, in order. */
  method TakeLeast(all: set<Id>, limit: nat) returns (ids: seq<Id>)
    ensures Increasing(ids) && |ids| <= limit && forall a :: a in ids ==> a in all
    ensures forall a :: a in all ==> a in ids || (|ids| == limit && forall b :: b in ids ==> b < a)
  {
    ids := [];
    var rest := all;
    while rest != {} && |ids| < limit
      invariant Increasing(ids) && |ids| <= limit && rest <= all
      invariant forall a :: a in ids ==> a in all
      invariant forall a, b :: a in rest && b in ids ==> b < a
      invariant forall a :: a in all ==> a in ids || a in rest
      decreases rest
    {
      var next := Registry.Least(rest);
      assert forall k :: 0 <= k < |ids| ==> ids[k] in ids;
      ids := ids + [next];
      rest := rest - {next};
    }
  }

  /** SELECT ... WHERE account_id > $after ORDER BY account_id LIMIT $limit. */
  method DirectoryAccounts(t: A.Tables, product: Id, after: int, limit: nat) returns (ids: seq<Id>)
    ensures IsPage(t, product, after, limit, ids)
  {
    var all := EligibleAfter(t, product, after);
    ids := TakeLeast(all, limit);
    EligibleRows(t, product, after);
  }

  lemma EligibleRows(t: A.Tables, product: Id, after: int)
    ensures forall a: Id :: a in EligibleAfter(t, product, after) <==> a > after && Eligible(t, product, a)
  {
    forall a: Id | a > after && Eligible(t, product, a) ensures a in EligibleAfter(t, product, after) {
      assert A.ProfileKey(product, a) in t.profiles;
    }
  }

  /** `last` is the cursor the page was asked for; `next` the one it hands out. */
  datatype Page = Page(entries: seq<Id>, next: Option<Id>)

  /** The account was visible to every call from `from` up to `to`. */
  ghost predicate Throughout(line: Timeline, product: Id, account: Id, from: nat, to: nat) {
    forall i :: from <= i < to ==> Visible(line(i), product, account)
  }

  ghost predicate Sometime(line: Timeline, product: Id, account: Id, from: nat, to: nat) {
    exists i :: from <= i < to && Visible(line(i), product, account)
  }

  /** What a page promises about the calls from..to that made it: entries in order and each
      seen without a pending deletion, everyone visible throughout is in it, and the next
      cursor lies strictly ahead. */
  ghost predicate Serves(line: Timeline, product: Id, after: int, page: Page, from: nat, to: nat) {
    && Increasing(page.entries)
    && (forall a :: a in page.entries ==> a > after && (page.next.Some? ==> a <= page.next.value))
    && (forall a :: a in page.entries ==> Sometime(line, product, a, from, to))
    && (page.next.Some? ==> page.next.value > after)
    && (forall a: Id ::
        a > after && (page.next.Some? ==> a <= page.next.value) && Throughout(line, product, a, from, to) ==>
            a in page.entries)
  }

  /** What reading the first candidates again has let through. */
  ghost predicate Read(line: Timeline, product: Id, candidates: seq<Id>, entries: seq<Id>, from: nat, to: nat) {
    && Increasing(entries)
    && (forall a :: a in entries ==> a in candidates && Sometime(line, product, a, from, to))
    && (forall a :: a in candidates && Throughout(line, product, a, from, to) ==> a in entries)
  }

  lemma ReadOneMore(
      line: Timeline, product: Id, done: seq<Id>, next: Id, entries: seq<Id>, from: nat, to: nat, entries': seq<Id>)
    requires Read(line, product, done, entries, from, to) && from <= to && forall a :: a in done ==> a < next
    requires entries' == if Visible(line(to), product, next) then entries + [next] else entries
    ensures Read(line, product, done + [next], entries', from, to + 1)
  {
    assert forall k :: 0 <= k < |entries| ==> entries[k] in entries;
    forall a | a in entries' ensures a in done + [next] && Sometime(line, product, a, from, to + 1) {
      if a in entries {
        var i :| from <= i < to && Visible(line(i), product, a);
        assert from <= i < to + 1;
      }
    }
    forall a | a in done + [next] && Throughout(line, product, a, from, to + 1) ensures a in entries' {
      assert Visible(line(to), product, a);
      if a in done {
        assert Throughout(line, product, a, from, to);
      }
    }
  }

  /** The authoritative read of each candidate in turn; one that has gone is passed over. */
  method ReadEach(
      line: Timeline, from: nat, product: Id, after: int, candidates: seq<Id>)
      returns (entries: seq<Id>, last: int, to: nat)
    requires Increasing(candidates) && forall a :: a in candidates ==> a > after
    ensures to == from + 1 + |candidates|
    ensures last == if candidates == [] then after else candidates[|candidates| - 1]
    ensures Read(line, product, candidates, entries, from, to)
  {
    entries, last, to := [], after, from + 1;
    for n := 0 to |candidates|
      invariant to == from + 1 + n
      invariant last == if n == 0 then after else candidates[n - 1]
      invariant Read(line, product, candidates[..n], entries, from, to)
    {
      // The cursor-ordering check never fires on such a page.
      assert candidates[n] in candidates && last < candidates[n];
      last := candidates[n];
      ghost var read := entries;
      if Visible(line(to), product, candidates[n]) {
        entries := entries + [candidates[n]];
      }
      ReadOneMore(line, product, candidates[..n], candidates[n], read, from, to, entries);
      assert candidates[..n + 1] == candidates[..n] + [candidates[n]];
      to := to + 1;
    }
    assert candidates[..|candidates|] == candidates;
  }

  /** One page: candidates first, then each is read again on its own. Returns how many calls
      were made. */
  method Query(line: Timeline, from: nat, product: Id, after: int, requested: nat) returns (r: Result<Page>, to: nat)
    requires after >= -1
    ensures to >= from
    ensures r.Ok? <==> requested <= 50
    ensures r.Err? ==> r.error == Invalid
    ensures r.Ok? ==> Serves(line, product, after, r.value, from, to)
    ensures r.Ok? ==> exists ids ::
              && IsPage(line(from).t, product, after, if requested == 0 then 25 else requested, ids)
              && r.value.next ==
                  (if |ids| == (if requested == 0 then 25 else requested) then Some(ids[|ids| - 1]) else None)
              && to == from + 1 + |ids|
    ensures r.Ok? && r.value.next.Some? ==> Eligible(line(from).t, product, r.value.next.value)
  {
    var limit := if requested == 0 then DEFAULT_LIMIT else requested;
    if limit > MAX_LIMIT {
      return Err(Invalid), from;
    }
    var candidates := DirectoryAccounts(line(from).t, product, after, limit);
    var entries, last;
    entries, last, to := ReadEach(line, from, product, after, candidates);
    var next := None;
    if |candidates| == limit {
      assert candidates[|candidates| - 1] in candidates;
      next := Some(last);
    }
    PageServes(line, from, to, product, after, limit, candidates, Page(entries, next));
    return Ok(Page(entries, next)), to;
  }

  lemma PageServes(
      line: Timeline, from: nat, to: nat, product: Id, after: int, limit: nat, candidates: seq<Id>, page: Page)
    requires IsPage(line(from).t, product, after, limit, candidates) && limit > 0 && from < to
    requires Read(line, product, candidates, page.entries, from, to)
    requires page.next == if |candidates| == limit then Some(candidates[|candidates| - 1]) else None
    ensures Serves(line, product, after, page, from, to)
  {
    if |candidates| == limit {
      assert candidates[|candidates| - 1] in candidates;
    }
    forall a: Id | a > after && (page.next.Some? ==> a <= page.next.value) && Throughout(line, product, a, from, to)
      ensures a in page.entries
    {
      assert Visible(line(from), product, a);
      assert a in candidates;
    }
  }

  /** Follows the cursors from the start until no page hands one out. `bound` is any number
      above all account identifiers, which are finitely many. */
  method Walk(line: Timeline, product: Id, requested: nat, bound: nat) returns (all: seq<Id>, calls: nat)
    requires requested <= MAX_LIMIT
    requires forall i: nat, a: Id :: Eligible(line(i).t, product, a) ==> a < bound
    ensures Increasing(all)
    ensures forall a :: a in all ==> Sometime(line, product, a, 0, calls)
    ensures forall a: Id :: Throughout(line, product, a, 0, calls) ==> a in all
  {
    var cursor: int, more := -1, true;
    all, calls := [], 0;
    while more
      invariant -1 <= cursor < bound
      invariant Increasing(all) && forall a :: a in all ==> (more ==> a <= cursor)
      invariant forall a :: a in all ==> Sometime(line, product, a, 0, calls)
      invariant forall a: Id :: (more ==> a <= cursor) && Throughout(line, product, a, 0, calls) ==> a in all
      decreases more, bound - cursor
    {
      var r, to := Query(line, calls, product, cursor, requested);
      var page := r.value;
      Joined(line, product, all, cursor, page, calls, to);
      all, calls := all + page.entries, to;
      if page.next.Some? {
        cursor := page.next.value;
      } else {
        more := false;
      }
    }
  }

  lemma Joined(line: Timeline, product: Id, all: seq<Id>, cursor: int, page: Page, from: nat, to: nat)
    requires from <= to && Increasing(all) && (forall a :: a in all ==> a <= cursor)
    requires forall a :: a in all ==> Sometime(line, product, a, 0, from)
    requires forall a: Id :: a <= cursor && Throughout(line, product, a, 0, from) ==> a in all
    requires Serves(line, product, cursor, page, from, to)
    ensures Increasing(all + page.entries)
    ensures forall a :: a in all + page.entries ==> Sometime(line, product, a, 0, to)
    ensures forall a: Id ::
        (page.next.Some? ==> a <= page.next.value) && Throughout(line, product, a, 0, to) ==> a in all + page.entries
  {
    var joined := all + page.entries;
    forall i, j | 0 <= i < j < |joined| ensures joined[i] < joined[j] {
      assert joined[i] in (if i < |all| then all else page.entries);
      assert joined[j] in (if j < |all| then all else page.entries);
    }
    forall a: Id | (page.next.Some? ==> a <= page.next.value) && Throughout(line, product, a, 0, to)
        ensures a in joined {
      assert Throughout(line, product, a, 0, from) && Throughout(line, product, a, from, to);
    }
  }

  // -------------------------------------------------------- who can be seen, in any run

  /** In every run an account is eligible exactly if it has a product account: that row is
      removed with the person, the account's standing or the identity behind it. */
  lemma EligibleIffRegistered(keys: Registry.Keyring, steps: seq<Service.Step>, product: Id, account: Id)
    requires Service.Legal(keys, steps)
    ensures var t := Service.Run(keys, steps).t;
      Eligible(t, product, account) <==> A.ProfileKey(product, account) in t.profiles
  {
    Service.RunIsSound(keys, steps);
    D.RunIsSafe(keys, steps);
    RegisteredIsEligible(Service.Run(keys, steps).t, product, account);
  }

  lemma RegisteredIsEligible(t: A.Tables, product: Id, account: Id)
    requires Registry.Sound(t.registry) && D.Bonds(t)
    ensures Eligible(t, product, account) <==> A.ProfileKey(product, account) in t.profiles
  {
    var k := A.ProfileKey(product, account);
    if k in t.profiles {
      assert D.ProfileRow(t, k);
      assert Registry.IdentityRow(t.registry, t.profiles[k].identity);
      assert Registry.AccountRow(t.registry, account);
    }
  }

  /** Nobody whose deletion in this product was asked for, and not called off, is ever shown. */
  lemma DeletedIsHidden(keys: Registry.Keyring, steps: seq<Service.Step>, id: Id, product: Id, account: Id)
    requires Service.Legal(keys, steps)
    requires var w := Service.Run(keys, steps);
      && id in w.saga.t.requests && account in w.t.registry.accounts
      && (var r := w.saga.t.requests[id];
          && r.deletion && (r.all || r.product == Some(product)) && !D.CalledOff(r)
          && r.subject == Saga.Person(w.t.registry.accounts[account].person))
    ensures var w := Service.Run(keys, steps); !Visible(Snapshot(w.t, w.saga.t.requests), product, account)
  {
    D.RunIsSafe(keys, steps);
    HiddenIn(Service.Run(keys, steps), id, product, account);
  }

  lemma HiddenIn(w: Service.World, id: Id, product: Id, account: Id)
    requires D.Safe(w) && id in w.saga.t.requests && account in w.t.registry.accounts
    requires var r := w.saga.t.requests[id];
      && r.deletion && (r.all || r.product == Some(product)) && !D.CalledOff(r)
      && r.subject == Saga.Person(w.t.registry.accounts[account].person)
    ensures !Visible(Snapshot(w.t, w.saga.t.requests), product, account)
  {
    assert D.RequestRow(w, id);
  }

  /** And anyone eligible without such a request is. */
  lemma UndeletedIsShown(s: Snapshot, product: Id, account: Id)
    requires Eligible(s.t, product, account)
    requires forall r ::
        r in s.requests && s.requests[r].deletion && s.requests[r].status in {Saga.Requested, Saga.Underway} ==>
               !(s.requests[r].all || s.requests[r].product == Some(product))
               || s.requests[r].subject != Saga.Person(s.t.registry.accounts[account].person)
    ensures Visible(s, product, account)
  {
  }
}
