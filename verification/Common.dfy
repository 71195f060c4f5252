/** Shared vocabulary of the identity service model: identifiers, time, results and
    the few table operations every transaction uses.

    Identifiers (UUIDs, product names, opaque keys, token hashes) are only ever compared
    and ordered by the service, so they are natural numbers here. Time is a number of
    microseconds. */
module Common {

  type Id = nat
  type Time = nat

  const SECOND: nat := 1_000_000
  const MINUTE: nat := 60 * SECOND
  const HOUR: nat := 60 * MINUTE
  const DAY: nat := 24 * HOUR

  datatype Option<+T> = None | Some(value: T)

  /** The service's error values. A transaction that returns one commits nothing. */
  datatype Error =
    | Invalid
    | NotFound
    | Conflict
    | Limited(retryAt: Time)

  datatype Result<+T> = Ok(value: T) | Err(error: Error) {
    predicate IsFailure() { Err? }
    function PropagateFailure<U>(): Result<U>
      requires Err?
    {
      Err(error)
    }
    function Extract(): T
      requires Ok?
    {
      value
    }
  }

  datatype Check = Pass | Fail(error: Error) {
    predicate IsFailure() { Fail? }
    function PropagateFailure<U>(): Result<U>
      requires Fail?
    {
      Err(error)
    }
  }

  function Need(condition: bool, error: Error): Check {
    if condition then Pass else Fail(error)
  }

  /** A row read by primary key: a missing row is the service's not-found error. */
  function Read<K, V>(table: map<K, V>, key: K): Result<V> {
    if key in table then Ok(table[key]) else Err(NotFound)
  }

  predicate NonDecreasing(times: seq<Time>) {
    forall i, j :: 0 <= i <= j < |times| ==> times[i] <= times[j]
  }

  /** What SELECT ... ORDER BY a time LIMIT n may return of the keys in `at`. */
  ghost predicate OldestRows<K>(at: map<K, Time>, rows: set<K>, limit: nat) {
    && rows <= at.Keys && |rows| <= limit && (|rows| < limit ==> rows == at.Keys)
    && forall a, b :: a in rows && b in at && b !in rows ==> at[a] <= at[b]
  }

  method TakeOldest<K(==)>(at: map<K, Time>, limit: nat) returns (rows: set<K>)
    ensures OldestRows(at, rows, limit)
  {
    rows := {};
    while |rows| < limit && at.Keys - rows != {}
      invariant rows <= at.Keys && |rows| <= limit
      invariant forall a, b :: a in rows && b in at && b !in rows ==> at[a] <= at[b]
      decreases at.Keys - rows
    {
      var first := Oldest(at, at.Keys - rows);
      rows := rows + {first};
    }
  }

  method Oldest<K(==)>(at: map<K, Time>, among: set<K>) returns (first: K)
    requires among != {} && among <= at.Keys
    ensures first in among && forall a :: a in among ==> at[first] <= at[a]
  {
    first :| first in among;
    var rest := among - {first};
    while rest != {}
      invariant first in among && rest <= among
      invariant forall a :: a in among && a !in rest ==> at[first] <= at[a]
      decreases rest
    {
      var a :| a in rest;
      if at[a] < at[first] {
        first := a;
      }
      rest := rest - {a};
    }
  }
}
