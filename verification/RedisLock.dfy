/** The Redis lock with a time to live: SET NX EX, and the compare-and-delete and
    compare-and-expire scripts. */
module RedisLock {
  import opened Rows

  /** What a lock key holds: the owner's random value and when Redis drops the key. */
  datatype Lease = Lease(value: Id, until: int)

  type Store = map<Id, Lease>

  /** Times and lifetimes in the same unit; `now` is when Redis runs the command. */
  datatype Op =
    | Acquire(key: Id, value: Id, ttl: nat, now: int)
    | Release(key: Id, value: Id, now: int)
    | Extend(key: Id, value: Id, ttl: nat, now: int)

  predicate Live(s: Store, key: Id, now: int) {
    key in s && now < s[key].until
  }

  predicate Owns(s: Store, key: Id, value: Id, now: int) {
    Live(s, key, now) && s[key].value == value
  }

  function Succeeds(s: Store, op: Op): bool {
    match op
    case Acquire(key, _, _, now) => !Live(s, key, now)
    case Release(key, value, now) => Owns(s, key, value, now)
    case Extend(key, value, _, now) => Owns(s, key, value, now)
  }

  function Do(s: Store, op: Op): Store {
    if !Succeeds(s, op) then s
    else match op
      case Acquire(key, value, ttl, now) => s[key := Lease(value, now + ttl)]
      case Release(key, _, _) => s - {key}
      case Extend(key, value, ttl, now) => s[key := Lease(value, now + ttl)]
  }

  function StoreAt(ops: seq<Op>, n: nat): Store
    requires n <= |ops|
  {
    if n == 0 then map[] else Do(StoreAt(ops, n - 1), ops[n - 1])
  }

  predicate Won(ops: seq<Op>, n: nat) {
    n < |ops| && Succeeds(StoreAt(ops, n), ops[n])
  }

  /** Time does not run backwards and no two acquires draw the same random value. */
  predicate Timed(ops: seq<Op>) {
    (forall i, j :: 0 <= i < j < |ops| ==> ops[i].now <= ops[j].now) &&
    (forall i, j :: 0 <= i < j < |ops| && ops[i].Acquire? && ops[j].Acquire? ==> ops[i].value != ops[j].value)
  }

  class RedisLockService {
    var store: Store

    constructor ()
      ensures store == map[]
    {
      store := map[];
    }

    method AcquireLock(key: Id, value: Id, ttl: nat, now: int) returns (lock: Option<Id>)
      modifies this
      ensures store == Do(old(store), Acquire(key, value, ttl, now))
      ensures lock == if key in old(store) && now < old(store)[key].until then None else Some(value)
      ensures store == if lock.Some? then old(store)[key := Lease(value, now + ttl)] else old(store)
      ensures lock.Some? && ttl > 0 ==> Owns(store, key, value, now)
    {
      if key in store && now < store[key].until { return None; }
      store := store[key := Lease(value, now + ttl)];
      return Some(value);
    }

    method ReleaseLock(key: Id, value: Id, now: int) returns (released: bool)
      modifies this
      ensures store == Do(old(store), Release(key, value, now))
      ensures released <==> key in old(store) && now < old(store)[key].until && old(store)[key].value == value
      ensures store == if released then old(store) - {key} else old(store)
      ensures released ==> !Live(store, key, now)
    {
      released := key in store && now < store[key].until && store[key].value == value;
      if released { store := store - {key}; }
    }

    method ExtendLock(key: Id, value: Id, ttl: nat, now: int) returns (extended: bool)
      modifies this
      ensures store == Do(old(store), Extend(key, value, ttl, now))
      ensures extended <==> key in old(store) && now < old(store)[key].until && old(store)[key].value == value
      ensures store == if extended then old(store)[key := Lease(value, now + ttl)] else old(store)
    {
      extended := key in store && now < store[key].until && store[key].value == value;
      if extended { store := store[key := Lease(value, now + ttl)]; }
    }
  }

  /** When the lease taken at step i ends, given the extensions won before step n. */
  function LeaseEnd(ops: seq<Op>, i: nat, n: nat): int
    requires i < n <= |ops| && ops[i].Acquire?
  {
    if n == i + 1 then ops[i].now + ops[i].ttl
    else
      var op := ops[n - 1];
      if op.Extend? && op.key == ops[i].key && op.value == ops[i].value && Won(ops, n - 1) then op.now + op.ttl
      else LeaseEnd(ops, i, n - 1)
  }

  /** The holder of step i gave the lock back before step n. */
  predicate ReleasedBetween(ops: seq<Op>, i: nat, n: nat)
    requires i < |ops|
  {
    exists m :: i < m < n && m < |ops| && ops[m].Release? && ops[m].key == ops[i].key &&
        ops[m].value == ops[i].value && Won(ops, m)
  }

  predicate WonAcquire(ops: seq<Op>, n: nat, key: Id) {
    n < |ops| && ops[n].Acquire? && ops[n].key == key && Won(ops, n)
  }

  predicate TakenBetween(ops: seq<Op>, i: nat, n: nat, key: Id) {
    exists m :: i < m < n && WonAcquire(ops, m, key)
  }

  /** Until it is released or taken over, a lease stands in the store as last extended. */
  lemma {:induction false} LeaseStands(ops: seq<Op>, i: nat, n: nat)
    requires Timed(ops) && i < n <= |ops| && WonAcquire(ops, i, ops[i].key)
    requires !ReleasedBetween(ops, i, n) && !TakenBetween(ops, i, n, ops[i].key)
    ensures ops[i].key in StoreAt(ops, n) && StoreAt(ops, n)[ops[i].key] == Lease(ops[i].value, LeaseEnd(ops, i, n))
  {
    if n == i + 1 {
    } else {
      assert !ReleasedBetween(ops, i, n - 1) && !TakenBetween(ops, i, n - 1, ops[i].key);
      LeaseStands(ops, i, n - 1);
      assert !WonAcquire(ops, n - 1, ops[i].key);
    }
  }

  /** Once another acquire has won the key, the former holder's value never comes back. */
  lemma {:induction false} ValueNeverReturns(ops: seq<Op>, i: nat, m: nat, n: nat)
    requires Timed(ops) && i < m < n <= |ops|
    requires WonAcquire(ops, i, ops[i].key) && WonAcquire(ops, m, ops[i].key)
    ensures ops[i].key in StoreAt(ops, n) ==> StoreAt(ops, n)[ops[i].key].value != ops[i].value
  {
    if n == m + 1 {
    } else {
      ValueNeverReturns(ops, i, m, n - 1);
    }
  }

  /** A holder that was succeeded can neither release nor extend its successor's lock. */
  lemma StaleHolderIsPowerless(ops: seq<Op>, i: nat, m: nat, n: nat)
    requires Timed(ops) && i < m < n < |ops|
    requires WonAcquire(ops, i, ops[i].key) && WonAcquire(ops, m, ops[i].key)
    requires (ops[n].Release? || ops[n].Extend?) && ops[n].key == ops[i].key && ops[n].value == ops[i].value
    ensures !Won(ops, n) && StoreAt(ops, n + 1) == StoreAt(ops, n)
  {
    ValueNeverReturns(ops, i, m, n);
  }

  lemma {:induction false} LeaseEndFixed(ops: seq<Op>, i: nat, m: nat, n: nat)
    requires Timed(ops) && i < m < n <= |ops|
    requires WonAcquire(ops, i, ops[i].key) && WonAcquire(ops, m, ops[i].key)
    ensures LeaseEnd(ops, i, n) == LeaseEnd(ops, i, m)
  {
    if n == m + 1 {
    } else {
      LeaseEndFixed(ops, i, m, n - 1);
      ValueNeverReturns(ops, i, m, n - 1);
    }
  }

  lemma {:induction false} FirstTaker(ops: seq<Op>, i: nat, n: nat) returns (m: nat)
    requires i < n <= |ops| && ops[i].Acquire? && TakenBetween(ops, i, n, ops[i].key)
    ensures i < m < n && WonAcquire(ops, m, ops[i].key) && !TakenBetween(ops, i, m, ops[i].key)
  {
    m :| i < m < n && WonAcquire(ops, m, ops[i].key);
    if TakenBetween(ops, i, m, ops[i].key) {
      m := FirstTaker(ops, i, m);
    }
  }

  /** After a won acquire no other acquire of the key wins until the holder has released the lock or
      its lease, extensions included, has run out. */
  lemma OneHolderAtATime(ops: seq<Op>, i: nat, j: nat)
    requires Timed(ops) && i < j < |ops|
    requires WonAcquire(ops, i, ops[i].key) && WonAcquire(ops, j, ops[i].key)
    ensures ReleasedBetween(ops, i, j) || LeaseEnd(ops, i, j) <= ops[j].now
  {
    if !ReleasedBetween(ops, i, j) {
      if TakenBetween(ops, i, j, ops[i].key) {
        var m := FirstTaker(ops, i, j);
        assert !ReleasedBetween(ops, i, m);
        LeaseStands(ops, i, m);
        LeaseEndFixed(ops, i, m, j);
        assert ops[m].now <= ops[j].now;
      } else {
        LeaseStands(ops, i, j);
      }
    }
  }
}
