/**
 Distributed locks with an owner and an expiry (packages/shared/src/redis/lock-manager.ts).
 Redis' clock is the parameter `now`; an entry whose expiry has been reached counts as absent.
 */
module LockManagers {
  import opened Types

  const DEFAULT_TTL_MS: int := 30000

  datatype Lock<O> = Lock(owner: O, expiry: int)

  type Locks<O> = map<Id, Lock<O>>

  predicate IsHeld<O>(locks: Locks<O>, now: int, key: Id) {
    key in locks && now < locks[key].expiry
  }

  predicate Owns<O(==)>(locks: Locks<O>, now: int, key: Id, owner: O) {
    IsHeld(locks, now, key) && locks[key].owner == owner
  }

  /** `SET key owner PX ttl NX`. */
  function Acquire<O>(locks: Locks<O>, now: int, key: Id, owner: O, ttl: int): (Locks<O>, bool) {
    if IsHeld(locks, now, key) then (locks, false) else (locks[key := Lock(owner, now + ttl)], true)
  }

  /** The compare-and-expire script. */
  function Renew<O(==)>(locks: Locks<O>, now: int, key: Id, owner: O, ttl: int): (Locks<O>, bool) {
    if Owns(locks, now, key, owner) then (locks[key := Lock(owner, now + ttl)], true) else (locks, false)
  }

  /** The compare-and-delete script. */
  function Release<O(==)>(locks: Locks<O>, now: int, key: Id, owner: O): (Locks<O>, bool) {
    if Owns(locks, now, key, owner) then (locks - {key}, true) else (locks, false)
  }

  class LockManager<O(==)> {
    var locks: Locks<O>

    constructor ()
      ensures locks == map[]
    {
      locks := map[];
    }

    method AcquireLock(now: int, taskStateId: Id, executorId: O, ttlMs: int := DEFAULT_TTL_MS) returns (acquired: bool)
      modifies this
      ensures (locks, acquired) == Acquire(old(locks), now, taskStateId, executorId, ttlMs)
      ensures acquired <==> taskStateId !in old(locks) || old(locks)[taskStateId].expiry <= now
      ensures locks == if acquired then old(locks)[taskStateId := Lock(executorId, now + ttlMs)] else old(locks)
      ensures acquired && ttlMs > 0 ==> Owns(locks, now, taskStateId, executorId)
    {
      acquired := !(taskStateId in locks && now < locks[taskStateId].expiry);
      if acquired {
        locks := locks[taskStateId := Lock(executorId, now + ttlMs)];
      }
    }

    method RenewLock(now: int, taskStateId: Id, executorId: O, ttlMs: int := DEFAULT_TTL_MS) returns (renewed: bool)
      modifies this
      ensures (locks, renewed) == Renew(old(locks), now, taskStateId, executorId, ttlMs)
      ensures renewed <==>
                taskStateId in old(locks) && now < old(locks)[taskStateId].expiry && old(locks)[taskStateId].owner == executorId
      ensures locks == if renewed then old(locks)[taskStateId := Lock(executorId, now + ttlMs)] else old(locks)
      ensures forall t, x :: t != taskStateId || x != executorId ==> Owns(locks, now, t, x) == Owns(old(locks), now, t, x)
    {
      renewed := Owns(locks, now, taskStateId, executorId);
      if renewed {
        locks := locks[taskStateId := locks[taskStateId].(expiry := now + ttlMs)];
      }
    }

    method ReleaseLock(now: int, taskStateId: Id, executorId: O) returns (released: bool)
      modifies this
      ensures (locks, released) == Release(old(locks), now, taskStateId, executorId)
      ensures released <==>
                taskStateId in old(locks) && now < old(locks)[taskStateId].expiry && old(locks)[taskStateId].owner == executorId
      ensures locks == if released then old(locks) - {taskStateId} else old(locks)
      ensures !Owns(locks, now, taskStateId, executorId)
      ensures forall t, x :: t != taskStateId || x != executorId ==> Owns(locks, now, t, x) == Owns(old(locks), now, t, x)
    {
      released := Owns(locks, now, taskStateId, executorId);
      if released {
        locks := locks - {taskStateId};
      }
    }
  }
}
