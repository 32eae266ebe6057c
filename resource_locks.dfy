/**
 * The registry of named resource locks: locks are created lazily, at most
 * one per display name, and a per-thread index of the locks attributed to
 * each thread is handed to every lock the producer builds.
 */
module ResourceLocks {

  /** A thread identifier, as Thread.getId() reports it. */
  type ThreadId = int

  /**
   * A resource lock as the registry sees it: its display name and whether
   * it currently reports itself locked. Acquiring and releasing belong to
   * the lock's own implementation.
   */
  class ResourceLock {
    const displayName: string
    var locked: bool
  }

  /** AbstractResourceLockRegistry: the locks by name and the locks by thread. */
  class ResourceLockRegistry {
    var resourceLocks: map<string, ResourceLock>
    var threadResourceLocks: map<ThreadId, seq<ResourceLock>>

    constructor ()
      ensures resourceLocks == map[] && threadResourceLocks == map[]
    {
      resourceLocks := map[];
      threadResourceLocks := map[];
    }

    /**
     * getOrRegisterResourceLock. `produced` is what the producer returned:
     * the producer is called for every request, before the lookup, so the
     * caller supplies its result each time. It is stored when the name is
     * new and dropped otherwise; the lock registered under the name is
     * returned. The thread index is only handed to the producer, never
     * written here.
     */
    method GetOrRegisterResourceLock(displayName: string, produced: ResourceLock) returns (lock: ResourceLock)
      modifies this
      ensures displayName !in old(resourceLocks) ==>
        lock == produced && resourceLocks == old(resourceLocks)[displayName := produced]
      ensures displayName in old(resourceLocks) ==>
        lock == old(resourceLocks)[displayName] && resourceLocks == old(resourceLocks)
      ensures displayName in resourceLocks && resourceLocks[displayName] == lock
      ensures resourceLocks.Keys == old(resourceLocks).Keys + {displayName}
      ensures forall name :: name in old(resourceLocks) ==> resourceLocks[name] == old(resourceLocks)[name]
      ensures threadResourceLocks == old(threadResourceLocks)
    {
      if displayName !in resourceLocks {
        resourceLocks := resourceLocks[displayName := produced];
      }
      lock := resourceLocks[displayName];
    }

    /** getResourceLocks: a copy of the locks attributed to thread `tid`; none when it has none. */
    method GetResourceLocks(tid: ThreadId) returns (locks: seq<ResourceLock>)
      ensures tid in threadResourceLocks ==> locks == threadResourceLocks[tid]
      ensures tid !in threadResourceLocks ==> locks == []
    {
      if tid in threadResourceLocks {
        locks := threadResourceLocks[tid];
      } else {
        locks := [];
      }
    }

    /** hasOpenLocks: whether some registered lock reports itself locked, sampled once per lock. */
    method HasOpenLocks() returns (open: bool)
      ensures open <==> exists name :: name in resourceLocks && resourceLocks[name].locked
    {
      var remaining := resourceLocks.Values;
      while remaining != {}
        invariant remaining <= resourceLocks.Values
        invariant forall name :: name in resourceLocks && resourceLocks[name] !in remaining ==> !resourceLocks[name].locked
        decreases remaining
      {
        var lock :| lock in remaining;
        if lock.locked {
          ghost var name :| name in resourceLocks && resourceLocks[name] == lock;
          return true;
        }
        remaining := remaining - {lock};
      }
      return false;
    }
  }

  /** Two registrations of one name hand out the identical lock, whatever the second producer built. */
  method RegisterTwice(registry: ResourceLockRegistry, displayName: string, first: ResourceLock, second: ResourceLock)
    returns (lock1: ResourceLock, lock2: ResourceLock)
    modifies registry
    ensures lock1 == lock2
    ensures displayName !in old(registry.resourceLocks) ==> lock1 == first
    ensures registry.resourceLocks == old(registry.resourceLocks)[displayName := lock1]
  {
    lock1 := registry.GetOrRegisterResourceLock(displayName, first);
    lock2 := registry.GetOrRegisterResourceLock(displayName, second);
  }
}
