// LockManager: named locks over one owner map, one mutex and one condition variable.
module LockManager {
  type Resource = string
  type Owners = map<Resource, int>

  /** The map after releaseLock: looking the resource up inserts owner 0 for a free one. */
  function Released(owners: Owners, r: Resource, thread: int): Owners {
    var seen := if r in owners then owners else owners[r := 0];
    if seen[r] == thread then seen - {r} else seen
  }

  /** What a release should do: take away the caller's own entry and nothing else. */
  function WithoutOwn(owners: Owners, r: Resource, thread: int): Owners {
    map q | q in owners && !(q == r && owners[q] == thread) :: owners[q]
  }

  /** Releasing leaves no phantom owner exactly when the resource is owned or the caller is thread 0. */
  lemma ReleaseIsClean(owners: Owners, r: Resource, thread: int)
    ensures Released(owners, r, thread) == WithoutOwn(owners, r, thread) <==> r in owners || thread == 0
    ensures r !in owners && thread != 0 ==> Released(owners, r, thread) == owners[r := 0]
  {
    if r !in owners && thread != 0 {
      assert r in Released(owners, r, thread) && r !in WithoutOwn(owners, r, thread);
    } else {
      assert Released(owners, r, thread) == WithoutOwn(owners, r, thread);
    }
  }

  /** The code run under manager_mutex, between one wait and the next. */
  class LockManager {
    var resourceOwners: Owners

    constructor ()
      ensures resourceOwners == map[]
    {
      resourceOwners := map[];
    }

    /** One evaluation of the wait predicate, and the insertion if it holds (lines 15-16). */
    method TryAcquire(r: Resource, thread: int) returns (granted: bool)
      modifies this
      ensures granted <==> r !in old(resourceOwners)
      ensures resourceOwners == if granted then old(resourceOwners)[r := thread] else old(resourceOwners)
    {
      granted := r !in resourceOwners;
      if granted {
        resourceOwners := resourceOwners[r := thread];
      }
    }

    /** Lines 26-28. */
    method ReleaseLock(r: Resource, thread: int)
      modifies this
      ensures resourceOwners == Released(old(resourceOwners), r, thread)
    {
      if r !in resourceOwners {
        resourceOwners := resourceOwners[r := 0];
      }
      if resourceOwners[r] == thread {
        resourceOwners := resourceOwners - {r};
      }
    }

    /** A lock that was free is free again after its owner releases it; other locks are untouched. */
    method AcquireRelease(r: Resource, thread: int) returns (granted: bool)
      modifies this
      ensures granted <==> r !in old(resourceOwners)
      ensures resourceOwners == old(resourceOwners)
    {
      granted := TryAcquire(r, thread);
      if granted {
        ReleaseLock(r, thread);
        assert resourceOwners == old(resourceOwners);
      }
    }
  }
}
