/** The mount-identifier allocator, seen only through its interface: it hands
    out a natural that is not outstanding and takes freed ones back. Which free
    natural it picks is left open. */
module IdAllocation {

  /** A strict upper bound of a finite set of naturals. */
  ghost function Bound(s: set<nat>): (b: nat)
    ensures forall x :: x in s ==> x < b
  {
    if s == {} then 0
    else
      var m :| m in s;
      var r := Bound(s - {m});
      assert forall x :: x in s ==> x == m || x in s - {m};
      if m + 1 > r then m + 1 else r
  }

  class IdAllocator {
    /** The identifiers handed out and not yet freed. */
    var outstanding: set<nat>

    constructor ()
      ensures outstanding == {}
    {
      outstanding := {};
    }

    /** `allocate_int()`: an identifier no live holder has. */
    method Allocate() returns (id: nat)
      modifies this
      ensures id !in old(outstanding)
      ensures outstanding == old(outstanding) + {id}
    {
      ghost var b := Bound(outstanding);
      assert b !in outstanding;
      id :| id !in outstanding;
      outstanding := outstanding + {id};
    }

    /** `mark_as_free(id)`. */
    method MarkAsFree(id: nat)
      modifies this
      ensures outstanding == old(outstanding) - {id}
    {
      outstanding := outstanding - {id};
    }
  }
}
