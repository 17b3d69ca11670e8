/** Root identifiers: every newly materialised tree gets one no earlier tree has. */
module Identity {

  /**
   * The process-wide counter behind `MarkupIdentifier.newRoot()`. `issued` records
   * every identifier handed out so far; all of them lie below `next`.
   */
  class RootIdAllocator {
    var next: nat
    ghost var issued: set<nat>

    ghost predicate Valid()
      reads this
    {
      forall id :: id in issued ==> id < next
    }

    constructor ()
      ensures Valid() && issued == {} && next == 0
    {
      next := 0;
      issued := {};
    }

    /** Hands out the next identifier; it differs from every earlier one. */
    method NewRoot() returns (id: nat)
      requires Valid()
      modifies this
      ensures Valid()
      ensures id !in old(issued) && issued == old(issued) + {id}
      ensures id == old(next) && next == old(next) + 1
    {
      id := next;
      next := next + 1;
      issued := issued + {id};
    }
  }
}
