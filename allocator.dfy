/** The allocator interface every wrapper allocates and frees through, and a ghost census of
    live callable objects. */
module Allocation {
  import opened Storage

  /** `KameUtil::Allocator` taken abstractly: a heap of `avail` free bytes that hands out
      fresh blocks and keeps, for every live block, the size it was allocated with. */
  class Allocator {
    var blocks: map<Block, nat>
    var next: Block
    var avail: nat

    /** Every live block was handed out before `next`, so `next` is always fresh. */
    ghost predicate Valid()
      reads this
    {
      forall b :: b in blocks ==> b < next
    }

    constructor (capacity: nat)
      ensures Valid() && blocks == map[] && avail == capacity
    {
      blocks := map[];
      next := 0;
      avail := capacity;
    }

    /** `allocate(n)`: a block that was not live, recorded with size `n`, or `None` where the
        C++ code throws std::bad_alloc. */
    method Allocate(n: nat) returns (b: Option<Block>)
      requires Valid()
      modifies this
      ensures Valid()
      ensures b.Some? <==> n <= old(avail)
      ensures b.Some? ==> b.value !in old(blocks) && blocks == old(blocks)[b.value := n]
      ensures b.Some? ==> avail == old(avail) - n
      ensures b.None? ==> blocks == old(blocks) && avail == old(avail)
    {
      if n > avail {
        return None;
      }
      b := Some(next);
      blocks := blocks[next := n];
      next := next + 1;
      avail := avail - n;
    }

    /** `deallocate(p, n)`: only a live block, and only with the size it was allocated with. */
    method Deallocate(b: Block, n: nat)
      requires Valid() && b in blocks && blocks[b] == n
      modifies this
      ensures Valid()
      ensures blocks == old(blocks) - {b} && b !in blocks
      ensures avail == old(avail) + n
    {
      blocks := blocks - {b};
      avail := avail + n;
    }
  }

  /** Instrumentation in the manner of the tests' `ctor_count`: the number of Child objects
      alive, raised on each construction (plain, copy or move) and lowered on each destruction. */
  class Census {
    ghost var live: int

    constructor ()
      ensures live == 0
    {
      live := 0;
    }
  }
}
