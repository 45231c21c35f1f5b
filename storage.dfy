/** Values behind KameUtil::Function: the wrapped callable, the inline capacity and
    the three places a wrapper can keep its callable. */
module Storage {

  datatype Option<T> = None | Some(value: T)

  /** Size of the inline buffer `data`: sizeof(DummyT), i.e. a vtable pointer, a function
      pointer and a data pointer, 8 bytes each on a 64-bit target. */
  const DATA_SIZE: nat := 24

  /** Identity of a heap block handed out by an allocator. */
  type Block = nat

  /** One `Child<Func>` object: `footprint` stands for sizeof(Child<Func>) (decided by the
      callable's type) and `fn` for its call operator, taken as a pure function of the
      argument pack `A`. */
  datatype Callable<!A, R> = Callable(footprint: nat, fn: A -> R)

  /** The residency decision of the wrapper: a Child that does not fit `data` goes to the heap. */
  predicate NeedsAlloc<A, R>(f: Callable<A, R>) {
    f.footprint > DATA_SIZE
  }

  /** `Child::storageInfo().size`: the number of bytes a relocated copy needs, which decides
      its residency exactly as the construction-time test does. */
  function StorageInfo<A, R>(f: Callable<A, R>): (n: nat)
    ensures NeedsAlloc(f) <==> n > DATA_SIZE
  {
    f.footprint
  }

  /** Where a wrapper's `base` points: nowhere, into its own `data`, or at a heap block. */
  datatype Residency<!A, R> =
    | Empty
    | Inline(payload: Callable<A, R>)
    | Heap(block: Block, payload: Callable<A, R>)

  /** The callable a residency holds, if any. */
  function Held<A, R>(r: Residency<A, R>): Option<Callable<A, R>> {
    if r.Empty? then None else Some(r.payload)
  }

  /** Number of live Child objects a residency accounts for. */
  function Live<A, R>(r: Residency<A, R>): nat {
    if r.Empty? then 0 else 1
  }

  /** The heap block a residency owns, as a set of at most one block. */
  function OwnBlock<A, R>(r: Residency<A, R>): set<Block> {
    if r.Heap? then {r.block} else {}
  }

  /** An allocator's books after the block of `r` (if any) was freed. */
  function Release<A, R>(blocks: map<Block, nat>, r: Residency<A, R>): map<Block, nat> {
    blocks - OwnBlock(r)
  }

  /** An allocator's books after the block of `r` (if any) was handed out with the size of
      the Child it holds. */
  function Acquire<A, R>(blocks: map<Block, nat>, r: Residency<A, R>): map<Block, nat> {
    if r.Heap? then blocks[r.block := r.payload.footprint] else blocks
  }

  /** The block of `r` (if any) was not live in `blocks`. */
  predicate FreshFor<A, R>(blocks: map<Block, nat>, r: Residency<A, R>) {
    r.Heap? ==> r.block !in blocks
  }
}
