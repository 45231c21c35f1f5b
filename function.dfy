/** `KameUtil::Function<R(Args...), Alloc>`: an owning, type-erased callable wrapper with a
    small inline buffer. The pointer-identity test `base == (Base*)&data` is replaced by the
    `Residency` tag; the callable's concrete type is erased into a `Callable` value. */
module KameUtil {
  import opened Storage
  import opened Allocation

  class Function<A, R> {
    /** Where `base` points (nullptr, into `data`, or at a heap block) and what it points at. */
    var res: Residency<A, R>
    /** Public view: the callable the wrapper currently owns. */
    ghost var held: Option<Callable<A, R>>
    /** The `Alloc` base every allocation and deallocation of this wrapper goes through. */
    const alloc: Allocator
    /** Observer of Child constructions and destructions. */
    ghost const census: Census

    /** Object invariant: the view matches the representation, and a callable sits inline
        exactly when its Child fits `data`. */
    ghost predicate Valid()
      reads this
    {
      held == Held(res) &&
      (res.Inline? ==> !NeedsAlloc(res.payload)) &&
      (res.Heap? ==> NeedsAlloc(res.payload))
    }

    /** A heap-resident wrapper's block is live in its allocator with the size of its Child. */
    ghost predicate Owned()
      reads this, alloc
    {
      res.Heap? ==> res.block in alloc.blocks && alloc.blocks[res.block] == res.payload.footprint
    }

    /** Two distinct wrappers never share a heap block. */
    ghost predicate DisjointFrom(other: Function<A, R>)
      reads this, other
    {
      other != this && res.Heap? && other.res.Heap? ==> res.block != other.res.block
    }

    /** `Function()`: empty. */
    constructor (alloc: Allocator, ghost census: Census)
      ensures Valid() && Owned() && res.Empty? && held.None?
      ensures this.alloc == alloc && this.census == census
    {
      this.alloc := alloc;
      this.census := census;
      res := Empty;
      held := None;
    }

    /** `Function(std::nullptr_t)`: empty. */
    constructor Null(alloc: Allocator, ghost census: Census)
      ensures Valid() && Owned() && res.Empty? && held.None?
      ensures this.alloc == alloc && this.census == census
    {
      this.alloc := alloc;
      this.census := census;
      res := Empty;
      held := None;
    }

    /** `Function(Func f)`: the residency is chosen by the Child's footprint; `null` stands for
        the construction that std::bad_alloc aborts, which leaves nothing behind. */
    static method FromCallable(alloc: Allocator, ghost census: Census, f: Callable<A, R>)
      returns (w: Function?<A, R>)
      requires alloc.Valid()
      modifies alloc, census
      ensures alloc.Valid()
      ensures w != null ==> fresh(w) && w.alloc == alloc && w.census == census
      ensures w != null ==> w.Valid() && w.Owned() && w.held == Some(f)
      ensures w != null ==> (w.WasAllocated() <==> NeedsAlloc(f))
      ensures w != null ==> FreshFor(old(alloc.blocks), w.res) && alloc.blocks == Acquire(old(alloc.blocks), w.res)
      ensures w != null ==> census.live == old(census.live) + 1
      ensures w == null ==> NeedsAlloc(f) && alloc.blocks == old(alloc.blocks) && census.live == old(census.live)
      ensures !NeedsAlloc(f) ==> w != null
    {
      w := new Function.Null(alloc, census);
      var ok := w.Init(f);
      if !ok {
        w := null;
      }
    }

    /** `Function(const Function &other)`: an independent copy; `null` if the heap copy's
        allocation fails. */
    static method CopyOf(other: Function<A, R>) returns (w: Function?<A, R>)
      requires other.Valid() && other.Owned() && other.alloc.Valid()
      modifies other.alloc, other.census
      ensures other.alloc.Valid() && other.Owned()
      ensures w != null ==> fresh(w) && w.alloc == other.alloc && w.census == other.census
      ensures w != null ==> w.Valid() && w.Owned() && w.held == other.held
      ensures w != null ==> (w.res.Heap? <==> other.res.Heap?) && (w.res.Heap? ==> w.res.block != other.res.block)
      ensures w != null ==> FreshFor(old(other.alloc.blocks), w.res) && other.alloc.blocks == Acquire(old(other.alloc.blocks), w.res)
      ensures w != null ==> other.census.live == old(other.census.live) + Live(other.res)
      ensures w == null ==> other.res.Heap?
      ensures w == null ==> other.alloc.blocks == old(other.alloc.blocks) && other.census.live == old(other.census.live)
      ensures !other.res.Heap? ==> w != null
    {
      w := new Function.Null(other.alloc, other.census);
      var ok := w.CloneFrom(other);
      if !ok {
        w := null;
      }
    }

    /** `Function(Function &&other)`: takes over the callable and leaves `other` empty; a heap
        callable is moved into a NEW block and `other`'s block is freed. `null` if that
        allocation fails, in which case `other` is untouched. */
    static method MoveOf(other: Function<A, R>) returns (w: Function?<A, R>)
      requires other.Valid() && other.Owned() && other.alloc.Valid()
      modifies other, other.alloc, other.census
      ensures other.alloc.Valid() && other.Valid() && other.Owned()
      ensures w != null ==> fresh(w) && w.alloc == other.alloc && w.census == other.census
      ensures w != null ==> w.Valid() && w.Owned() && w.held == old(other.held)
      ensures w != null ==> (w.res.Heap? <==> old(other.res).Heap?) && other.res.Empty? && other.held.None?
      ensures w != null ==> FreshFor(old(other.alloc.blocks), w.res)
      ensures w != null ==> other.alloc.blocks == Release(Acquire(old(other.alloc.blocks), w.res), old(other.res))
      ensures w != null ==> other.census.live == old(other.census.live)
      ensures w == null ==> old(other.res).Heap? && other.res == old(other.res) && other.held == old(other.held)
      ensures w == null ==> other.alloc.blocks == old(other.alloc.blocks) && other.census.live == old(other.census.live)
      ensures !old(other.res).Heap? ==> w != null
    {
      w := new Function.Null(other.alloc, other.census);
      var ok := w.MoveFrom(other);
      if !ok {
        w := null;
      }
    }

    /** `operator=(Func f)`: releases the old callable first, then constructs the new one.
        When the allocation fails the wrapper is left empty: the old callable is already gone. */
    method Assign(f: Callable<A, R>) returns (ok: bool)
      requires Valid() && Owned() && alloc.Valid()
      modifies this, alloc, census
      ensures Valid() && Owned() && alloc.Valid()
      ensures ok ==> held == Some(f) && (WasAllocated() <==> NeedsAlloc(f))
      ensures !ok ==> NeedsAlloc(f) && res.Empty? && held.None?
      ensures !NeedsAlloc(f) ==> ok
      ensures FreshFor(Release(old(alloc.blocks), old(res)), res)
      ensures alloc.blocks == Acquire(Release(old(alloc.blocks), old(res)), res)
      ensures census.live == old(census.live) - Live(old(res)) + Live(res)
    {
      Reset();
      ok := Init(f);
    }

    /** `operator=(std::nullptr_t)`: empty, the old callable destroyed and its block freed. */
    method AssignNull()
      requires Valid() && Owned() && alloc.Valid()
      modifies this, alloc, census
      ensures Valid() && Owned() && alloc.Valid()
      ensures res.Empty? && held.None?
      ensures alloc.blocks == Release(old(alloc.blocks), old(res))
      ensures census.live == old(census.live) - Live(old(res))
    {
      Reset();
    }

    /** `operator=(const Function &other)`: a no-op on self-assignment; otherwise release, then
        copy as the copy constructor does. A failed allocation leaves the wrapper empty. */
    method CopyAssign(other: Function<A, R>) returns (ok: bool)
      requires other.alloc == alloc && other.census == census
      requires Valid() && Owned() && other.Valid() && other.Owned() && alloc.Valid()
      requires DisjointFrom(other)
      modifies this, alloc, census
      ensures Valid() && Owned() && other.Owned() && alloc.Valid()
      ensures other == this ==> ok && res == old(res) && held == old(held)
      ensures other == this ==> alloc.blocks == old(alloc.blocks) && census.live == old(census.live)
      ensures other != this && ok ==> held == other.held && (res.Heap? <==> other.res.Heap?)
      ensures other != this && ok && res.Heap? ==> res.block != other.res.block
      ensures other != this && !ok ==> other.res.Heap? && res.Empty? && held.None?
      ensures other != this ==> FreshFor(Release(old(alloc.blocks), old(res)), res)
      ensures other != this ==> alloc.blocks == Acquire(Release(old(alloc.blocks), old(res)), res)
      ensures other != this ==> census.live == old(census.live) - Live(old(res)) + Live(res)
      ensures !other.res.Heap? ==> ok
    {
      if other != this {
        Reset();
        ok := CloneFrom(other);
      } else {
        ok := true;
      }
    }

    /** `operator=(Function &&other)`: a no-op on self-assignment; otherwise release, then move
        as the move constructor does. A failed allocation leaves this wrapper empty and
        `other` untouched. */
    method MoveAssign(other: Function<A, R>) returns (ok: bool)
      requires other.alloc == alloc && other.census == census
      requires Valid() && Owned() && other.Valid() && other.Owned() && alloc.Valid()
      requires DisjointFrom(other)
      modifies this, other, alloc, census
      ensures Valid() && Owned() && other.Valid() && other.Owned() && alloc.Valid()
      ensures other == this ==> ok && res == old(res) && held == old(held)
      ensures other == this ==> alloc.blocks == old(alloc.blocks) && census.live == old(census.live)
      ensures other != this && ok ==> held == old(other.held) && (res.Heap? <==> old(other.res).Heap?)
      ensures other != this && ok ==> other.res.Empty? && other.held.None?
      ensures other != this && ok ==> FreshFor(Release(old(alloc.blocks), old(res)), res)
      ensures other != this && ok ==>
        alloc.blocks == Release(Acquire(Release(old(alloc.blocks), old(res)), res), old(other.res))
      ensures other != this && ok ==> census.live == old(census.live) - Live(old(res))
      ensures other != this && !ok ==> old(other.res).Heap? && res.Empty? && held.None?
      ensures other != this && !ok ==> other.res == old(other.res) && other.held == old(other.held)
      ensures other != this && !ok ==> alloc.blocks == Release(old(alloc.blocks), old(res))
      ensures other != this && !ok ==> census.live == old(census.live) - Live(old(res))
      ensures !old(other.res).Heap? ==> ok
    {
      if other != this {
        Reset();
        ok := MoveFrom(other);
      } else {
        ok := true;
      }
    }

    /** `operator()(args...)`: the owned callable's result. Calling an empty wrapper
        dereferences nullptr in the C++ code, so it is excluded here. */
    function Call(args: A): (r: R)
      reads this
      requires Valid() && held.Some?
      ensures r == held.value.fn(args)
    {
      res.payload.fn(args)
    }

    /** `explicit operator bool`. */
    function AsBool(): (b: bool)
      reads this
      requires Valid()
      ensures b <==> held.Some?
    {
      !res.Empty?
    }

    /** `f == nullptr` and `nullptr == f`. */
    function EqualsNull(): (b: bool)
      reads this
      requires Valid()
      ensures b <==> held.None?
    {
      !AsBool()
    }

    /** `f != nullptr` and `nullptr != f`. */
    function NotEqualsNull(): (b: bool)
      reads this
      requires Valid()
      ensures b <==> held.Some?
    {
      AsBool()
    }

    /** `wasAllocated()`: the callable lives in a heap block, which is exactly the case when its
        Child does not fit the inline buffer. */
    function WasAllocated(): (b: bool)
      reads this
      requires Valid()
      ensures b <==> held.Some? && NeedsAlloc(held.value)
    {
      res.Heap?
    }

    /** `init(f, NoAlloc_t)` / `init(f, YesAlloc_t)`: placement-constructs a Child into `data`
        or into a fresh block of sizeof(Child). Called only on an empty wrapper. */
    method Init(f: Callable<A, R>) returns (ok: bool)
      requires Valid() && res.Empty? && alloc.Valid()
      modifies this, alloc, census
      ensures Valid() && Owned() && alloc.Valid()
      ensures ok ==> held == Some(f) && (res.Heap? <==> NeedsAlloc(f))
      ensures ok ==> FreshFor(old(alloc.blocks), res) && alloc.blocks == Acquire(old(alloc.blocks), res)
      ensures ok ==> census.live == old(census.live) + 1
      ensures !ok ==> NeedsAlloc(f) && res.Empty? && held.None?
      ensures !ok ==> alloc.blocks == old(alloc.blocks) && census.live == old(census.live)
      ensures !NeedsAlloc(f) ==> ok
    {
      if NeedsAlloc(f) {
        var b := alloc.Allocate(f.footprint);
        if b.None? {
          return false;
        }
        res := Heap(b.value, f);
      } else {
        res := Inline(f);
      }
      held := Some(f);
      census.live := census.live + 1;
      ok := true;
    }

    /** The branch shared by the copy constructor and copy assignment, on an empty wrapper:
        `clone` into `data`, or into a fresh block of `storageInfo().size` bytes. */
    method CloneFrom(other: Function<A, R>) returns (ok: bool)
      requires other != this && other.alloc == alloc
      requires Valid() && res.Empty? && other.Valid() && other.Owned() && alloc.Valid()
      modifies this, alloc, census
      ensures Valid() && Owned() && other.Owned() && alloc.Valid()
      ensures ok ==> held == other.held && (res.Heap? <==> other.res.Heap?)
      ensures ok && res.Heap? ==> res.block != other.res.block
      ensures ok ==> FreshFor(old(alloc.blocks), res) && alloc.blocks == Acquire(old(alloc.blocks), res)
      ensures ok ==> census.live == old(census.live) + Live(other.res)
      ensures !ok ==> other.res.Heap? && res.Empty? && held.None?
      ensures !ok ==> alloc.blocks == old(alloc.blocks) && census.live == old(census.live)
      ensures !other.res.Heap? ==> ok
    {
      match other.res
      case Empty =>
        ok := true;
      case Inline(p) =>
        res := Inline(p);
        held := Some(p);
        census.live := census.live + 1;
        ok := true;
      case Heap(_, p) =>
        var b := alloc.Allocate(StorageInfo(p));
        if b.None? {
          return false;
        }
        res := Heap(b.value, p);
        held := Some(p);
        census.live := census.live + 1;
        ok := true;
    }

    /** The branch shared by the move constructor and move assignment, on an empty wrapper:
        `move` into `data`, or into a fresh block of `storageInfo().size` bytes, then
        `other.reset()`. */
    method MoveFrom(other: Function<A, R>) returns (ok: bool)
      requires other != this && other.alloc == alloc && other.census == census
      requires Valid() && res.Empty? && other.Valid() && other.Owned() && alloc.Valid()
      modifies this, other, alloc, census
      ensures Valid() && Owned() && other.Valid() && other.Owned() && alloc.Valid()
      ensures ok ==> held == old(other.held) && (res.Heap? <==> old(other.res).Heap?)
      ensures ok ==> other.res.Empty? && other.held.None?
      ensures ok ==> FreshFor(old(alloc.blocks), res)
      ensures ok ==> alloc.blocks == Release(Acquire(old(alloc.blocks), res), old(other.res))
      ensures ok ==> census.live == old(census.live)
      ensures !ok ==> old(other.res).Heap? && res.Empty? && held.None?
      ensures !ok ==> other.res == old(other.res) && other.held == old(other.held)
      ensures !ok ==> alloc.blocks == old(alloc.blocks) && census.live == old(census.live)
      ensures !old(other.res).Heap? ==> ok
    {
      match other.res
      case Empty =>
        ok := true;
      case Inline(p) =>
        res := Inline(p);
        held := Some(p);
        census.live := census.live + 1;
        other.Reset();
        ok := true;
      case Heap(_, p) =>
        var b := alloc.Allocate(StorageInfo(p));
        if b.None? {
          return false;
        }
        res := Heap(b.value, p);
        held := Some(p);
        census.live := census.live + 1;
        other.Reset();
        ok := true;
    }

    /** `reset()`, which is also `~Function()`: an inline Child is destroyed in place; a heap
        Child is destroyed and its block freed with the size `storageInfo()` reports. */
    method Reset()
      requires Valid() && Owned() && alloc.Valid()
      modifies this, alloc, census
      ensures Valid() && Owned() && alloc.Valid()
      ensures res.Empty? && held.None?
      ensures alloc.blocks == Release(old(alloc.blocks), old(res))
      ensures census.live == old(census.live) - Live(old(res))
    {
      match res {
        case Empty =>
        case Inline(_) =>
          census.live := census.live - 1;
        case Heap(b, p) =>
          var size := StorageInfo(p);
          census.live := census.live - 1;
          alloc.Deallocate(b, size);
      }
      res := Empty;
      held := None;
    }
  }
}
