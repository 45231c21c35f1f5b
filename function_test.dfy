/** The checks of the repository's test program, restated as verified client code. Footprints
    are those of a 64-bit target: a Child is its vtable pointer plus the callable, rounded up
    to 8 bytes. The destructor that runs at the end of each C++ block is a call of `Reset`. */
module FunctionTest {
  import opened Storage
  import opened Allocation
  import opened KameUtil
  import opened Accounting

  /** `plus1`, held by function pointer: Child is 8 + 8 bytes. */
  function Plus1(): (f: Callable<int, int>)
    ensures !NeedsAlloc(f)
  {
    Callable(16, n => n + 1)
  }

  /** `PlusX(x)`: one captured int, Child is 8 + 4 bytes rounded to 16. */
  function PlusX(x: int): (f: Callable<int, int>)
    ensures !NeedsAlloc(f)
  {
    Callable(16, n => n + x)
  }

  /** The lambda `[plus1_ptr, n]() { return plus1_ptr(n); }`: Child is 8 + 8 + 4 bytes
      rounded to 24, which still fits. */
  function CapturePlus1(n: int): (f: Callable<(), int>)
    ensures !NeedsAlloc(f)
  {
    Callable(24, _ => Plus1().fn(n))
  }

  /** `LargeFunc(a, b, c, d)`: four captured 64-bit integers, Child is 8 + 32 bytes. */
  function LargeFunc(a: int, b: int, c: int, d: int): (f: Callable<(), int>)
    ensures NeedsAlloc(f)
  {
    Callable(40, _ => a + b + c + d)
  }

  /** "check function pointer". */
  method FunctionPointerCase(alloc: Allocator, ghost census: Census)
    requires alloc.Valid()
    modifies alloc, census
    ensures alloc.Valid() && alloc.blocks == old(alloc.blocks) && census.live == old(census.live)
  {
    var f := Function.FromCallable(alloc, census, Plus1());
    assert f.Call(1) == 2;
    assert !f.WasAllocated();
    f.Reset();
  }

  /** "check function pointer with reference". */
  method CaptureCase(alloc: Allocator, ghost census: Census)
    requires alloc.Valid()
    modifies alloc, census
    ensures alloc.Valid() && alloc.blocks == old(alloc.blocks) && census.live == old(census.live)
  {
    var f := Function.FromCallable(alloc, census, CapturePlus1(9));
    assert f.Call(()) == 10;
    assert !f.WasAllocated();
    f.Reset();
  }

  /** "check Function object, and number of ctors calls == dtor calls". */
  method ObjectCountCase(alloc: Allocator, ghost census: Census)
    requires alloc.Valid() && census.live == 0
    modifies alloc, census
    ensures alloc.Valid() && alloc.blocks == old(alloc.blocks) && census.live == 0
  {
    var f := Function.FromCallable(alloc, census, PlusX(5));
    assert f.Call(3) == 8;
    assert census.live == 1;
    assert !f.WasAllocated();
    f.Reset();
  }

  /** "check that large function is allocated, and number of ctors calls == dtor calls". The
      allocation may fail, like malloc; then nothing is constructed and nothing leaks. */
  method LargeCase(alloc: Allocator, ghost census: Census)
    requires alloc.Valid() && census.live == 0
    modifies alloc, census
    ensures alloc.Valid() && alloc.blocks == old(alloc.blocks) && census.live == 0
  {
    var f := Function.FromCallable(alloc, census, LargeFunc(1, 2, 3, 4));
    if f != null {
      assert f.Call(()) == 10;
      assert census.live == 1;
      assert f.WasAllocated();
      assert f.res.block !in old(alloc.blocks);
      f.Reset();
    }
  }

  /** "check copy/move ctors and assign operators", first half: copy and move of one callable
      across three wrappers, with the ownership accounting of all wrappers in scope kept after
      every step. */
  method CopyMoveCase(alloc: Allocator, ghost census: Census)
    requires alloc.Valid() && alloc.blocks == map[] && census.live == 0
    modifies alloc, census
    ensures alloc.Valid() && alloc.blocks == map[] && census.live == 0
  {
    var f, f2 := CopySteps(alloc, census);
    var f3 := MoveSteps(f, f2);
    // end of scope
    DestroyAll(f, f2, f3);
  }

  /** A wrapper of the given allocator and census that keeps its invariant and owns its block. */
  ghost predicate InScope(w: Function<int, int>, alloc: Allocator, census: Census)
    reads w, alloc
  {
    w.alloc == alloc && w.census == census && w.Valid() && w.Owned()
  }

  /** `Function<int(int)> f(plus1); auto f2 = f; f2 = f;` */
  method CopySteps(alloc: Allocator, ghost census: Census) returns (f: Function<int, int>, f2: Function<int, int>)
    requires alloc.Valid() && alloc.blocks == map[] && census.live == 0
    modifies alloc, census
    ensures fresh(f) && fresh(f2) && f != f2 && alloc.Valid()
    ensures InScope(f, alloc, census) && InScope(f2, alloc, census)
    ensures Accounted([f.res, f2.res], alloc.blocks, census.live)
    ensures f.held == Some(Plus1()) && f2.held == Some(Plus1())
  {
    ghost var none: seq<Residency<int, int>> := [];
    f := Function.FromCallable(alloc, census, Plus1());
    ConstructPreserves(none, f.res, map[], 0);
    assert none + [f.res] == [f.res];
    assert f.NotEqualsNull();

    ghost var blocks, live := alloc.blocks, census.live;
    f2 := Function.CopyOf(f);                        // copy ctor
    ConstructPreserves([f.res], f2.res, blocks, live);
    assert [f.res] + [f2.res] == [f.res, f2.res];
    assert f2.Call(1) == 2;

    blocks, live := alloc.blocks, census.live;
    ghost var rs := [f.res, f2.res];
    var ok := f2.CopyAssign(f);                      // assign
    ReplacePreserves(rs, 1, f2.res, blocks, live);
    assert rs[1 := f2.res] == [f.res, f2.res];
    assert f.NotEqualsNull() && f2.Call(1) == 2;
  }

  /** `auto f3 = move(f); f = move(f2);` */
  method MoveSteps(f: Function<int, int>, f2: Function<int, int>) returns (f3: Function<int, int>)
    requires f != f2 && f.alloc.Valid() && InScope(f, f.alloc, f.census) && InScope(f2, f.alloc, f.census)
    requires Accounted([f.res, f2.res], f.alloc.blocks, f.census.live)
    requires f.held == Some(Plus1()) && f2.held == Some(Plus1())
    modifies f, f2, f.alloc, f.census
    ensures fresh(f3) && f.alloc.Valid()
    ensures InScope(f, f.alloc, f.census) && InScope(f2, f.alloc, f.census) && InScope(f3, f.alloc, f.census)
    ensures Accounted([f.res, f2.res, f3.res], f.alloc.blocks, f.census.live)
  {
    ghost var rs := [f.res, f2.res];
    ghost var blocks, live := f.alloc.blocks, f.census.live;
    f3 := Function.MoveOf(f);                        // move ctor, f is null
    ConstructPreserves(rs, f3.res, blocks, live);
    ReplacePreserves(rs + [f3.res], 0, f.res, Acquire(blocks, f3.res), live + 1);
    assert (rs + [f3.res])[0 := f.res] == [f.res, f2.res, f3.res];
    assert f3.Call(1) == 2 && f.EqualsNull();

    rs := [f.res, f2.res, f3.res];
    blocks, live := f.alloc.blocks, f.census.live;
    var ok := f.MoveAssign(f2);                      // move assign
    MovePreserves(rs, 0, 1, f.res, blocks, live);
    assert rs[0 := f.res][1 := f2.res] == [f.res, f2.res, f3.res];
    assert f.Call(1) == 2 && f2.EqualsNull();
  }

  /** The destructors at the end of the scope, in reverse order of construction. */
  method DestroyAll(f: Function<int, int>, f2: Function<int, int>, f3: Function<int, int>)
    requires f != f2 && f3 != f && f3 != f2 && f.alloc.Valid()
    requires InScope(f, f.alloc, f.census) && InScope(f2, f.alloc, f.census) && InScope(f3, f.alloc, f.census)
    requires Accounted([f.res, f2.res, f3.res], f.alloc.blocks, f.census.live)
    modifies f, f2, f3, f.alloc, f.census
    ensures f.alloc.Valid() && f.alloc.blocks == map[] && f.census.live == 0
  {
    ghost var rs := [f.res, f2.res, f3.res];
    ghost var blocks, live := f.alloc.blocks, f.census.live;
    f3.Reset();
    ReplacePreserves(rs, 2, f3.res, blocks, live);
    rs := rs[2 := f3.res];
    assert rs[1] == f2.res && rs[0] == f.res;
    blocks, live := f.alloc.blocks, f.census.live;
    f2.Reset();
    ReplacePreserves(rs, 1, f2.res, blocks, live);
    rs := rs[1 := f2.res];
    assert rs[0] == f.res;
    blocks, live := f.alloc.blocks, f.census.live;
    f.Reset();
    ReplacePreserves(rs, 0, f.res, blocks, live);
    rs := rs[0 := f.res];
    AllReleased(rs, f.alloc.blocks, f.census.live);
  }

  /** The copy and move steps again for a callable that does not fit inline: a copy gets a
      block of its own, and a move allocates a new block and frees the source's. Any of the
      allocations may fail; whatever was built is then destroyed and nothing leaks. */
  method HeapCopyMoveCase(alloc: Allocator, ghost census: Census)
    requires alloc.Valid() && alloc.blocks == map[] && census.live == 0
    modifies alloc, census
    ensures alloc.Valid() && alloc.blocks == map[] && census.live == 0
  {
    var f := Function.FromCallable(alloc, census, LargeFunc(1, 2, 3, 4));
    if f == null {
      return;
    }
    var f2 := Function.CopyOf(f);                    // copy ctor
    if f2 == null {
      f.Reset();
      return;
    }
    assert f2.WasAllocated() && f2.res.block != f.res.block && f2.Call(()) == 10;
    ghost var b1, b2 := f.res.block, f2.res.block;
    assert alloc.blocks.Keys == {b1, b2};

    var f3 := Function.MoveOf(f);                    // move ctor
    if f3 == null {
      f2.Reset();
      f.Reset();
      return;
    }
    assert f.EqualsNull() && f3.WasAllocated() && f3.Call(()) == 10;
    assert b1 !in alloc.blocks && f3.res.block !in {b1, b2};
    assert alloc.blocks.Keys == {b2, f3.res.block};

    f3.Reset();
    f2.Reset();
    f.Reset();
  }

  /** "check copy/move ctors and assign operators", second half: the null constructor,
      assignment of a function and of nullptr, and a default-constructed `void()` wrapper. */
  method NullCase(alloc: Allocator, ghost census: Census)
    requires alloc.Valid()
    modifies alloc, census
    ensures alloc.Valid() && alloc.blocks == old(alloc.blocks) && census.live == old(census.live)
  {
    var f4 := new Function<int, int>.Null(alloc, census);   // null ctor
    assert f4.EqualsNull();

    var ok := f4.Assign(Plus1());                    // assign new func
    assert f4.AsBool() && f4.Call(1) == 2;

    f4.AssignNull();                                 // assign null
    assert !f4.AsBool();

    var f5 := new Function<(), ()>(alloc, census);   // default ctor of a void() wrapper
    assert f5.EqualsNull();

    f5.Reset();
    f4.Reset();
  }
}
