# KameUtil::Function in Dafny

A model of `KameUtil::Function<R(Args...), Alloc>`, an owning, type-erased callable
wrapper with a small-buffer optimisation. A wrapper holds at most one callable, wrapped in a
`Child<Func>` object. That object lives in one of two places:

- the wrapper's inline buffer `data`, when `sizeof(Child<Func>)` fits in `data_size`;
- a heap block obtained from the wrapper's `Alloc` base, otherwise.

The files:

- `storage.dfy` (module `Storage`) holds the values. `Callable` is an erased callable, with its
  footprint (`sizeof(Child<Func>)`) and a pure call function. `DATA_SIZE` is the inline
  capacity. `Residency` is `Empty | Inline | Heap` and replaces the pointer test
  `base == (Base*)&data`.
- `allocator.dfy` (module `Allocation`) holds the `Allocator` class. It is the allocator
  interface taken abstractly: it hands out fresh block ids, records the size of every live
  block, and accepts a free only of a live block with its recorded size. `Census` is a
  ghost counter of live `Child` objects, in the manner of the tests' `ctor_count`.
- `function.dfy` (module `KameUtil`) holds the class `Function<A, R>`. `res` is the concrete
  state and `held` is the ghost public view. Every constructor and operator of the source is a
  member, and so are the private `init`, `reset` and the copy and move branches.
- `accounting.dfy` (module `Accounting`) states the ownership invariant over all wrappers that
  share an allocator and a census:
  - every live `Child` belongs to exactly one non-empty wrapper;
  - the live blocks are exactly the blocks of the heap-resident wrappers, each with its
    `Child`'s size, and no two wrappers share a block.

  Its lemmas prove that every kind of step the wrapper methods take keeps this invariant.
- `function_test.dfy` (module `FunctionTest`) restates the checks of the repository's test
  program as verified client code. It uses the method contracts only, and chains the
  accounting lemmas through a copy/move sequence.

Four behaviours of the code that the model keeps as written:

- A heap-resident move is not a pointer transfer. The destination allocates a new block and
  the callable is moved into it. Then `other.reset()` destroys the source's `Child` and frees
  the source's block (function.h:71-76, 125-130).
- No allocator is embedded in the `Child`. Every allocation and deallocation goes through the
  wrapper's own `Alloc` base (function.h:57, 74, 218, 229).
- Assignment is not all-or-nothing. `operator=` calls `reset()` before it allocates. So when
  that allocation fails, the wrapper is left empty and its previous callable is already
  destroyed (function.h:86, 100, 120). `Assign`, `CopyAssign` and `MoveAssign` state exactly that.
- Invoking an empty wrapper dereferences `nullptr`, which is not a checked error. `Call`
  requires a non-empty wrapper.

## Model

| member | source | states |
|---|---|---|
| `KameUtil.Function.constructor` | function.h:36 | The default constructor gives an empty wrapper that owns no block. |
| `KameUtil.Function.Null` | function.h:37 | Construction from `nullptr` gives an empty wrapper. |
| `KameUtil.Function.FromCallable` | function.h:39-47 | Construction from `f` holds `f`. `WasAllocated()` holds exactly when `f`'s footprint exceeds `DATA_SIZE`. A heap copy is a block that was not live before, recorded with the footprint. The census rises by one. A null result (allocation failure) is possible only when `f` needs the heap, and then nothing changed. |
| `KameUtil.Function.CopyOf` | function.h:49-63 | The copy holds the source's callable with the source's residency. A heap copy gets a new block distinct from the source's. The source is unchanged. The census rises by one per copied callable. Only a heap source can fail, and a failed copy leaves no trace. |
| `KameUtil.Function.MoveOf` | function.h:65-81 | The destination holds the source's former callable and residency, and the source is empty. The books change by exactly the new block added and the source's old block freed. The census is unchanged. When allocation fails, the source is untouched. |
| `KameUtil.Function.Assign` | function.h:83-93 | The old callable is released first (its block freed, census down). Then `f` is constructed with the residency its footprint dictates. A failed allocation leaves the wrapper empty. |
| `KameUtil.Function.AssignNull` | function.h:95 | The wrapper is empty afterwards. Its old block, if any, is freed and its callable is destroyed. |
| `KameUtil.Function.CopyAssign` | function.h:97-115 | Self-assignment changes nothing: no reset and no allocation. Otherwise the wrapper holds the source's callable with the same residency, in a block distinct from the source's. The source is unchanged. The books and the census move by exactly one release and one acquisition. |
| `KameUtil.Function.MoveAssign` | function.h:117-137 | Self-assignment changes nothing. Otherwise the destination holds the source's former callable and residency, and the source is empty. The books lose the destination's old block and the source's old block, and gain one new block. On allocation failure the source is untouched and the destination is empty. |
| `KameUtil.Function.Call` | function.h:141-144 | Invoking a non-empty wrapper returns the held callable's result for the arguments. |
| `KameUtil.Function.AsBool` | function.h:146 | True exactly when the wrapper holds a callable. |
| `KameUtil.Function.EqualsNull` | function.h:148-155 | `== nullptr`, in both argument orders, is true exactly when the wrapper holds nothing. |
| `KameUtil.Function.NotEqualsNull` | function.h:156-163 | `!= nullptr`, in both argument orders, is true exactly when the wrapper holds a callable. |
| `KameUtil.Function.WasAllocated` | function.h:165 | True exactly when the wrapper holds a callable whose footprint exceeds the inline capacity. |
| `KameUtil.Function.Init` | function.h:209-220 | On an empty wrapper: an inline `Child` when it fits. Otherwise a `Child` in a fresh block of its own size, or no change when that allocation fails. |
| `KameUtil.Function.CloneFrom` | function.h:101-112 | The copy branch: the same callable with the same residency. A heap copy gets a fresh block of `storageInfo().size` bytes, different from the source's. The source keeps its block. |
| `KameUtil.Function.MoveFrom` | function.h:121-134 | The move branch: the same callable with the same residency, in a new block when heap-resident. Then the source is reset and its old block freed. The census is unchanged by the move. |
| `KameUtil.Function.Reset` | function.h:222-232 | The wrapper is empty afterwards. An inline `Child` is destroyed without any deallocation. A heap `Child`'s block is freed with exactly the size it was allocated with, which is `Deallocate`'s precondition. The census falls by one. |
| `Storage.DATA_SIZE` | function.h:236-241 | The inline capacity `data_size`, `sizeof(DummyT)`: a vtable pointer, a function pointer and a data pointer, 24 bytes on a 64-bit target. |
| `Storage.NeedsAlloc` | function.h:42-43 | The residency decision of construction and of `operator=` (also function.h:87-88): a `Child` goes to the heap exactly when its size exceeds `data_size`. |
| `Storage.StorageInfo` | function.h:200-204 | `Child::storageInfo().size`, the byte count a relocated copy requests. It exceeds `data_size` exactly when the `Child` needs the heap, so a copy or move chooses the same residency as construction did. |
| `Allocation.Census.constructor` | function_test.cpp:24-34 | The count of live callable objects, like `ctor_count`, starts at zero. Each `Child` constructed adds one and each destroyed subtracts one, through the wrapper methods' contracts. |
| `Allocation.Allocator.Allocate` | function.h:13-20 | Either a block that was not live, now recorded with the requested size, or failure with nothing changed. |
| `Allocation.Allocator.Deallocate` | function.h:27 | Only a live block, and only with its recorded size, can be freed. Afterwards it is no longer live. |
| `Accounting.ReplacePreserves` | function.h:222-232 | Replacing one wrapper's residency keeps the ownership accounting. This covers reset, assigning null or a callable, copy assignment, and each half of a move. The condition is that the books change by exactly the old block freed and a new block that was not live, and the census by the `Child` destroyed and the one created. |
| `Accounting.ConstructPreserves` | function.h:39-81 | A newly constructed wrapper (from a callable, by copy or by move) joins the accounting with its new block and its `Child`. |
| `Accounting.MovePreserves` | function.h:117-137 | A move (the destination gets the callable, the source is reset) keeps the accounting. |
| `Accounting.DropPreserves` | function.h:139 | A destroyed, and so empty, wrapper leaving the scope keeps the accounting. |
| `Accounting.AllReleased` | function_test.cpp:109-140 | When every wrapper is empty, no `Child` is alive and no block is live: the census has returned to its start and every block was freed. |
| `Accounting.LiveCountUpdate` | function.h:222-232 | The number of non-empty wrappers changes by exactly the emptiness of the one replaced residency. |
| `Accounting.LiveCountRemove` | function.h:139 | Removing a wrapper from the scope lowers the count of non-empty wrappers by its own contribution. |
| `Accounting.LiveCountAllEmpty` | function_test.cpp:123 | A scope of empty wrappers counts no live callable. |
| `FunctionTest.Plus1` | function_test.cpp:18-21 | `plus1` held by a function pointer fits inline. |
| `FunctionTest.PlusX` | function_test.cpp:23-33 | A `PlusX` functor fits inline. |
| `FunctionTest.CapturePlus1` | function_test.cpp:94-97 | The capturing lambda of the third test fits inline. |
| `FunctionTest.LargeFunc` | function_test.cpp:36-49 | A `LargeFunc` with four 64-bit captures needs the heap. |
| `FunctionTest.FunctionPointerCase` | function_test.cpp:64-75 | `f(1) == 2`, `!wasAllocated()`, and the allocator and census are back where they started. |
| `FunctionTest.CaptureCase` | function_test.cpp:93-107 | `f() == 10` and `!wasAllocated()`, with nothing left allocated. |
| `FunctionTest.ObjectCountCase` | function_test.cpp:109-123 | `f(3) == 8`, one live object while in scope and none after. |
| `FunctionTest.LargeCase` | function_test.cpp:125-140 | `f() == 10` and `wasAllocated()` in a block that was not live before. The count and the books return to their start, and also when allocation fails. |
| `FunctionTest.CopyMoveCase` | function_test.cpp:142-158 | Copy, copy assignment, move and move assignment leave the callable working and the moved-from wrappers null. Every allocated object is destroyed at the end. |
| `FunctionTest.CopySteps` | function_test.cpp:144-152 | The copy and the copy assignment both call like the source and keep the accounting of the two wrappers. |
| `FunctionTest.MoveSteps` | function_test.cpp:153-158 | After `f3 = move(f)` and `f = move(f2)`, the moved-from wrapper is null, the destination calls like before, and the accounting of the three wrappers holds. |
| `FunctionTest.DestroyAll` | function_test.cpp:142-173 | Destroying the three wrappers at the end of the scope leaves no live object and no live block. |
| `FunctionTest.HeapCopyMoveCase` | function.h:49-81 | A heap copy owns a second block. A heap move frees the source's block and holds the callable in a third block. Nothing leaks on any failure path. |
| `FunctionTest.NullCase` | function_test.cpp:160-172 | The null constructor, assignment of a function and of `nullptr`, and a default-constructed `void()` wrapper behave as the test expects, and change neither the books nor the census. |

## Left out

- `malloc`, `free` and `std::bad_alloc` (function.h:12-28) are not modelled. The allocator is an
  abstract heap with a byte budget. Failure is `None` from `Allocate`, a null result from the
  constructing static methods, and `ok == false` from the assignments.
- The `allocate(n, align)` overload only forwards to `allocate(n)`, so the model drops the
  alignment argument. `alignas(std::max_align_t)`, placement new, vtables and byte layout are
  also left out.
- `DATA_SIZE` and the fixtures' footprints are the values of a 64-bit target: 8-byte pointers,
  and a `Child` is its vtable pointer plus the callable. The platform's `sizeof` is not modelled.
- A callable is a pure function of one argument value of type `A` (a tuple stands for several
  arguments). Perfect forwarding, callables with side effects, and the `void(int)` lambda that
  writes through a captured reference (function_test.cpp:77-91) are not modelled.
- Callables whose copy or move constructor, or whose call, throws are not modelled. The
  source has no handler for a throwing `clone`, `move` or `Child` constructor.
- Dafny has no destructors. `~Function()` (function.h:139) is `Reset`, called explicitly at the
  end of each scope.
- `KameUtil.Function.CopyAssign`, `KameUtil.Function.MoveAssign`: besides the object
  invariant, these require the two wrappers to share one allocator and not to share a heap
  block. `Accounted` provides the second condition through `Exclusive`. The first holds
  because every wrapper in a scope is built from one `Allocator` object and `CopyOf` and
  `MoveOf` pass `other.alloc` on. The default `Alloc` is stateless over the process heap,
  which that one shared `Allocator` object stands for.
- `KameUtil.Function.Call`: calling an empty wrapper is excluded by a precondition, since
  `KameUtil::Function::operator()` dereferences `nullptr` there.
- The test program's reporting (`logError_`), its size printing and the comparison with
  `std::function` (function_test.cpp:6-16, 175-181) are not modelled.
- The fixtures' integer width is not modelled. `plus1` and `PlusX` compute in `int` and
  `LargeFunc` in `int64_t`, where the sums can overflow. The model's sums are unbounded, and the
  scenarios use only small values.
- Concurrency is not modelled; the wrapper has none.
