/** Ownership accounting over all wrappers that share one allocator and one census: every
    live Child is owned by exactly one non-empty wrapper, and the allocator's live blocks are
    exactly the blocks of the heap-resident wrappers, each with the size of its Child. The
    wrappers in scope are listed as the sequence of their residencies; each wrapper operation
    changes one or two entries of that sequence in the way the lemmas below take. */
module Accounting {
  import opened Storage

  /** The number of non-empty wrappers in `rs`. */
  ghost function LiveCount<A, R>(rs: seq<Residency<A, R>>): nat
  {
    if rs == [] then 0 else LiveCount(rs[..|rs| - 1]) + Live(rs[|rs| - 1])
  }

  /** The blocks the heap-resident wrappers in `rs` point at. */
  ghost function HeapSet<A, R>(rs: seq<Residency<A, R>>): set<Block>
  {
    set i | 0 <= i < |rs| && rs[i].Heap? :: rs[i].block
  }

  /** No two wrappers share a block. */
  ghost predicate Exclusive<A, R>(rs: seq<Residency<A, R>>)
  {
    forall i, j :: 0 <= i < |rs| && 0 <= j < |rs| && i != j && rs[i].Heap? && rs[j].Heap? ==>
      rs[i].block != rs[j].block
  }

  /** `blocks` (the allocator's books) and `live` (the census) agree with the wrappers `rs`. */
  ghost predicate Accounted<A, R>(rs: seq<Residency<A, R>>, blocks: map<Block, nat>, live: int)
  {
    Exclusive(rs) &&
    blocks.Keys == HeapSet(rs) &&
    (forall i :: 0 <= i < |rs| && rs[i].Heap? ==>
       rs[i].block in blocks && blocks[rs[i].block] == rs[i].payload.footprint) &&
    live == LiveCount(rs)
  }

  lemma {:induction false} LiveCountUpdate<A, R>(rs: seq<Residency<A, R>>, i: nat, r: Residency<A, R>)
    requires i < |rs|
    ensures LiveCount(rs[i := r]) == LiveCount(rs) - Live(rs[i]) + Live(r)
  {
    var n := |rs| - 1;
    if i == n {
      assert rs[i := r][..n] == rs[..n];
    } else {
      assert rs[i := r][..n] == rs[..n][i := r];
      LiveCountUpdate(rs[..n], i, r);
    }
  }

  lemma LiveCountAppend<A, R>(rs: seq<Residency<A, R>>, r: Residency<A, R>)
    ensures LiveCount(rs + [r]) == LiveCount(rs) + Live(r)
  {
  }

  lemma {:induction false} LiveCountRemove<A, R>(rs: seq<Residency<A, R>>, i: nat)
    requires i < |rs|
    ensures LiveCount(rs[..i] + rs[i + 1..]) == LiveCount(rs) - Live(rs[i])
  {
    var n := |rs| - 1;
    if i == n {
      assert rs[..i] + rs[i + 1..] == rs[..n];
    } else {
      var front := rs[..n];
      assert rs[..i] + rs[i + 1..] == (front[..i] + front[i + 1..]) + [rs[n]];
      LiveCountAppend(front[..i] + front[i + 1..], rs[n]);
      LiveCountRemove(front, i);
    }
  }

  lemma {:induction false} LiveCountAllEmpty<A, R>(rs: seq<Residency<A, R>>)
    requires forall i :: 0 <= i < |rs| ==> rs[i].Empty?
    ensures LiveCount(rs) == 0
  {
    if rs != [] {
      LiveCountAllEmpty(rs[..|rs| - 1]);
    }
  }

  /** Replacing one wrapper's residency (reset, assignment of nullptr, of a callable, copy
      assignment, and each half of a move) keeps the accounting, provided the allocator's
      books change by exactly the old block freed and the new block, not live before,
      handed out, and the census by the Child destroyed and the one created. */
  lemma ReplacePreserves<A, R>(rs: seq<Residency<A, R>>, i: nat, r: Residency<A, R>,
                               blocks: map<Block, nat>, live: int)
    requires Accounted(rs, blocks, live) && i < |rs|
    requires FreshFor(Release(blocks, rs[i]), r)
    ensures Accounted(rs[i := r], Acquire(Release(blocks, rs[i]), r), live - Live(rs[i]) + Live(r))
  {
    var rs' := rs[i := r];
    var blocks' := Acquire(Release(blocks, rs[i]), r);
    forall k | 0 <= k < |rs| && k != i && rs[k].Heap?
      ensures rs[k].block in Release(blocks, rs[i])
    {
      assert rs[k].block in HeapSet(rs);
    }
    assert Exclusive(rs');
    forall b ensures b in blocks'.Keys <==> b in HeapSet(rs') {
      if b in HeapSet(rs') {
        var k :| 0 <= k < |rs'| && rs'[k].Heap? && rs'[k].block == b;
        assert b in blocks'.Keys;
      }
      if b in blocks'.Keys && !(r.Heap? && b == r.block) {
        assert b in HeapSet(rs);
        var k :| 0 <= k < |rs| && rs[k].Heap? && rs[k].block == b;
        assert k != i && rs'[k] == rs[k];
      }
      if r.Heap? && b == r.block {
        assert rs'[i] == r;
      }
    }
    LiveCountUpdate(rs, i, r);
  }

  /** A new wrapper (from a callable, a copy or a move) joins the accounting with its block,
      not live before, and its Child. */
  lemma ConstructPreserves<A, R>(rs: seq<Residency<A, R>>, r: Residency<A, R>,
                                 blocks: map<Block, nat>, live: int)
    requires Accounted(rs, blocks, live)
    requires FreshFor(blocks, r)
    ensures Accounted(rs + [r], Acquire(blocks, r), live + Live(r))
  {
    var rs' := rs + [r];
    forall k | 0 <= k < |rs| && rs[k].Heap?
      ensures rs[k].block in blocks
    {
      assert rs[k].block in HeapSet(rs);
    }
    assert Exclusive(rs');
    forall b ensures b in Acquire(blocks, r).Keys <==> b in HeapSet(rs') {
      if b in Acquire(blocks, r).Keys && !(r.Heap? && b == r.block) {
        assert b in HeapSet(rs);
        var k :| 0 <= k < |rs| && rs[k].Heap? && rs[k].block == b;
        assert rs'[k] == rs[k];
      }
      if r.Heap? && b == r.block {
        assert rs'[|rs|] == r;
      }
    }
    LiveCountAppend(rs, r);
  }

  /** Move construction and move assignment: the destination `i` gets `r`, the source `j` is
      reset. */
  lemma MovePreserves<A, R>(rs: seq<Residency<A, R>>, i: nat, j: nat, r: Residency<A, R>,
                            blocks: map<Block, nat>, live: int)
    requires Accounted(rs, blocks, live) && i < |rs| && j < |rs| && i != j
    requires FreshFor(Release(blocks, rs[i]), r)
    ensures Accounted(rs[i := r][j := Empty],
                      Release(Acquire(Release(blocks, rs[i]), r), rs[j]),
                      live - Live(rs[i]) + Live(r) - Live(rs[j]))
  {
    ReplacePreserves(rs, i, r, blocks, live);
    var rs' := rs[i := r];
    var blocks' := Acquire(Release(blocks, rs[i]), r);
    assert rs'[j] == rs[j];
    var vacated: Residency<A, R> := Empty;
    assert Acquire(Release(blocks', rs'[j]), vacated) == Release(blocks', rs[j]);
    ReplacePreserves(rs', j, vacated, blocks', live - Live(rs[i]) + Live(r));
  }

  /** An empty wrapper that goes out of scope (its destructor already reset it) leaves the
      accounting unchanged. */
  lemma DropPreserves<A, R>(rs: seq<Residency<A, R>>, i: nat, blocks: map<Block, nat>, live: int)
    requires Accounted(rs, blocks, live) && i < |rs| && rs[i].Empty?
    ensures Accounted(rs[..i] + rs[i + 1..], blocks, live)
  {
    var rs' := rs[..i] + rs[i + 1..];
    assert forall k :: 0 <= k < |rs'| ==> rs'[k] == rs[if k < i then k else k + 1];
    forall b ensures b in HeapSet(rs') <==> b in HeapSet(rs) {
      if b in HeapSet(rs) {
        var k :| 0 <= k < |rs| && rs[k].Heap? && rs[k].block == b;
        var k' := if k < i then k else k - 1;
        assert rs'[k'] == rs[k];
      }
    }
    LiveCountRemove(rs, i);
  }

  /** Once every wrapper is empty, no Child is alive and no block is live: the census is back
      at its starting value and everything allocated was freed. */
  lemma AllReleased<A, R>(rs: seq<Residency<A, R>>, blocks: map<Block, nat>, live: int)
    requires Accounted(rs, blocks, live)
    requires forall i :: 0 <= i < |rs| ==> rs[i].Empty?
    ensures live == 0 && blocks == map[]
  {
    LiveCountAllEmpty(rs);
    assert HeapSet(rs) == {};
  }
}
