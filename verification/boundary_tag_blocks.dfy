// What mmalloc and mfree of the boundary-tag allocator do to the block list, and what that
// keeps over every run.
module BoundaryTagBlocks {
  import opened Blocks
  import opened Memory

  // The smallest remainder worth splitting off: two tags and one byte of payload, aligned.
  const MIN_BLOCK: nat := 24

  function BlockSizeFor(size: nat): (n: Pos)
    ensures WellSized(true, n) && LeastAligned(n, size + 16)
  {
    Align(size + WORD + WORD)
  }

  ghost function Malloc(bs: seq<Block>, size: nat): seq<Block> {
    SearchIsFirstFit(0, bs, BlockSizeFor(size));
    Place(Search([], bs, BlockSizeFor(size)), BlockSizeFor(size), MIN_BLOCK)
  }

  // The neighbours block i joins when it is freed.
  function JoinFrom(bs: seq<Block>, i: nat): nat
    requires i < |bs|
  {
    if i > 0 && !bs[i - 1].used then i - 1 else i
  }

  function JoinTo(bs: seq<Block>, i: nat): nat
    requires i < |bs|
  {
    if i + 1 < |bs| && !bs[i + 1].used then i + 2 else i + 1
  }

  // Blocks i..j become one free block.
  function Join(bs: seq<Block>, i: nat, j: nat): seq<Block>
    requires i < j <= |bs|
  {
    bs[..i] + Merged(bs, i, j)
  }

  function Free(bs: seq<Block>, i: nat): seq<Block>
    requires i < |bs|
  {
    Join(bs, JoinFrom(bs, i), JoinTo(bs, i))
  }

  // Freeing takes exactly that block out of the live ones, and keeps the span.
  lemma FreeReleases(p: nat, bs: seq<Block>, i: nat)
    requires i < |bs| && bs[i].used
    ensures Live(p, Free(bs, i)) == Live(p, bs) - {p + Total(bs[..i])}
    ensures Total(Free(bs, i)) == Total(bs)
  {
    var bs2 := bs[i := Block(bs[i].size, false)];
    var lo, hi := JoinFrom(bs, i), JoinTo(bs, i);
    ClearKeepsRest(p, bs, i);
    assert forall k :: lo <= k < hi ==> !bs2[k].used;
    assert bs2[..lo] == bs[..lo] && bs2[hi..] == bs[hi..];
    TotalCleared(bs, i, lo, hi);
    assert Merged(bs, lo, hi) == Merged(bs2, lo, hi);
    MergeKeeps(p, bs2, lo, hi, bs2[..lo]);
  }

  lemma TotalCleared(bs: seq<Block>, i: nat, lo: nat, hi: nat)
    requires lo <= i < hi <= |bs|
    ensures Total(bs[i := Block(bs[i].size, false)][lo..hi]) == Total(bs[lo..hi])
  {
    var bs2 := bs[i := Block(bs[i].size, false)];
    TotalSlices(bs, lo, i, hi);
    TotalSlices(bs2, lo, i, hi);
    assert bs2[lo..i] == bs[lo..i];
    assert bs2[i..hi][1..] == bs[i..hi][1..];
  }

  lemma FreeKeepsApart(bs: seq<Block>, i: nat)
    requires i < |bs| && bs[i].used && NoAdjacentFree(bs)
    ensures NoAdjacentFree(Free(bs, i))
  {
    var lo, hi := JoinFrom(bs, i), JoinTo(bs, i);
    var r := Free(bs, i);
    assert forall k :: lo < k < |r| ==> r[k] == bs[hi..][k - lo - 1];
    assert hi < |bs| ==> bs[hi].used;
    assert lo > 0 ==> bs[lo - 1].used;
  }

  // With no two free neighbours the search merges nothing, and returns the first free block
  // that is large enough.
  lemma {:induction false} SearchSettled(done: seq<Block>, rest: seq<Block>, size: nat)
    requires NoAdjacentFree(rest)
    ensures var r := Search(done, rest, size);
            && r.before + r.after == done + rest
            && |done| <= |r.before|
            && (forall k :: |done| <= k < |r.before| ==> r.before[k].used || r.before[k].size < size)
            && (r.found ==> r.after != [] && !r.after[0].used && r.after[0].size >= size)
            && (!r.found ==> r.after == [])
    decreases |rest|
  {
    if rest != [] {
      assert done + [rest[0]] + rest[1..] == done + rest;
      SearchSettled(done + [rest[0]], rest[1..], size);
      var r := Search(done, rest, size);
      assert (r.before + r.after)[|done|] == rest[0];
    }
  }

  // mmalloc takes the lowest-address free block that holds the request and both tags, splitting
  // it exactly when 24 bytes are left over, and grows the heap only when every free block is too
  // small.
  lemma MallocTakesLowest(bs: seq<Block>, size: nat) returns (i: nat, n: Pos)
    requires NoAdjacentFree(bs)
    ensures LeastAligned(n, size + 16)
    ensures i <= |bs| && forall k :: 0 <= k < i ==> bs[k].used || bs[k].size < n
    ensures if i == |bs| then Malloc(bs, size) == bs + [Block(n, true)]
            else
              && !bs[i].used && bs[i].size >= n
              && Malloc(bs, size) == bs[..i]
                 + (if bs[i].size >= n + 24 then [Block(n, true), Block(bs[i].size - n, false)]
                    else [Block(bs[i].size, true)])
                 + bs[i + 1..]
  {
    n := BlockSizeFor(size);
    SearchSettled([], bs, n);
    var r := Search([], bs, n);
    i := |r.before|;
    assert r.before == (r.before + r.after)[..i] && r.after == (r.before + r.after)[i..];
    assert [] + bs == bs;
    if r.found {
      assert r.after[1..] == bs[i + 1..];
    }
  }

  lemma MallocKeepsApart(bs: seq<Block>, size: nat)
    requires NoAdjacentFree(bs)
    ensures NoAdjacentFree(Malloc(bs, size))
  {
    var i, _ := MallocTakesLowest(bs, size);
    var m := Malloc(bs, size);
    if i < |bs| {
      assert i + 1 < |bs| ==> bs[i + 1].used;
      assert forall k :: i + 2 <= k < |m| ==> m[k] == bs[k - (|m| - |bs|)];
    }
  }

  ghost predicate Step(bs: seq<Block>, bs2: seq<Block>) {
    (exists size: nat :: bs2 == Malloc(bs, size)) ||
    (exists i: nat :: i < |bs| && bs[i].used && bs2 == Free(bs, i))
  }

  // A run of mmalloc and mfree calls from the empty heap.
  ghost predicate Run(run: seq<seq<Block>>) {
    run != [] && run[0] == [] && forall k :: 0 < k < |run| ==> Step(run[k - 1], run[k])
  }

  // Over every run no two free blocks are neighbours, so the merge in find_fit never has
  // anything to do.
  lemma {:induction false} NoRunLeavesFreeNeighbours(run: seq<seq<Block>>, size: nat)
    requires Run(run)
    ensures var bs := run[|run| - 1];
            && NoAdjacentFree(bs)
            && Search([], bs, size).before + Search([], bs, size).after == bs
    decreases |run|
  {
    var bs := run[|run| - 1];
    if |run| > 1 {
      var prev := run[|run| - 2];
      assert run[..|run| - 1][|run| - 2] == prev;
      NoRunLeavesFreeNeighbours(run[..|run| - 1], size);
      assert Step(prev, bs);
      if i: nat :| i < |prev| && prev[i].used && bs == Free(prev, i) {
        FreeKeepsApart(prev, i);
      } else {
        var n: nat :| bs == Malloc(prev, n);
        MallocKeepsApart(prev, n);
      }
    }
    SearchSettled([], bs, size);
  }

  // Once every live block has been freed, in whatever order, the heap is one free block that
  // spans it (or was never used).
  lemma AllFreedIsOneBlock(run: seq<seq<Block>>)
    requires Run(run) && NoneUsed(run[|run| - 1])
    ensures var bs := run[|run| - 1]; bs == [] || (Total(bs) > 0 && bs == [Block(Total(bs), false)])
  {
    NoRunLeavesFreeNeighbours(run, 0);
    ApartAndFreeIsOne(run[|run| - 1]);
  }

  lemma ApartAndFreeIsOne(bs: seq<Block>)
    requires NoAdjacentFree(bs) && NoneUsed(bs)
    ensures bs == [] || (Total(bs) > 0 && bs == [Block(Total(bs), false)])
  {
    assert forall k :: 0 <= k < |bs| ==> bs[k] in bs && !bs[k].used;
    if |bs| > 1 {
      NeighbourUsed(bs, 1);
      assert false;
    } else if bs != [] {
      TotalOne(bs[0]);
      assert bs == [bs[0]];
    }
  }
}
