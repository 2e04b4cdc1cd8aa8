// The singly linked allocator over raw memory: blocks carry only a header, mfree only clears
// the in-use bit, and find_fit merges free neighbours as it searches.
module ImplicitListHeap {
  import opened Blocks
  import opened Memory

  function BlockSizeFor(size: nat): (n: Pos)
    ensures WellSized(false, n) && LeastAligned(n, size + 8)
  {
    Align(size + WORD)
  }

  // The search of mmalloc, and the blocks mmalloc leaves.
  ghost function Hunt(bs: seq<Block>, size: nat): (r: Outcome)
    ensures r.found ==> r.after != [] && !r.after[0].used && r.after[0].size >= BlockSizeFor(size)
    ensures !r.found ==> r.after == []
  {
    SearchIsFirstFit(0, bs, BlockSizeFor(size));
    Search([], bs, BlockSizeFor(size))
  }

  ghost function Mallocated(bs: seq<Block>, size: nat): seq<Block> {
    Place(Hunt(bs, size), BlockSizeFor(size), 1)
  }

  // The free run that mmalloc takes is the leftmost one that holds the request and the header,
  // merged only as far as needed; what is left over of it becomes a free block. When no run is
  // large enough the heap grows, all free neighbours having been merged.
  lemma MallocTakesFirstRun(p: nat, bs: seq<Block>, size: nat)
    returns (i: nat, j: nat, n: Pos, before: seq<Block>)
    ensures LeastAligned(n, size + 8) && NoAdjacentFree(before)
    ensures if (forall a: nat, b: nat :: !Fits(bs, a, b, n)) then
              && Mallocated(bs, size) == before + [Block(n, true)]
              && Total(before) == Total(bs) && Live(p, before) == Live(p, bs)
            else
              && FirstFit(bs, i, j, n)
              && Total(before) == Total(bs[..i]) && Live(p, before) == Live(p, bs[..i])
              && var t := Total(bs[i..j]);
              Mallocated(bs, size) == before
                + (if t > n then [Block(n, true), Block(t - n, false)] else [Block(n, true)])
                + bs[j..]
  {
    n := BlockSizeFor(size);
    assert bs[0..] == bs;
    var r := Search([], bs, n);
    i, j := SearchFrom(p, bs, 0, [], n, r);
    before := r.before;
    if r.found {
      assert Fits(bs, i, j, n);
      PlacedInRun(bs, i, j, r, n);
    }
  }

  lemma PlacedInRun(bs: seq<Block>, i: nat, j: nat, r: Outcome, n: Pos)
    requires i < j <= |bs| && r.found && r.after == Merged(bs, i, j) && Total(bs[i..j]) >= n
    ensures var t := Total(bs[i..j]);
            r.after != [] && r.after[0].size >= n &&
            Place(r, n, 1) == r.before
              + (if t > n then [Block(n, true), Block(t - n, false)] else [Block(n, true)])
              + bs[j..]
  {
    assert r.after[1..] == bs[j..];
  }

  class Heap {
    var mem: Words
    var brk: nat         // the program break that sbrk moves
    var breakStart: nat  // NULL until the first mmalloc
    var breakEnd: nat
    ghost var blocks: seq<Block>

    ghost predicate Valid()
      reads this
    {
      if breakStart == NULL then blocks == [] && breakEnd == NULL && brk > 0 else Standing()
    }

    // The blocks tile break_start to break_end, which is the program break.
    ghost predicate Standing()
      reads this
    {
      && breakStart > 0
      && Tiled(false, mem, breakStart, blocks)
      && Mapped(mem, breakStart, Total(blocks))
      && brk == breakStart + Total(blocks)
      && breakEnd == (if Total(blocks) == 0 then NULL else brk)
    }

    ghost function LiveBlocks(): map<nat, Pos>
      reads this
    {
      Live(breakStart, blocks)
    }

    constructor (initialBreak: nat)
      requires initialBreak > 0
      ensures Valid() && blocks == []
    {
      mem := Words(map[]);
      brk := initialBreak;
      breakStart, breakEnd := NULL, NULL;
      blocks := [];
    }

    method Store(a: nat, w: nat)
      requires a in mem.w
      modifies this`mem
      ensures mem == Put(old(mem), a, w)
    {
      mem := Put(mem, a, w);
    }

    // Fresh memory above the break, holding anything.
    method Sbrk(n: nat) returns (p: nat)
      modifies this`mem, this`brk
      ensures p == old(brk) && brk == p + n
      ensures Same(old(mem), mem, 0, p) && old(mem).w.Keys <= mem.w.Keys && Mapped(mem, p, n)
    {
      p := brk;
      brk := brk + n;
      mem := Extended(mem, p, n);
    }

    // Merges the free block at `next` into the free block at `header` in front of it, which is
    // too small; the search goes on from there as it would have.
    method Absorb(header: nat, next: nat, ghost size: nat, ghost done: seq<Block>, ghost rest: seq<Block>)
      requires Tiled(false, mem, breakStart, done + rest) && Absorbs(rest, size)
      requires header == breakStart + Total(done) && next == header + rest[0].size
      modifies this`mem
      ensures var n := rest[0].size + rest[1].size; n >= 8 && mem == Stored(false, old(mem), header, n)
      ensures Tiled(false, mem, breakStart, done + Absorbed(rest))
      ensures Total(done + Absorbed(rest)) == Total(done + rest)
      ensures Swept(false, mem, breakStart, done, Absorbed(rest), size) == Swept(false, old(mem), breakStart, done, rest, size)
      ensures Search(done, Absorbed(rest), size) == Search(done, rest, size)
    {
      Facing(false, mem, breakStart, done, rest);
      SweptAbsorbs(false, mem, breakStart, done, rest, size);
      Store(header, mem.w[header] + mem.w[next]);
      MergeTiled(false, old(mem), mem, breakStart, done, rest);
    }

    method FindFit(size: nat) returns (header: nat)
      requires Standing()
      modifies this`mem, this`blocks
      ensures Tiled(false, mem, breakStart, blocks) && Total(blocks) == old(Total(blocks))
      ensures mem == Swept(false, old(mem), breakStart, [], old(blocks), size)
      ensures var r := Search([], old(blocks), size);
              && blocks == r.before + r.after
              && header == (if r.found then breakStart + Total(r.before) else NULL)
    {
      ghost var done, rest := [], blocks;
      ghost var found, swept := Search(done, rest, size), Swept(false, mem, breakStart, done, rest, size);
      assert [] + blocks == blocks;
      header := breakStart;
      while header < breakEnd
        invariant blocks == done + rest && Total(blocks) == old(Total(blocks))
        invariant Tiled(false, mem, breakStart, blocks)
        invariant header == breakStart + Total(done)
        invariant Search(done, rest, size) == found
        invariant Swept(false, mem, breakStart, done, rest, size) == swept
        decreases |rest|
      {
        NothingLeft(breakStart, done, rest);
        Facing(false, mem, breakStart, done, rest);
        if !InUse(mem.w[header]) {
          if mem.w[header] >= size {
            return;
          }
          var next := header + mem.w[header];
          if next < breakEnd && !InUse(mem.w[next]) {
            Absorb(header, next, size, done, rest);
            rest := Absorbed(rest);
            blocks := done + rest;
            continue;
          }
        }
        SweptPasses(false, mem, breakStart, done, rest, size);
        header := header + SizeOf(mem.w[header]);
        done, rest := done + [rest[0]], rest[1..];
      }
      NothingLeft(breakStart, done, rest);
      header := NULL;
    }

    // The branch of mmalloc that found a fit: whatever the request leaves over becomes a block.
    method Take(header: nat, n: Pos, ghost r: Outcome)
      requires Standing() && WellSized(false, n)
      requires r.found && r.before + r.after == blocks && header == breakStart + Total(r.before)
      requires r.after != [] && !r.after[0].used && r.after[0].size >= n
      modifies this`mem, this`blocks
      ensures Standing() && blocks == Place(r, n, 1)
      ensures Kept(old(mem), mem, old(LiveBlocks()))
    {
      CutFits(mem, breakStart, r.before, r.after, n);
      CutOff(header, n);
      blocks := Place(r, n, 1);
    }

    method CutOff(header: nat, n: Pos)
      requires header in mem.w && n <= mem.w[header] && Clean(n) && Clean(mem.w[header])
      requires mem.w[header] > n ==> header + n in mem.w
      modifies this`mem
      ensures mem == Cut(old(mem), header, n, old(mem).w[header])
    {
      if mem.w[header] > n {
        Store(header + n, mem.w[header] - n);
        Store(header, n);
      }
      Store(header, WithBit(mem.w[header]));
    }

    // The branch of mmalloc that found none.
    method Grow(n: Pos) returns (header: nat)
      requires Standing() && WellSized(false, n)
      modifies this`mem, this`brk, this`breakEnd, this`blocks
      ensures Standing() && blocks == old(blocks) + [Block(n, true)]
      ensures header == breakStart + old(Total(blocks)) && brk == old(brk) + n
      ensures Kept(old(mem), mem, old(LiveBlocks()))
    {
      header := Sbrk(n);
      NewBlock(n);
      Store(header, WithBit(n));
      OneTagged(false, mem, header, Block(n, true));
      TiledGrows(false, old(mem), mem, breakStart, blocks, Block(n, true));
      breakEnd := header + n;
      blocks := blocks + [Block(n, true)];
    }

    // A new live block appears where none was, with room for the request after its header; no
    // store overlaps any other live block, and the heap's bytes grow only on a miss.
    method Malloc(size: nat) returns (ptr: nat)
      requires Valid()
      modifies this
      ensures Valid() && breakStart != NULL && (old(breakStart) != NULL ==> breakStart == old(breakStart))
      ensures blocks == Mallocated(old(blocks), size)
      ensures ptr >= WORD && Granted(old(LiveBlocks()), LiveBlocks(), ptr - WORD, size + WORD)
      ensures Kept(old(mem), mem, old(LiveBlocks()))
      ensures ptr - WORD == breakStart + Total(Hunt(old(blocks), size).before)
      ensures brk == old(brk) + if Hunt(old(blocks), size).found then 0 else BlockSizeFor(size)
    {
      if breakStart == NULL {
        breakStart := brk;
      }
      ptr := Obtain(size);
    }

    // mmalloc after its search: one branch or the other.
    method Settle(fit: nat, n: Pos, ghost r: Outcome) returns (header: nat)
      requires Standing() && WellSized(false, n) && r.before + r.after == blocks
      requires fit == (if r.found then breakStart + Total(r.before) else NULL)
      requires if r.found then r.after != [] && !r.after[0].used && r.after[0].size >= n else r.after == []
      modifies this`mem, this`brk, this`breakEnd, this`blocks
      ensures Standing() && blocks == Place(r, n, 1) && header == breakStart + Total(r.before)
      ensures Kept(old(mem), mem, old(LiveBlocks()))
      ensures brk == old(brk) + if r.found then 0 else n
    {
      header := fit;
      if header != NULL {
        Take(header, n, r);
      } else {
        assert r.before + [] == r.before;
        header := Grow(n);
      }
    }

    // mmalloc once break_start is set.
    method Obtain(size: nat) returns (ptr: nat)
      requires Standing()
      modifies this`mem, this`brk, this`breakEnd, this`blocks
      ensures Standing()
      ensures blocks == Mallocated(old(blocks), size)
      ensures ptr >= WORD && Granted(old(LiveBlocks()), LiveBlocks(), ptr - WORD, size + WORD)
      ensures Kept(old(mem), mem, old(LiveBlocks()))
      ensures ptr - WORD == breakStart + Total(Hunt(old(blocks), size).before)
      ensures brk == old(brk) + if Hunt(old(blocks), size).found then 0 else BlockSizeFor(size)
    {
      var blkSize := BlockSizeFor(size);
      ghost var r := Hunt(blocks, size);
      ghost var m, bs := mem, blocks;
      Settles(mem, breakStart, blocks, size);
      var fit := FindFit(blkSize);
      ghost var m2 := mem;
      var header := Settle(fit, blkSize, r);
      KeptTrans(m, m2, mem, Live(breakStart, bs));
      ptr := header + WORD;
    }

    // Only the in-use bit goes: the block keeps its place and size until a search merges it.
    method Free(ptr: nat)
      requires Valid() && ptr >= WORD && ptr - WORD in LiveBlocks()
      modifies this`mem, this`blocks
      ensures Valid()
      ensures exists i: nat :: i < |old(blocks)| && old(blocks)[i].used
                               && ptr - WORD == breakStart + Total(old(blocks)[..i])
                               && blocks == old(blocks)[i := Block(old(blocks)[i].size, false)]
      ensures LiveBlocks() == old(LiveBlocks()) - {ptr - WORD}
      ensures Outside(old(mem), mem, ptr - WORD, ptr)
    {
      var header := ptr - WORD;
      ghost var i := LiveIndex(breakStart, blocks, header);
      FreedTiled(mem, breakStart, blocks, i);
      Store(header, SizeOf(mem.w[header]));
      blocks := blocks[i := Block(blocks[i].size, false)];
    }

    // The owner of a live block writes a word of its payload.
    method WritePayload(h: nat, a: nat, v: nat)
      requires Valid() && h in LiveBlocks() && h + WORD <= a && a + WORD <= h + LiveBlocks()[h]
      modifies this`mem
      ensures Valid() && mem == Put(old(mem), a, v) && LiveBlocks() == old(LiveBlocks())
    {
      ghost var i := LiveIndex(breakStart, blocks, h);
      LiveWithin(breakStart, blocks);
      PayloadWritten(false, mem, breakStart, blocks, i, a, v);
      Store(a, v);
    }
  }

  // Memory after mmalloc has cut n bytes off the free block at h.
  function Cut(m: Words, h: nat, n: nat, size: nat): Words
    requires n <= size
  {
    if size > n then Put(Put(Put(m, h + n, size - n), h, n), h, n + 1) else Put(m, h, size + 1)
  }

  lemma CutFits(m: Words, p: nat, done: seq<Block>, rest: seq<Block>, n: Pos)
    requires Tiled(false, m, p, done + rest) && Mapped(m, p, Total(done + rest)) && WellSized(false, n)
    requires rest != [] && !rest[0].used && rest[0].size >= n
    ensures var h := p + Total(done); var size := rest[0].size; var m2 := Cut(m, h, n, size);
            var placed := Place(Outcome(true, done, rest), n, 1);
            && h in m.w && m.w[h] == size && Clean(n) && Clean(size)
            && (size > n ==> h + n in m.w)
            && Tiled(false, m2, p, placed) && Total(placed) == Total(done + rest)
            && Kept(m, m2, Live(p, done + rest)) && m2.w.Keys == m.w.Keys
  {
    var h, size := p + Total(done), rest[0].size;
    Facing(false, m, p, done, rest);
    TotalConcat(done, rest);
    PackInverts(Block(n, false));
    PackInverts(rest[0]);
    assert Cut(m, h, n, size).w.Keys == m.w.Keys;
    CutTiled(m, p, done, rest, n);
  }

  lemma CutTiled(m: Words, p: nat, done: seq<Block>, rest: seq<Block>, n: Pos)
    requires Tiled(false, m, p, done + rest) && WellSized(false, n)
    requires rest != [] && !rest[0].used && rest[0].size >= n
    requires p + Total(done) in m.w && WellSized(false, rest[0].size)
    ensures var m2 := Cut(m, p + Total(done), n, rest[0].size);
            var placed := Place(Outcome(true, done, rest), n, 1);
            && Tiled(false, m2, p, placed) && Total(placed) == Total(done + rest)
            && Kept(m, m2, Live(p, done + rest))
  {
    var h, size := p + Total(done), rest[0].size;
    CutBlocks(m, h, n, size);
    FitPlaced(false, m, Cut(m, h, n, size), p, done, rest, n, 1);
    PlaceGrants(p, Outcome(true, done, rest), n, 1);
  }

  lemma CutBlocks(m: Words, h: nat, n: Pos, size: Pos)
    requires h in m.w && n <= size && WellSized(false, n) && WellSized(false, size)
    ensures Tiled(false, Cut(m, h, n, size), h, CarvedInto(n, Block(size, false), 1))
    ensures Total(CarvedInto(n, Block(size, false), 1)) == size
    ensures Outside(m, Cut(m, h, n, size), h, h + size)
  {
    var m2 := Cut(m, h, n, size);
    if size > n {
      AlignedAdd(size, n);
      var k: nat :| Times8(k) == size - n;
      SplitTags(false, m2, h, n, size - n);
    } else {
      OneTagged(false, m2, h, Block(size, true));
    }
  }

  // What a search leaves is still a heap, with every live block as it was.
  lemma Settles(m: Words, p: nat, bs: seq<Block>, size: nat)
    requires Tiled(false, m, p, bs)
    ensures var n := BlockSizeFor(size); var r := Hunt(bs, size); var m2 := Swept(false, m, p, [], bs, n);
            && Kept(m, m2, Live(p, bs)) && m2.w.Keys == m.w.Keys
            && Live(p, r.before + r.after) == Live(p, bs) && Total(r.before + r.after) == Total(bs)
            && var h := p + Total(r.before); var live := Live(p, Place(r, n, 1));
            && Granted(Live(p, bs), live, h, size + 8)
  {
    var n := BlockSizeFor(size);
    assert [] + bs == bs;
    SweptSearched(false, m, p, [], bs, n);
    HuntPlaced(p, bs, size);
  }

  lemma HuntPlaced(p: nat, bs: seq<Block>, size: nat)
    ensures var n := BlockSizeFor(size); var r := Hunt(bs, size);
            var h := p + Total(r.before); var live := Live(p, Place(r, n, 1));
            Granted(Live(p, bs), live, h, size + 8)
  {
    var n := BlockSizeFor(size);
    SearchIsFirstFit(p, bs, n);
    PlaceGrants(p, Hunt(bs, size), n, 1);
  }

  lemma FreedTiled(m: Words, p: nat, bs: seq<Block>, i: nat)
    requires Tiled(false, m, p, bs) && i < |bs| && bs[i].used
    ensures var h := p + Total(bs[..i]); var bs2 := bs[i := Block(bs[i].size, false)];
            && h in m.w && SizeOf(m.w[h]) == bs[i].size
            && Tiled(false, Put(m, h, bs[i].size), p, bs2) && Total(bs2) == Total(bs)
            && Live(p, bs2) == Live(p, bs) - {h}
  {
    var h, b2 := p + Total(bs[..i]), Block(bs[i].size, false);
    TiledAt(false, m, p, bs, i);
    PackInverts(bs[i]);
    TotalOne(bs[i]);
    OneTagged(false, Put(m, h, bs[i].size), h, b2);
    assert bs == bs[..i] + [bs[i]] + bs[i + 1..] && bs[i := b2] == bs[..i] + [b2] + bs[i + 1..];
    TiledReplace(false, m, Put(m, h, bs[i].size), p, bs[..i], [bs[i]], [b2], bs[i + 1..]);
    ClearKeepsRest(p, bs, i);
  }
}
