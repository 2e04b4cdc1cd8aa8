// The boundary-tag allocator over raw memory: first fit with deferred merging in find_fit,
// splitting in mmalloc, immediate four-way merging in mfree.
module BoundaryTagHeap {
  import opened Blocks
  import opened Memory
  import B = BoundaryTagBlocks

  class Heap {
    var mem: Words
    var brk: nat         // the program break that sbrk moves
    var breakStart: nat  // NULL until the first mmalloc
    var breakEnd: nat
    ghost var blocks: seq<Block>

    // break_start and break_end delimit memory tiled by the blocks.
    ghost predicate Laid()
      reads this
    {
      && breakStart >= 16
      && Tiled(true, mem, breakStart, blocks)
      && breakEnd == (if Total(blocks) == 0 then NULL else breakStart + Total(blocks))
    }

    // The live payloads: header address to block size.
    ghost function LiveBlocks(): map<nat, Pos>
      reads this
    {
      Live(breakStart, blocks)
    }

    method Store(a: nat, w: nat)
      requires a in mem.w
      modifies this`mem
      ensures mem == Put(old(mem), a, w)
    {
      mem := Put(mem, a, w);
    }

    // Merges the free block at `next` into the free block at `header` in front of it, which is
    // too small; the search goes on from there as it would have.
    method Absorb(header: nat, next: nat, ghost size: nat, ghost done: seq<Block>, ghost rest: seq<Block>)
      requires Tiled(true, mem, breakStart, done + rest) && Absorbs(rest, size)
      requires header == breakStart + Total(done) && next == header + rest[0].size
      modifies this`mem
      ensures var n := rest[0].size + rest[1].size; n >= 8 && mem == Stored(true, old(mem), header, n)
      ensures Tiled(true, mem, breakStart, done + Absorbed(rest))
      ensures Total(done + Absorbed(rest)) == Total(done + rest)
      ensures Swept(true, mem, breakStart, done, Absorbed(rest), size) == Swept(true, old(mem), breakStart, done, rest, size)
      ensures Search(done, Absorbed(rest), size) == Search(done, rest, size)
    {
      Facing(true, mem, breakStart, done, rest);
      SweptAbsorbs(true, mem, breakStart, done, rest, size);
      Store(header, mem.w[header] + SizeOf(mem.w[next]));
      Store(Footer(mem, header), mem.w[header]);
      MergeTiled(true, old(mem), mem, breakStart, done, rest);
    }

    method FindFit(size: nat) returns (header: nat)
      requires Laid()
      modifies this`mem, this`blocks
      ensures Tiled(true, mem, breakStart, blocks) && Total(blocks) == old(Total(blocks))
      ensures mem == Swept(true, old(mem), breakStart, [], old(blocks), size)
      ensures var r := Search([], old(blocks), size);
              && blocks == r.before + r.after
              && header == (if r.found then breakStart + Total(r.before) else NULL)
    {
      ghost var done, rest := [], blocks;
      ghost var found, swept := Search(done, rest, size), Swept(true, mem, breakStart, done, rest, size);
      assert [] + blocks == blocks;
      header := breakStart;
      while header < breakEnd
        invariant blocks == done + rest && Total(blocks) == old(Total(blocks))
        invariant Tiled(true, mem, breakStart, blocks)
        invariant header == breakStart + Total(done)
        invariant Search(done, rest, size) == found
        invariant Swept(true, mem, breakStart, done, rest, size) == swept
        decreases |rest|
      {
        NothingLeft(breakStart, done, rest);
        Facing(true, mem, breakStart, done, rest);
        var next := NextBlock(mem, header);
        if !InUse(mem.w[header]) {
          if mem.w[header] >= size {
            return;
          }
          if next < breakEnd && !InUse(mem.w[next]) {
            Absorb(header, next, size, done, rest);
            rest := Absorbed(rest);
            blocks := done + rest;
            continue;
          }
        }
        SweptPasses(true, mem, breakStart, done, rest, size);
        header := next;
        done, rest := done + [rest[0]], rest[1..];
      }
      NothingLeft(breakStart, done, rest);
      header := NULL;
    }

    ghost predicate Valid()
      reads this
    {
      if breakStart == NULL then blocks == [] && breakEnd == NULL
      else Standing() && NoAdjacentFree(blocks)
    }

    // The heap reaches from the prologue to the program break.
    ghost predicate Standing()
      reads this
    {
      && Laid() && Mapped(mem, breakStart, Total(blocks))
      && breakStart - 8 in mem.w && mem.w[breakStart - 8] == 17
      && brk == breakStart + Total(blocks)
    }

    constructor (initialBreak: nat)
      ensures Valid() && blocks == []
    {
      mem := Words(map[]);
      brk := initialBreak;
      breakStart, breakEnd := NULL, NULL;
      blocks := [];
    }

    // Fresh memory above the break, holding anything.
    method Sbrk(n: nat) returns (p: nat)
      modifies this`mem, this`brk
      ensures p == old(brk) && brk == p + n
      ensures Same(old(mem), mem, 0, p) && old(mem).w.Keys <= mem.w.Keys && Mapped(mem, p, n)
    {
      p := brk;
      brk := brk + n;
      mem := Extended(mem, p, n);
    }

    method AllocateBlock(p: nat, n: nat)
      requires p in mem.w && Clean(n) && n >= 16 && p + n - 8 in mem.w
      modifies this`mem
      ensures mem == BothTags(old(mem), p, n, n + 1)
    {
      Store(p, WithBit(n));
      Store(Footer(mem, p), WithBit(n));
    }

    // Puts n bytes of the free block at `header` to use, splitting off what is left over when
    // that is large enough to be a block.
    method Carve(header: nat, n: nat)
      requires header in mem.w && Carvable(mem, header, n, SizeOf(mem.w[header]), B.MIN_BLOCK)
      modifies this`mem
      ensures mem == Carved(old(mem), header, n, SizeOf(old(mem).w[header]), B.MIN_BLOCK)
    {
      var size := SizeOf(mem.w[header]);
      if size >= n + B.MIN_BLOCK {
        Store(header, n);
        Store(NextBlock(mem, header), size - n);
        Store(Footer(mem, NextBlock(mem, header)), size - n);
      }
      var blkSize := SizeOf(mem.w[header]);
      AllocateBlock(header, blkSize);
    }

    // The first call's prologue: a used block in front of the heap for mfree to look back at.
    method Start()
      requires Valid() && breakStart == NULL
      modifies this
      ensures Valid() && breakStart == old(brk) + 16 && blocks == []
    {
      var size := Align(WORD + WORD);
      assert Times8(2) == 16;
      assert size == 16;
      var prologue := Sbrk(size);
      AllocateBlock(prologue, size);
      breakStart := NextBlock(mem, prologue);
    }

    // The branch of mmalloc that found a fit.
    method Take(header: nat, n: Pos, ghost r: Outcome)
      requires Standing() && WellSized(true, n)
      requires r.found && r.before + r.after == blocks && header == breakStart + Total(r.before)
      requires r.after != [] && !r.after[0].used && r.after[0].size >= n
      modifies this`mem, this`blocks
      ensures Standing() && blocks == Place(r, n, B.MIN_BLOCK)
      ensures Kept(old(mem), mem, old(LiveBlocks()))
    {
      TakeFits(mem, breakStart, r.before, r.after, n, B.MIN_BLOCK);
      Carve(header, n);
      blocks := Place(r, n, B.MIN_BLOCK);
    }

    // The branch of mmalloc that found none.
    method Grow(n: Pos) returns (header: nat)
      requires Standing() && WellSized(true, n)
      modifies this`mem, this`brk, this`breakEnd, this`blocks
      ensures Standing() && blocks == old(blocks) + [Block(n, true)]
      ensures header == breakStart + old(Total(blocks))
      ensures Kept(old(mem), mem, old(LiveBlocks()))
    {
      header := Sbrk(n);
      NewBlock(n);
      ghost var m := mem;
      AllocateBlock(header, n);
      GrowsTiled(old(mem), m, mem, breakStart, blocks, n);
      breakEnd := header + n;
      blocks := blocks + [Block(n, true)];
    }

    // A new live block appears where none was, with room for the request between its tags;
    // no store overlaps any other live block.
    method Malloc(size: nat) returns (ptr: nat)
      requires Valid()
      modifies this
      ensures Valid() && breakStart != NULL && (old(breakStart) != NULL ==> breakStart == old(breakStart))
      ensures blocks == B.Malloc(old(blocks), size)
      ensures ptr >= WORD && Granted(old(LiveBlocks()), LiveBlocks(), ptr - WORD, size + 2 * WORD)
      ensures Kept(old(mem), mem, old(LiveBlocks()))
    {
      if breakStart == NULL {
        Start();
      }
      var header := Obtain(size);
      ptr := header + WORD;
    }

    // mmalloc after its search: one branch or the other.
    method Settle(fit: nat, n: Pos, ghost r: Outcome, ghost need: nat) returns (header: nat)
      requires Standing() && WellSized(true, n) && r.before + r.after == blocks
      requires fit == (if r.found then breakStart + Total(r.before) else NULL)
      requires if r.found then r.after != [] && !r.after[0].used && r.after[0].size >= n else r.before == blocks
      requires Granted(LiveBlocks(), Live(breakStart, Place(r, n, B.MIN_BLOCK)), breakStart + Total(r.before), need)
      modifies this`mem, this`brk, this`breakEnd, this`blocks
      ensures Standing() && blocks == Place(r, n, B.MIN_BLOCK) && header == breakStart + Total(r.before)
      ensures Granted(old(LiveBlocks()), LiveBlocks(), header, need)
      ensures Kept(old(mem), mem, old(LiveBlocks()))
    {
      header := fit;
      if header != NULL {
        Take(header, n, r);
      } else {
        header := Grow(n);
      }
    }

    // mmalloc once the prologue is there.
    method Obtain(size: nat) returns (header: nat)
      requires Valid() && breakStart != NULL
      modifies this`mem, this`brk, this`breakEnd, this`blocks
      ensures Valid()
      ensures blocks == B.Malloc(old(blocks), size)
      ensures Granted(old(LiveBlocks()), LiveBlocks(), header, size + 2 * WORD)
      ensures Kept(old(mem), mem, old(LiveBlocks()))
    {
      var blkSize := B.BlockSizeFor(size);
      ghost var r := Search([], blocks, blkSize);
      MallocPlaces(breakStart, blocks, size);
      B.MallocKeepsApart(blocks, size);
      SweptSettled(true, mem, breakStart, [], blocks, blkSize);
      var fit := FindFit(blkSize);
      header := Settle(fit, blkSize, r, size + 2 * WORD);
    }

    method DeallocateBlock(p: nat, ghost n: nat)
      requires n >= 16 && Clean(n)
      requires p in mem.w && mem.w[p] == n + 1 && p + n - 8 in mem.w && mem.w[p + n - 8] == n + 1
      modifies this`mem
      ensures mem == BothTags(old(mem), p, n, n)
    {
      Store(p, SizeOf(mem.w[p]));
      Store(Footer(mem, p), SizeOf(mem.w[Footer(mem, p)]));
    }

    // The freed block joins its free neighbours; exactly it stops being live, and no store
    // overlaps any block still live.
    method Free(ptr: nat)
      requires Valid() && ptr >= WORD && ptr - WORD in LiveBlocks()
      modifies this`mem, this`blocks
      ensures Valid()
      ensures exists i: nat :: i < |old(blocks)| && old(blocks)[i].used && blocks == B.Free(old(blocks), i)
                               && ptr - WORD == breakStart + Total(old(blocks)[..i])
      ensures LiveBlocks() == old(LiveBlocks()) - {ptr - WORD}
      ensures Kept(old(mem), mem, LiveBlocks())
    {
      var header := ptr - WORD;
      ghost var i := LiveIndex(breakStart, blocks, header);
      FreeSees(mem, breakStart, blocks, i);
      FreeEffect(mem, breakStart, blocks, i);
      Rejoin(header, i);
      blocks := B.Free(blocks, i);
    }

    // The second case of mfree: the block takes in the free one after it.
    method JoinNext(header: nat, next: nat, size: nat, ghost n: nat)
      requires size >= 16 && n >= 16 && Clean(size) && next == header + size
      requires header in mem.w && mem.w[header] == size + 1 && next - 8 in mem.w && mem.w[next - 8] == size + 1
      requires next in mem.w && SizeOf(mem.w[next]) == n && next + n - 8 in mem.w
      modifies this`mem
      ensures mem == BothTags(BothTags(old(mem), header, size, size), header, size + n, size + n)
    {
      DeallocateBlock(header, size);
      var blkSize := size + SizeOf(mem.w[next]);
      Store(header, blkSize);
      Store(Footer(mem, next), blkSize);
    }

    // The four cases of mfree.
    method Rejoin(header: nat, ghost i: nat)
      requires i < |blocks| && blocks[i].used && FreeView(mem, breakStart, blocks, i)
      requires breakEnd == breakStart + Total(blocks) && breakStart >= 16
      requires header == breakStart + Total(blocks[..i])
      modifies this`mem
      ensures mem == Retagged(old(mem), header, blocks, i)
    {
      var blkSize := SizeOf(mem.w[header]);
      var prev := PrevBlock(mem, header);
      var next := NextBlock(mem, header);
      var prevAllocated := prev < breakStart || InUse(mem.w[prev]);
      var nextAllocated := next >= breakEnd || InUse(mem.w[next]);
      assert prevAllocated <==> i == 0 || blocks[i - 1].used;
      assert nextAllocated <==> i + 1 == |blocks| || blocks[i + 1].used;
      if prevAllocated && nextAllocated {
        DeallocateBlock(header, blocks[i].size);
      } else if prevAllocated && !nextAllocated {
        JoinNext(header, next, blkSize, blocks[i + 1].size);
      } else if !prevAllocated && nextAllocated {
        blkSize := blkSize + SizeOf(mem.w[prev]);
        Store(prev, blkSize);
        Store(Footer(mem, header), blkSize);
      } else {
        blkSize := blkSize + SizeOf(mem.w[prev]) + SizeOf(mem.w[next]);
        Store(prev, blkSize);
        Store(Footer(mem, next), blkSize);
      }
    }

    // walk_heap: its assertion holds at every block, and it lists the blocks as they are.
    method WalkHeap() returns (listing: seq<Block>)
      requires Valid() && breakStart != NULL
      ensures listing == blocks
    {
      listing := [];
      ghost var rest := blocks;
      var p := breakStart;
      while p < breakEnd
        invariant blocks == listing + rest && p == breakStart + Total(listing)
        decreases |rest|
      {
        NothingLeft(breakStart, listing, rest);
        Facing(true, mem, breakStart, listing, rest);
        TagsAgree(mem, breakStart, listing, rest);
        assert mem.w[p] == mem.w[Footer(mem, p)];
        Passing(listing, rest);
        listing := listing + [Block(SizeOf(mem.w[p]), InUse(mem.w[p]))];
        p := NextBlock(mem, p);
        rest := rest[1..];
      }
      NothingLeft(breakStart, listing, rest);
    }

    // The owner of a live block writes a word of its payload.
    method WritePayload(h: nat, a: nat, v: nat)
      requires Valid() && h in LiveBlocks() && h + WORD <= a && a + WORD <= h + LiveBlocks()[h] - WORD
      modifies this`mem
      ensures Valid() && mem == Put(old(mem), a, v) && LiveBlocks() == old(LiveBlocks())
    {
      ghost var i := LiveIndex(breakStart, blocks, h);
      LiveWithin(breakStart, blocks);
      PayloadWritten(true, mem, breakStart, blocks, i, a, v);
      Store(a, v);
    }
  }

  lemma TagsAgree(m: Words, p: nat, done: seq<Block>, rest: seq<Block>)
    requires Tiled(true, m, p, done + rest) && rest != []
    ensures var h := p + Total(done);
            h in m.w && h <= Footer(m, h) && Footer(m, h) in m.w && m.w[Footer(m, h)] == m.w[h]
  {
    TiledConcat(true, m, p, done, rest);
    Facing(true, m, p, done, rest);
  }

  // Stepping back by the footer undoes stepping forward by the header, at every block.
  lemma StepBackUndoesStepForward(m: Words, p: nat, bs: seq<Block>, i: nat)
    requires Tiled(true, m, p, bs) && i < |bs|
    ensures var h := p + Total(bs[..i]);
            && h in m.w && NextBlock(m, h) >= WORD && NextBlock(m, h) - WORD in m.w
            && NextBlock(m, h) == p + Total(bs[..i + 1])
            && PrevBlock(m, NextBlock(m, h)) == h
  {
    TiledAt(true, m, p, bs, i);
    PackInverts(bs[i]);
  }

  // Memory after mfree's stores: the block's own tags cleared when it keeps its place, and the
  // joined size at both ends when it has grown.
  function Retagged(m: Words, h: nat, bs: seq<Block>, i: nat): Words
    requires i < |bs| && bs[i].size >= 8 && (i > 0 ==> bs[i - 1].size <= h)
  {
    var size := bs[i].size;
    var after := if i + 1 < |bs| && !bs[i + 1].used then bs[i + 1].size else 0;
    if i > 0 && !bs[i - 1].used then
      BothTags(m, h - bs[i - 1].size, bs[i - 1].size + size + after, bs[i - 1].size + size + after)
    else if after > 0 then
      BothTags(BothTags(m, h, size, size), h, size + after, size + after)
    else
      BothTags(m, h, size, size)
  }

  // The size of what joins around block i, and where it starts.
  ghost predicate Spans(bs: seq<Block>, i: nat)
    requires i < |bs|
  {
    var lo, hi := B.JoinFrom(bs, i), B.JoinTo(bs, i);
    && Total(bs[..lo]) == Total(bs[..i]) - (if lo < i then bs[i - 1].size else 0)
    && Total(bs[lo..hi]) == bs[i].size + (if lo < i then bs[i - 1].size else 0)
                            + (if hi > i + 1 then bs[i + 1].size else 0)
  }

  // What mfree reads around block i.
  ghost predicate FreeView(m: Words, p: nat, bs: seq<Block>, i: nat)
    requires i < |bs|
  {
    var h := p + Total(bs[..i]); var size := bs[i].size; var next := h + size;
    && h >= 16 && h in m.w && m.w[h] == size + 1 && Clean(size) && size >= 16
    && next - 8 in m.w && m.w[next - 8] == size + 1
    && h - 8 in m.w
    && (i == 0 ==> h == p && SizeOf(m.w[h - 8]) == 16)
    && (i > 0 ==> var n := bs[i - 1].size;
          16 <= n && p + n <= h && SizeOf(m.w[h - 8]) == n && h - n in m.w && SizeOf(m.w[h - n]) == n
          && (InUse(m.w[h - n]) <==> bs[i - 1].used))
    && (i + 1 < |bs| <==> next < p + Total(bs))
    && (i + 1 < |bs| ==> var n := bs[i + 1].size;
          16 <= n && next in m.w && SizeOf(m.w[next]) == n && next + n - 8 in m.w
          && (InUse(m.w[next]) <==> bs[i + 1].used))
  }

  lemma FreeSees(m: Words, p: nat, bs: seq<Block>, i: nat)
    requires Tiled(true, m, p, bs) && i < |bs| && bs[i].used
    requires p >= 16 && p - 8 in m.w && m.w[p - 8] == 17
    ensures FreeView(m, p, bs, i)
  {
    ClearsLowBit(17);
    TiledAt(true, m, p, bs, i);
    PackInverts(bs[i]);
    if i > 0 {
      TiledAt(true, m, p, bs, i - 1);
      PackInverts(bs[i - 1]);
    } else {
      assert bs[..0] == [];
    }
    if i + 1 < |bs| {
      TiledAt(true, m, p, bs, i + 1);
      PackInverts(bs[i + 1]);
    } else {
      assert bs[..i + 1] == bs;
    }
  }

  lemma JoinSpan(bs: seq<Block>, i: nat)
    requires i < |bs|
    ensures Spans(bs, i)
  {
    var lo, hi := B.JoinFrom(bs, i), B.JoinTo(bs, i);
    assert bs[i..i + 1] == [bs[i]];
    TotalOne(bs[i]);
    TotalSlices(bs, lo, i, hi);
    TotalSlices(bs, i, i + 1, hi);
    if lo < i {
      assert bs[lo..i] == [bs[i - 1]];
      TotalOne(bs[i - 1]);
      TotalSlices(bs, 0, lo, i);
      assert bs[0..lo] == bs[..lo] && bs[0..i] == bs[..i];
    }
    if hi > i + 1 {
      assert bs[i + 1..hi] == [bs[i + 1]];
      TotalOne(bs[i + 1]);
    }
  }

  // The free block that mfree makes has its size at both ends, and nothing outside it changed.
  ghost predicate Rejoined(m: Words, m2: Words, p: nat, bs: seq<Block>, i: nat)
    requires i < |bs|
  {
    var lo, hi := B.JoinFrom(bs, i), B.JoinTo(bs, i);
    JoinedAt(m, m2, p + Total(bs[..lo]), Total(bs[lo..hi]))
  }

  ghost predicate JoinedAt(m: Words, m2: Words, h: nat, t: nat) {
    && m2.w.Keys == m.w.Keys
    && t >= 16 && h in m2.w && m2.w[h] == t && h + t - 8 in m2.w && m2.w[h + t - 8] == t
    && Outside(m, m2, h, h + t)
  }

  lemma RetaggedRejoins(m: Words, p: nat, bs: seq<Block>, i: nat)
    requires i < |bs| && bs[i].used && FreeView(m, p, bs, i) && Spans(bs, i)
    ensures Rejoined(m, Retagged(m, p + Total(bs[..i]), bs, i), p, bs, i)
  {
    if i > 0 && !bs[i - 1].used {
      RetaggedBack(m, p, bs, i);
    } else if i + 1 < |bs| && !bs[i + 1].used {
      RetaggedAhead(m, p, bs, i);
    } else {
      RetaggedAlone(m, p, bs, i);
    }
  }

  lemma RetaggedBack(m: Words, p: nat, bs: seq<Block>, i: nat)
    requires 0 < i < |bs| && bs[i].used && !bs[i - 1].used && FreeView(m, p, bs, i) && Spans(bs, i)
    ensures Rejoined(m, Retagged(m, p + Total(bs[..i]), bs, i), p, bs, i)
  {
    var lo, hi := B.JoinFrom(bs, i), B.JoinTo(bs, i);
    var t := Total(bs[lo..hi]);
    JoinedOnce(m, Retagged(m, p + Total(bs[..i]), bs, i), p + Total(bs[..lo]), t);
  }

  lemma RetaggedAhead(m: Words, p: nat, bs: seq<Block>, i: nat)
    requires i + 1 < |bs| && bs[i].used && (i > 0 ==> bs[i - 1].used) && !bs[i + 1].used
    requires FreeView(m, p, bs, i) && Spans(bs, i)
    ensures Rejoined(m, Retagged(m, p + Total(bs[..i]), bs, i), p, bs, i)
  {
    var h, t := p + Total(bs[..i]), bs[i].size + bs[i + 1].size;
    assert B.JoinFrom(bs, i) == i && B.JoinTo(bs, i) == i + 2 && Total(bs[i..i + 2]) == t;
    JoinedTwice(m, Retagged(m, h, bs, i), h, bs[i].size, t);
  }

  lemma RetaggedAlone(m: Words, p: nat, bs: seq<Block>, i: nat)
    requires i < |bs| && bs[i].used && (i > 0 ==> bs[i - 1].used) && (i + 1 < |bs| ==> bs[i + 1].used)
    requires FreeView(m, p, bs, i) && Spans(bs, i)
    ensures Rejoined(m, Retagged(m, p + Total(bs[..i]), bs, i), p, bs, i)
  {
    var h := p + Total(bs[..i]);
    assert B.JoinFrom(bs, i) == i && B.JoinTo(bs, i) == i + 1 && Total(bs[i..i + 1]) == bs[i].size;
    JoinedOnce(m, Retagged(m, h, bs, i), h, bs[i].size);
  }

  lemma JoinedOnce(m: Words, m2: Words, h: nat, t: nat)
    requires t >= 16 && h in m.w && h + t - 8 in m.w && m2 == BothTags(m, h, t, t)
    ensures JoinedAt(m, m2, h, t)
  {
    assert m2.w.Keys == m.w.Keys;
  }

  lemma JoinedTwice(m: Words, m2: Words, h: nat, n: nat, t: nat)
    requires 16 <= n <= t - 16 && h in m.w && h + n - 8 in m.w && h + t - 8 in m.w
    requires m2 == BothTags(BothTags(m, h, n, n), h, t, t)
    ensures JoinedAt(m, m2, h, t)
  {
    var m1 := BothTags(m, h, n, n);
    assert m1.w.Keys == m.w.Keys;
    JoinedOnce(m1, m2, h, t);
  }

  lemma FreeEffect(m: Words, p: nat, bs: seq<Block>, i: nat)
    requires Tiled(true, m, p, bs) && i < |bs| && bs[i].used && FreeView(m, p, bs, i)
    requires NoAdjacentFree(bs) && Mapped(m, p, Total(bs)) && p >= 16 && p - 8 in m.w
    ensures var bs2 := B.Free(bs, i); var m2 := Retagged(m, p + Total(bs[..i]), bs, i);
            && Tiled(true, m2, p, bs2) && Total(bs2) == Total(bs) && NoAdjacentFree(bs2)
            && Mapped(m2, p, Total(bs2)) && p - 8 in m2.w && m2.w[p - 8] == m.w[p - 8]
            && Live(p, bs2) == Live(p, bs) - {p + Total(bs[..i])}
            && Kept(m, m2, Live(p, bs2))
  {
    JoinSpan(bs, i);
    RetaggedRejoins(m, p, bs, i);
    FreeWritten(m, Retagged(m, p + Total(bs[..i]), bs, i), p, bs, i);
  }

  lemma FreeWritten(m: Words, m2: Words, p: nat, bs: seq<Block>, i: nat)
    requires Tiled(true, m, p, bs) && i < |bs| && bs[i].used && Rejoined(m, m2, p, bs, i)
    requires NoAdjacentFree(bs)
    ensures var bs2 := B.Free(bs, i);
            && Tiled(true, m2, p, bs2) && Total(bs2) == Total(bs) && NoAdjacentFree(bs2)
            && Live(p, bs2) == Live(p, bs) - {p + Total(bs[..i])}
            && Kept(m, m2, Live(p, bs2))
  {
    B.FreeReleases(p, bs, i);
    B.FreeKeepsApart(bs, i);
    RejoinedTiled(m, m2, p, bs, i);
    RejoinedKeeps(m, m2, p, bs, i);
  }

  lemma RejoinedTiled(m: Words, m2: Words, p: nat, bs: seq<Block>, i: nat)
    requires Tiled(true, m, p, bs) && i < |bs| && Rejoined(m, m2, p, bs, i)
    ensures Tiled(true, m2, p, B.Free(bs, i))
  {
    var lo, hi := B.JoinFrom(bs, i), B.JoinTo(bs, i);
    assert bs == bs[..lo] + bs[lo..hi] + bs[hi..];
    JoinTiled(m, m2, p, bs[..lo], bs[lo..hi], bs[hi..]);
  }

  lemma JoinTiled(m: Words, m2: Words, p: nat, xs: seq<Block>, mid: seq<Block>, ys: seq<Block>)
    requires Tiled(true, m, p, xs + mid + ys) && JoinedAt(m, m2, p + Total(xs), Total(mid))
    ensures Tiled(true, m2, p, xs + ([Block(Total(mid), false)] + ys))
  {
    var one := Block(Total(mid), false);
    StretchAligned(m, p, xs, mid, ys);
    OneTagged(true, m2, p + Total(xs), one);
    TiledReplace(true, m, m2, p, xs, mid, [one], ys);
    assert xs + ([one] + ys) == xs + [one] + ys;
  }

  lemma StretchAligned(m: Words, p: nat, xs: seq<Block>, mid: seq<Block>, ys: seq<Block>)
    requires Tiled(true, m, p, xs + mid + ys)
    ensures Aligned(Total(mid))
  {
    TiledConcat(true, m, p, xs + mid, ys);
    TiledConcat(true, m, p, xs, mid);
    TotalAligned(true, m, p + Total(xs), mid);
  }

  lemma RejoinedKeeps(m: Words, m2: Words, p: nat, bs: seq<Block>, i: nat)
    requires i < |bs| && bs[i].used && Rejoined(m, m2, p, bs, i)
    ensures Kept(m, m2, Live(p, B.Free(bs, i)))
  {
    var lo, hi := B.JoinFrom(bs, i), B.JoinTo(bs, i);
    var bs2 := bs[i := Block(bs[i].size, false)];
    B.TotalCleared(bs, i, lo, hi);
    assert bs2[..lo] == bs[..lo];
    ClearedKept(m, m2, p, bs2, lo, hi);
    ClearKeepsRest(p, bs, i);
    B.FreeReleases(p, bs, i);
  }

  lemma ClearedKept(m: Words, m2: Words, p: nat, bs: seq<Block>, lo: nat, hi: nat)
    requires FreeRun(bs, lo, hi)
    requires Outside(m, m2, p + Total(bs[..lo]), p + Total(bs[..lo]) + Total(bs[lo..hi]))
    ensures Kept(m, m2, Live(p, bs))
  {
    assert bs == bs[..lo] + bs[lo..hi] + bs[hi..];
    KeptOutside(m, m2, p, bs[..lo], bs[lo..hi], bs[hi..]);
  }

  // mmalloc seen on the block list: what its search finds and where the new block lands.
  lemma MallocPlaces(p: nat, bs: seq<Block>, size: nat)
    requires NoAdjacentFree(bs)
    ensures var n := B.BlockSizeFor(size); var r := Search([], bs, n);
            var h := p + Total(r.before); var live := Live(p, B.Malloc(bs, size));
            && r.before + r.after == bs
            && (r.found ==> r.after != [] && !r.after[0].used && r.after[0].size >= n)
            && (!r.found ==> r.after == [] && r.before == bs)
            && B.Malloc(bs, size) == Place(r, n, B.MIN_BLOCK)
            && Granted(Live(p, bs), live, h, size + 16)
  {
    var n := B.BlockSizeFor(size);
    var r := Search([], bs, n);
    MallocFinds(bs, n);
    PlaceGrants(p, r, n, B.MIN_BLOCK);
  }

  lemma MallocFinds(bs: seq<Block>, n: nat)
    requires NoAdjacentFree(bs)
    ensures var r := Search([], bs, n);
            && r.before + r.after == bs
            && (r.found ==> r.after != [] && !r.after[0].used && r.after[0].size >= n)
            && (!r.found ==> r.after == [] && r.before == bs)
  {
    B.SearchSettled([], bs, n);
    var r := Search([], bs, n);
    assert [] + bs == bs;
    assert r.before + [] == r.before;
  }
}
