// The heap as a list of blocks, seen from above the memory words. Both allocators search
// this list from the left, merging free neighbours on the way; they differ in how a block
// is written down in memory (memory.dfy) and in what they do with the block they find.
module Blocks {

  type Pos = n: nat | 0 < n witness 8

  datatype Block = Block(size: Pos, used: bool)

  // What a search leaves behind: the blocks passed over, and the rest of the list, whose
  // first block is the fit when `found`.
  datatype Outcome = Outcome(found: bool, before: seq<Block>, after: seq<Block>)

  function Total(bs: seq<Block>): nat {
    if bs == [] then 0 else bs[0].size + Total(bs[1..])
  }

  predicate FreeRun(bs: seq<Block>, i: nat, j: nat) {
    i < j <= |bs| && forall k :: i <= k < j ==> !bs[k].used
  }

  ghost predicate NoAdjacentFree(bs: seq<Block>) {
    forall j, k :: 0 <= j < k < |bs| && k == j + 1 ==> bs[j].used || bs[k].used
  }

  predicate NoneUsed(bs: seq<Block>) {
    forall b :: b in bs ==> !b.used
  }

  // The live blocks of a list laid out from address p: header address to block size.
  ghost function Live(p: nat, bs: seq<Block>): map<nat, Pos>
    decreases |bs|
  {
    if bs == [] then map[]
    else
      var rest := Live(p + bs[0].size, bs[1..]);
      if bs[0].used then rest[p := bs[0].size] else rest
  }

  // The search both find_fit loops perform: first fit with merging on the way.
  ghost function Search(done: seq<Block>, rest: seq<Block>, size: nat): Outcome
    decreases |rest|
  {
    if rest == [] then Outcome(false, done, [])
    else if rest[0].used then Search(done + [rest[0]], rest[1..], size)
    else if rest[0].size >= size then Outcome(true, done, rest)
    else if |rest| > 1 && !rest[1].used then
      Search(done, [Block(rest[0].size + rest[1].size, false)] + rest[2..], size)
    else Search(done + [rest[0]], rest[1..], size)
  }

  lemma NeighbourUsed(bs: seq<Block>, k: nat)
    requires NoAdjacentFree(bs) && 0 < k < |bs|
    ensures bs[k - 1].used || bs[k].used
  {
  }

  lemma {:induction false} TotalConcat(xs: seq<Block>, ys: seq<Block>)
    ensures Total(xs + ys) == Total(xs) + Total(ys)
  {
    if xs == [] {
      assert xs + ys == ys;
    } else {
      TotalConcat(xs[1..], ys);
      assert (xs + ys)[1..] == xs[1..] + ys;
    }
  }

  lemma TotalOne(b: Block)
    ensures Total([b]) == b.size
  {
    assert [b][1..] == [];
  }

  lemma {:induction false} LiveConcat(p: nat, xs: seq<Block>, ys: seq<Block>)
    ensures Live(p, xs + ys) == Live(p, xs) + Live(p + Total(xs), ys)
    decreases |xs|
  {
    if xs == [] {
      assert xs + ys == ys;
    } else {
      LiveConcat(p + xs[0].size, xs[1..], ys);
      assert (xs + ys)[1..] == xs[1..] + ys;
      LiveWithin(p + Total(xs), ys);
    }
  }

  // Every live block lies inside the list's span, and none of them overlap.
  lemma {:induction false} LiveWithin(p: nat, bs: seq<Block>)
    ensures forall h :: h in Live(p, bs) ==> p <= h && h + Live(p, bs)[h] <= p + Total(bs)
    decreases |bs|
  {
    if bs != [] {
      LiveWithin(p + bs[0].size, bs[1..]);
    }
  }

  lemma LiveNone(p: nat, bs: seq<Block>)
    requires NoneUsed(bs)
    ensures Live(p, bs) == map[]
    decreases |bs|
  {
    if bs != [] {
      LiveNone(p + bs[0].size, bs[1..]);
    }
  }

  lemma TotalSlices(bs: seq<Block>, i: nat, j: nat, k: nat)
    requires i <= j <= k <= |bs|
    ensures Total(bs[i..k]) == Total(bs[i..j]) + Total(bs[j..k])
  {
    assert bs[i..k] == bs[i..j] + bs[j..k];
    TotalConcat(bs[i..j], bs[j..k]);
  }

  // The bytes of the free run bs[i..j] are enough for a request.
  ghost predicate Fits(bs: seq<Block>, i: nat, j: nat, size: nat) {
    FreeRun(bs, i, j) && Total(bs[i..j]) >= size
  }

  // The leftmost place a fitting free run starts, and its shortest fitting length there.
  ghost predicate FirstFit(bs: seq<Block>, i: nat, j: nat, size: nat) {
    Fits(bs, i, j, size) && forall a: nat, b: nat :: Fits(bs, a, b, size) ==> i < a || (i == a && j <= b)
  }

  function Merged(bs: seq<Block>, i: nat, j: nat): seq<Block>
    requires i < j <= |bs|
  {
    TotalSlices(bs, i, i + 1, j);
    [Block(Total(bs[i..j]), false)] + bs[j..]
  }

  function Rest(bs: seq<Block>, c: nat, j: nat): seq<Block>
    requires c <= j <= |bs|
  {
    if c == j then bs[c..] else Merged(bs, c, j)
  }

  // Where the search stands: everything before c is settled in `done`; bs[c..j] is the part
  // of the free run at c merged so far (nothing yet when c == j).
  ghost predicate Stage(p: nat, bs: seq<Block>, c: nat, j: nat, done: seq<Block>, size: nat) {
    && c <= j <= |bs|
    && (c < j ==> FreeRun(bs, c, j))
    && (forall b :: c < b < j ==> !Fits(bs, c, b, size))
    && (forall a: nat, b: nat :: Fits(bs, a, b, size) ==> c <= a)
    && NoAdjacentFree(done)
    && (done != [] && !done[|done| - 1].used ==> c == |bs| || bs[c].used)
    && Total(done) == Total(bs[..c])
    && Live(p, done) == Live(p, bs[..c])
  }

  lemma StageSkips(p: nat, bs: seq<Block>, c: nat, j: nat, done: seq<Block>, b: Block, size: nat)
    requires Stage(p, bs, c, j, done, size) && c < j
    requires b == Block(Total(bs[c..j]), false) && b.size < size
    requires j == |bs| || bs[j].used
    ensures Stage(p, bs, j, j, done + [b], size)
    ensures Search(done, Rest(bs, c, j), size) == Search(done + [b], Rest(bs, j, j), size)
  {
    assert Rest(bs, c, j)[1..] == bs[j..];
    forall x: nat, y: nat | Fits(bs, x, y, size) ensures j <= x {
      if x < j {
        assert y <= j;
        TotalSlices(bs, c, x, j);
        TotalSlices(bs, x, y, j);
      }
    }
    StageAppends(p, bs, c, j, done, b);
    LiveNone(p + Total(done), bs[c..j]);
    LiveNone(p + Total(done), [b]);
  }

  lemma StageAppends(p: nat, bs: seq<Block>, c: nat, j: nat, done: seq<Block>, b: Block)
    requires c < j <= |bs| && b.size == Total(bs[c..j])
    requires Total(done) == Total(bs[..c]) && Live(p, done) == Live(p, bs[..c])
    ensures Total(done + [b]) == Total(bs[..j])
    ensures Live(p, done + [b]) == Live(p, bs[..c]) + Live(p + Total(done), [b])
    ensures Live(p, bs[..j]) == Live(p, bs[..c]) + Live(p + Total(done), bs[c..j])
  {
    assert bs[..j] == bs[..c] + bs[c..j];
    TotalConcat(bs[..c], bs[c..j]);
    TotalConcat(done, [b]);
    LiveConcat(p, bs[..c], bs[c..j]);
    LiveConcat(p, done, [b]);
  }

  lemma StagePassesUsed(p: nat, bs: seq<Block>, c: nat, done: seq<Block>, size: nat)
    requires Stage(p, bs, c, c, done, size) && c < |bs| && bs[c].used
    ensures Stage(p, bs, c + 1, c + 1, done + [bs[c]], size)
    ensures Search(done, Rest(bs, c, c), size) == Search(done + [bs[c]], Rest(bs, c + 1, c + 1), size)
  {
    assert bs[c..][1..] == bs[c + 1..];
    assert bs[c..c + 1] == [bs[c]];
    TotalOne(bs[c]);
    StageAppends(p, bs, c, c + 1, done, bs[c]);
  }

  lemma StageStartsRun(p: nat, bs: seq<Block>, c: nat, done: seq<Block>, size: nat)
    requires Stage(p, bs, c, c, done, size) && c < |bs| && !bs[c].used
    ensures Stage(p, bs, c, c + 1, done, size)
    ensures Rest(bs, c, c) == Rest(bs, c, c + 1)
  {
    assert bs[c..c + 1] == [bs[c]];
    TotalOne(bs[c]);
  }

  lemma StageMerges(p: nat, bs: seq<Block>, c: nat, j: nat, done: seq<Block>, size: nat)
    requires Stage(p, bs, c, j, done, size) && c < j < |bs| && !bs[j].used
    requires Total(bs[c..j]) < size
    ensures Stage(p, bs, c, j + 1, done, size)
    ensures Search(done, Rest(bs, c, j), size) == Search(done, Rest(bs, c, j + 1), size)
  {
    var rest := Rest(bs, c, j);
    TotalSlices(bs, c, j, j + 1);
    assert rest[2..] == bs[j + 1..];
    assert bs[j..j + 1] == [bs[j]];
    TotalOne(bs[j]);
  }

  // What the search has established when it stops; (i, k) says where the fit was found.
  ghost predicate Stopped(p: nat, bs: seq<Block>, size: nat, r: Outcome, i: nat, k: nat) {
    && NoAdjacentFree(r.before)
    && (r.found ==> FirstFit(bs, i, k, size)
                    && r.after == Merged(bs, i, k)
                    && Total(r.before) == Total(bs[..i])
                    && Live(p, r.before) == Live(p, bs[..i])
                    && (r.before == [] || r.before[|r.before| - 1].used))
    && (!r.found ==> r.after == []
                     && (forall a: nat, b: nat :: !Fits(bs, a, b, size))
                     && Total(r.before) == Total(bs)
                     && Live(p, r.before) == Live(p, bs))
  }

  lemma StageStops(p: nat, bs: seq<Block>, c: nat, j: nat, done: seq<Block>, size: nat)
    requires Stage(p, bs, c, j, done, size) && c < j
    requires Total(bs[c..j]) >= size
    ensures Stopped(p, bs, size, Search(done, Rest(bs, c, j), size), c, j)
  {
  }

  lemma {:induction false} SearchFrom(p: nat, bs: seq<Block>, c: nat, done: seq<Block>, size: nat,
                                     r: Outcome)
    returns (i: nat, k: nat)
    requires Stage(p, bs, c, c, done, size)
    requires r == Search(done, Rest(bs, c, c), size)
    ensures Stopped(p, bs, size, r, i, k)
    decreases |bs| - c, |bs| - c, 0
  {
    if c == |bs| {
      i, k := c, c;
      assert bs[..c] == bs;
    } else if bs[c].used {
      StagePassesUsed(p, bs, c, done, size);
      i, k := SearchFrom(p, bs, c + 1, done + [bs[c]], size, r);
    } else {
      StageStartsRun(p, bs, c, done, size);
      i, k := SearchRun(p, bs, c, c + 1, done, size, r);
    }
  }

  lemma {:induction false} SearchRun(p: nat, bs: seq<Block>, c: nat, j: nat, done: seq<Block>, size: nat,
                                     r: Outcome)
    returns (i: nat, k: nat)
    requires Stage(p, bs, c, j, done, size) && c < j
    requires r == Search(done, Rest(bs, c, j), size)
    ensures Stopped(p, bs, size, r, i, k)
    decreases |bs| - c, |bs| - j, 1
  {
    if Total(bs[c..j]) >= size {
      i, k := c, j;
      StageStops(p, bs, c, j, done, size);
    } else if j < |bs| && !bs[j].used {
      i, k := SearchMerge(p, bs, c, j, done, size, r);
    } else {
      i, k := SearchPast(p, bs, c, j, done, size, r);
    }
  }

  lemma {:induction false} SearchMerge(p: nat, bs: seq<Block>, c: nat, j: nat, done: seq<Block>, size: nat,
                                     r: Outcome)
    returns (i: nat, k: nat)
    requires Stage(p, bs, c, j, done, size) && c < j < |bs| && !bs[j].used
    requires Total(bs[c..j]) < size
    requires r == Search(done, Rest(bs, c, j), size)
    ensures Stopped(p, bs, size, r, i, k)
    decreases |bs| - c, |bs| - j, 0
  {
    StageMerges(p, bs, c, j, done, size);
    i, k := SearchRun(p, bs, c, j + 1, done, size, r);
  }

  lemma {:induction false} SearchPast(p: nat, bs: seq<Block>, c: nat, j: nat, done: seq<Block>, size: nat,
                                     r: Outcome)
    returns (i: nat, k: nat)
    requires Stage(p, bs, c, j, done, size) && c < j
    requires Total(bs[c..j]) < size && (j == |bs| || bs[j].used)
    requires r == Search(done, Rest(bs, c, j), size)
    ensures Stopped(p, bs, size, r, i, k)
    decreases |bs| - j, |bs| - j + 1, 0
  {
    var b := Block(Total(bs[c..j]), false);
    StageSkips(p, bs, c, j, done, b, size);
    i, k := SearchFrom(p, bs, j, done + [b], size, r);
  }

  // The search succeeds exactly when some run of free blocks is large enough. It then stops
  // at the leftmost such run, having merged no more of it than the request needs; before it,
  // and everywhere on failure, no two free neighbours are left. Neither the bytes covered nor
  // any live block changes.
  lemma SearchIsFirstFit(p: nat, bs: seq<Block>, size: nat)
    ensures var r := Search([], bs, size);
            && (r.found <==> exists i: nat, j: nat :: Fits(bs, i, j, size))
            && (r.found ==> exists i: nat, j: nat :: FirstFit(bs, i, j, size)
                                           && r.after == Merged(bs, i, j)
                                           && Total(r.before) == Total(bs[..i]))
            && (r.found ==> r.after != [] && !r.after[0].used && r.after[0].size >= size)
            && NoAdjacentFree(r.before)
            && (r.found && r.before != [] ==> r.before[|r.before| - 1].used)
            && (!r.found ==> r.after == [])
            && Total(r.before + r.after) == Total(bs)
            && Live(p, r.before + r.after) == Live(p, bs)
  {
    assert bs[0..] == bs;
    var r := Search([], bs, size);
    var i, j := SearchFrom(p, bs, 0, [], size, r);
    if r.found {
      MergeKeeps(p, bs, i, j, r.before);
    } else {
      assert r.before + r.after == r.before;
    }
  }

  // Replacing a free run by one free block of its size changes neither span nor live blocks.
  lemma MergeKeeps(p: nat, bs: seq<Block>, i: nat, j: nat, before: seq<Block>)
    requires FreeRun(bs, i, j)
    requires Total(before) == Total(bs[..i]) && Live(p, before) == Live(p, bs[..i])
    ensures Total(before + Merged(bs, i, j)) == Total(bs)
    ensures Live(p, before + Merged(bs, i, j)) == Live(p, bs)
  {
    assert bs == bs[..i] + bs[i..];
    TotalConcat(bs[..i], bs[i..]);
    TotalConcat(before, Merged(bs, i, j));
    LiveConcat(p, bs[..i], bs[i..]);
    LiveConcat(p, before, Merged(bs, i, j));
    MergedSpan(p + Total(before), bs, i, j);
  }

  lemma MergedSpan(h: nat, bs: seq<Block>, i: nat, j: nat)
    requires FreeRun(bs, i, j)
    ensures Total(Merged(bs, i, j)) == Total(bs[i..])
    ensures Live(h, Merged(bs, i, j)) == Live(h, bs[i..])
  {
    assert bs[i..] == bs[i..j] + bs[j..] && Merged(bs, i, j)[1..] == bs[j..];
    TotalConcat(bs[i..j], bs[j..]);
    LiveConcat(h, bs[i..j], bs[j..]);
    LiveNone(h, bs[i..j]);
  }

  lemma LiveOne(p: nat, b: Block)
    ensures Live(p, [b]) == if b.used then map[p := b.size] else map[]
  {
    assert [b][1..] == [];
    assert Live(p + b.size, []) == map[];
  }

  // A live address names one used block of the list.
  lemma {:induction false} LiveIndex(p: nat, bs: seq<Block>, h: nat) returns (i: nat)
    requires h in Live(p, bs)
    ensures i < |bs| && bs[i].used && h == p + Total(bs[..i]) && Live(p, bs)[h] == bs[i].size
    decreases |bs|
  {
    LiveWithin(p + bs[0].size, bs[1..]);
    if h == p && bs[0].used {
      i := 0;
    } else {
      i := LiveIndex(p + bs[0].size, bs[1..], h);
      assert bs[..i + 1][1..] == bs[1..][..i];
      i := i + 1;
    }
  }

  // One live block of at least n bytes has appeared at h, where none was; the others stay.
  ghost predicate Granted(live: map<nat, Pos>, live2: map<nat, Pos>, h: nat, n: nat) {
    h !in live && h in live2 && live2[h] >= n && live2 == live[h := live2[h]]
  }

  // Handing a block out: the fit is split when at least `spare` bytes would be left over,
  // and the heap grows by a new block when there is no fit.
  function Place(r: Outcome, size: Pos, spare: Pos): seq<Block>
    requires r.found ==> r.after != [] && r.after[0].size >= size
  {
    if !r.found then r.before + [Block(size, true)]
    else if r.after[0].size >= size + spare then
      r.before + [Block(size, true), Block(r.after[0].size - size, false)] + r.after[1..]
    else
      r.before + [Block(r.after[0].size, true)] + r.after[1..]
  }

  // One live block appears, where no live block was and at least as large as asked; the
  // others stay. The heap's span grows only when nothing fitted.
  lemma PlaceGrants(p: nat, r: Outcome, size: Pos, spare: Pos)
    requires r.found ==> r.after != [] && !r.after[0].used && r.after[0].size >= size
    requires !r.found ==> r.after == []
    ensures var h := p + Total(r.before); var bs := r.before + r.after; var placed := Place(r, size, spare);
            && h !in Live(p, bs)
            && h in Live(p, placed) && size <= Live(p, placed)[h] < size + (if r.found then spare else 1)
            && Live(p, placed) == Live(p, bs)[h := Live(p, placed)[h]]
            && Total(placed) == Total(bs) + (if r.found then 0 else size)
  {
    var h := p + Total(r.before);
    if r.found {
      var tail := PlaceInFit(h, r.after, size, spare);
      assert Place(r, size, spare) == r.before + tail;
      GrantAt(p, r.before, r.after, tail, tail[0].size);
    } else {
      LiveOne(h, Block(size, true));
      TotalOne(Block(size, true));
      GrantAt(p, r.before, [], [Block(size, true)], size);
    }
  }

  lemma GrantAt(p: nat, before: seq<Block>, after: seq<Block>, tail: seq<Block>, n: Pos)
    requires var h := p + Total(before); h !in Live(h, after) && Live(h, tail) == Live(h, after)[h := n]
    ensures var h := p + Total(before);
            h !in Live(p, before + after) && Live(p, before + tail) == Live(p, before + after)[h := n]
    ensures Total(before + tail) - Total(tail) == Total(before + after) - Total(after)
  {
    LiveWithin(p, before);
    LiveConcat(p, before, after);
    LiveConcat(p, before, tail);
    TotalConcat(before, after);
    TotalConcat(before, tail);
  }

  lemma PlaceInFit(h: nat, after: seq<Block>, size: Pos, spare: Pos) returns (tail: seq<Block>)
    requires after != [] && !after[0].used && after[0].size >= size
    ensures Place(Outcome(true, [], after), size, spare) == tail && tail != []
    ensures Live(h, tail) == Live(h, after)[h := tail[0].size] && h !in Live(h, after)
    ensures Total(tail) == Total(after)
    ensures size <= tail[0].size < size + spare
  {
    tail := Place(Outcome(true, [], after), size, spare);
    LiveWithin(h + after[0].size, after[1..]);
    if after[0].size >= size + spare {
      var left := Block(after[0].size - size, false);
      assert tail[1..] == [left] + after[1..];
      assert tail[1..][1..] == after[1..];
    } else {
      assert tail[1..] == after[1..];
    }
  }

  // No two live blocks share a byte.
  lemma {:induction false} LiveDisjoint(p: nat, bs: seq<Block>, h: nat, h2: nat)
    requires h in Live(p, bs) && h2 in Live(p, bs) && h < h2
    ensures h + Live(p, bs)[h] <= h2
    decreases |bs|
  {
    LiveWithin(p + bs[0].size, bs[1..]);
    if h != p || !bs[0].used {
      LiveDisjoint(p + bs[0].size, bs[1..], h, h2);
    }
  }

  // Clearing a block's bit takes exactly it out of the live ones.
  lemma ClearKeepsRest(p: nat, bs: seq<Block>, i: nat)
    requires i < |bs| && bs[i].used
    ensures var bs2 := bs[i := Block(bs[i].size, false)];
            && Live(p, bs2) == Live(p, bs) - {p + Total(bs[..i])}
            && Total(bs2) == Total(bs)
  {
    var bs2 := bs[i := Block(bs[i].size, false)];
    assert bs == bs[..i] + bs[i..] && bs2 == bs[..i] + bs2[i..];
    LiveConcat(p, bs[..i], bs[i..]);
    LiveConcat(p, bs[..i], bs2[i..]);
    TotalConcat(bs[..i], bs[i..]);
    TotalConcat(bs[..i], bs2[i..]);
    LiveWithin(p, bs[..i]);
    ClearFirst(p + Total(bs[..i]), bs[i], bs[i + 1..]);
    assert bs[i..] == [bs[i]] + bs[i + 1..] && bs2[i..] == [bs2[i]] + bs[i + 1..];
  }

  lemma ClearFirst(h: nat, b: Block, rest: seq<Block>)
    requires b.used
    ensures Live(h, [Block(b.size, false)] + rest) == Live(h, [b] + rest) - {h}
    ensures Total([Block(b.size, false)] + rest) == Total([b] + rest)
  {
    LiveWithin(h + b.size, rest);
    assert ([b] + rest)[1..] == rest == ([Block(b.size, false)] + rest)[1..];
  }
}
