// Raw memory as 8-byte words at byte addresses, and what it means for a stretch of it to be
// tiled by a list of blocks. A block's first word packs its size and, in bit 0, whether it is
// in use; with boundary tags its last word repeats the first.
module Memory {
  import opened Blocks

  datatype Words = Words(w: map<nat, nat>)

  function Put(m: Words, a: nat, v: nat): Words {
    Words(m.w[a := v])
  }

  // The same word written at both ends of the n bytes at h.
  function BothTags(m: Words, h: nat, n: nat, v: nat): Words
    requires n >= 8
  {
    Put(Put(m, h, v), h + n - 8, v)
  }

  const NULL: nat := 0
  const WORD: nat := 8

  function Times8(k: nat): nat { 8 * k }

  ghost predicate Aligned(n: nat) {
    exists k :: Times8(k) == n
  }

  lemma AlignedAdd(n: nat, n2: nat)
    requires Aligned(n) && Aligned(n2)
    ensures Aligned(n + n2)
    ensures n >= n2 ==> Aligned(n - n2)
  {
    var k: nat, k2: nat :| Times8(k) == n && Times8(k2) == n2;
    assert Times8(k + k2) == n + n2;
    if n >= n2 {
      assert Times8(k - k2) == n - n2;
    }
  }

  // n is the smallest aligned size that holds m bytes.
  ghost predicate LeastAligned(n: nat, m: nat) {
    Aligned(n) && m <= n && forall k: nat :: Aligned(k) && m <= k ==> n <= k
  }

  // Rounds up to the 8-byte alignment.
  function Align(n: nat): (r: nat)
    ensures LeastAligned(r, n) && r < n + 8
  {
    assert Times8((n + 7) / 8) == n + 7 - (n + 7) % 8;
    assert forall k: nat {:trigger Times8(k)} :: Times8(k) == 8 * k;
    n + 7 - (n + 7) % 8
  }

  // w & ~0x1, by steps of two: the remainder operator would burden every proof about words.
  function SizeOf(w: nat): nat {
    if w < 2 then 0 else SizeOf(w - 2) + 2
  }

  // w & 0x1
  predicate InUse(w: nat) { w != SizeOf(w) }

  // w | 0x1
  function WithBit(w: nat): nat { SizeOf(w) + 1 }

  lemma {:induction false} ClearsLowBit(w: nat)
    ensures SizeOf(w) == w - w % 2 && (InUse(w) <==> w % 2 == 1)
  {
    if w >= 2 {
      ClearsLowBit(w - 2);
    }
  }

  // n reads back as the size it is, whether or not the in-use bit is set beside it.
  predicate Clean(n: nat) {
    SizeOf(n) == n && SizeOf(n + 1) == n
  }

  // Stepping from block to block: forward by the first word, to the last word, and backward by
  // the word just in front.
  function NextBlock(m: Words, p: nat): nat
    requires p in m.w
  {
    p + SizeOf(m.w[p])
  }

  function Footer(m: Words, p: nat): int
    requires p in m.w
  {
    p + SizeOf(m.w[p]) - WORD
  }

  function PrevBlock(m: Words, p: nat): int
    requires p >= WORD && p - WORD in m.w
  {
    p - SizeOf(m.w[p - WORD])
  }

  function Pack(b: Block): nat { b.size + if b.used then 1 else 0 }

  // A block holds its header word, and with boundary tags its footer word too.
  ghost predicate WellSized(tagged: bool, n: nat) {
    Aligned(n) && (if tagged then 16 else 8) <= n
  }

  ghost predicate Tiled(tagged: bool, m: Words, p: nat, bs: seq<Block>)
    decreases |bs|
  {
    bs == [] ||
    (&& WellSized(tagged, bs[0].size)
     && p in m.w && m.w[p] == Pack(bs[0])
     && (tagged ==> p + bs[0].size - 8 in m.w && m.w[p + bs[0].size - 8] == Pack(bs[0]))
     && Tiled(tagged, m, p + bs[0].size, bs[1..]))
  }

  // No store has touched a byte of [lo, hi): m2 agrees with m on every word that shares one.
  ghost predicate Same(m: Words, m2: Words, lo: nat, hi: nat) {
    forall a :: a < hi && lo < a + 8 && a in m.w ==> a in m2.w && m2.w[a] == m.w[a]
  }

  lemma {:induction false} TiledFrame(tagged: bool, m: Words, m2: Words, p: nat, bs: seq<Block>)
    requires Tiled(tagged, m, p, bs) && Same(m, m2, p, p + Total(bs))
    ensures Tiled(tagged, m2, p, bs)
    decreases |bs|
  {
    if bs != [] {
      TiledFrame(tagged, m, m2, p + bs[0].size, bs[1..]);
    }
  }

  lemma {:induction false} TiledConcat(tagged: bool, m: Words, p: nat, xs: seq<Block>, ys: seq<Block>)
    ensures Tiled(tagged, m, p, xs + ys) <==>
            Tiled(tagged, m, p, xs) && Tiled(tagged, m, p + Total(xs), ys)
    decreases |xs|
  {
    if xs == [] {
      assert xs + ys == ys;
    } else {
      TiledConcat(tagged, m, p + xs[0].size, xs[1..], ys);
      assert (xs + ys)[1..] == xs[1..] + ys;
    }
  }

  // A span that holds no live block overlaps none.
  lemma LiveUntouched(p: nat, xs: seq<Block>, mid: seq<Block>, ys: seq<Block>)
    requires NoneUsed(mid)
    ensures var live := Live(p, xs + mid + ys); var lo := p + Total(xs); var hi := lo + Total(mid);
            forall h :: h in live ==> h + live[h] <= lo || hi <= h
  {
    LiveConcat(p, xs + mid, ys);
    LiveConcat(p, xs, mid);
    TotalConcat(xs, mid);
    LiveNone(p + Total(xs), mid);
    LiveWithin(p, xs);
    LiveWithin(p + Total(xs + mid), ys);
  }

  // No store overlaps a live block.
  ghost predicate Kept(m: Words, m2: Words, live: map<nat, Pos>) {
    forall h :: h in live ==> Same(m, m2, h, h + live[h])
  }

  // Every store lies inside [lo, hi): m2 agrees with m on every other word.
  ghost predicate Outside(m: Words, m2: Words, lo: nat, hi: nat) {
    forall a :: a in m.w && (a < lo || hi < a + 8) ==> a in m2.w && m2.w[a] == m.w[a]
  }

  // Rewriting one stretch of blocks into another of the same span, leaving the rest alone.
  lemma TiledReplace(tagged: bool, m: Words, m2: Words, p: nat,
                     xs: seq<Block>, mid: seq<Block>, mid2: seq<Block>, ys: seq<Block>)
    requires Tiled(tagged, m, p, xs + mid + ys)
    requires Total(mid) == Total(mid2)
    requires Tiled(tagged, m2, p + Total(xs), mid2)
    requires Outside(m, m2, p + Total(xs), p + Total(xs) + Total(mid))
    ensures Tiled(tagged, m2, p, xs + mid2 + ys)
    ensures Total(xs + mid2 + ys) == Total(xs + mid + ys)
  {
    TotalConcat(xs, mid);
    TotalConcat(xs, mid2);
    TotalConcat(xs + mid, ys);
    TotalConcat(xs + mid2, ys);
    TiledConcat(tagged, m, p, xs + mid, ys);
    TiledConcat(tagged, m, p, xs, mid);
    TiledFrame(tagged, m, m2, p, xs);
    TiledFrame(tagged, m, m2, p + Total(xs) + Total(mid), ys);
    TiledConcat(tagged, m2, p, xs, mid2);
    TiledConcat(tagged, m2, p, xs + mid2, ys);
  }

  // The words of block i of a tiled stretch.
  lemma TiledAt(tagged: bool, m: Words, p: nat, bs: seq<Block>, i: nat)
    requires Tiled(tagged, m, p, bs) && i < |bs|
    ensures var h := p + Total(bs[..i]); var b := bs[i];
            && Total(bs[..i + 1]) == Total(bs[..i]) + b.size && Total(bs[..i + 1]) <= Total(bs)
            && WellSized(tagged, b.size)
            && h in m.w && m.w[h] == Pack(b)
            && (tagged ==> h + b.size - 8 in m.w && m.w[h + b.size - 8] == Pack(b))
    decreases |bs|
  {
    if i > 0 {
      TiledAt(tagged, m, p + bs[0].size, bs[1..], i - 1);
      assert bs[..i][1..] == bs[1..][..i - 1];
      assert bs[..i + 1][1..] == bs[1..][..i];
    } else {
      assert bs[..1] == [bs[0]];
      TotalOne(bs[0]);
    }
  }

  lemma KeptTrans(m: Words, m2: Words, m3: Words, live: map<nat, Pos>)
    requires Kept(m, m2, live) && Kept(m2, m3, live)
    ensures Kept(m, m3, live)
  {
    forall h | h in live ensures Same(m, m3, h, h + live[h]) {
      assert Same(m, m2, h, h + live[h]) && Same(m2, m3, h, h + live[h]);
    }
  }

  // A change confined to a stretch without live blocks keeps every live block.
  lemma KeptOutside(m: Words, m2: Words, p: nat, xs: seq<Block>, mid: seq<Block>, ys: seq<Block>)
    requires NoneUsed(mid)
    requires Outside(m, m2, p + Total(xs), p + Total(xs) + Total(mid))
    ensures Kept(m, m2, Live(p, xs + mid + ys))
  {
    LiveUntouched(p, xs, mid, ys);
  }

  // The word at h is the first word of block b.
  ghost predicate Tagged(m: Words, h: nat, b: Block) {
    h in m.w && m.w[h] == Pack(b) && SizeOf(m.w[h]) == b.size && (InUse(m.w[h]) <==> b.used)
  }

  lemma {:induction false} SizeOfEven(k: nat)
    ensures SizeOf(2 * k) == SizeOf(2 * k + 1) == 2 * k
  {
    if k > 0 {
      SizeOfEven(k - 1);
    }
  }

  lemma PackInverts(b: Block)
    requires Aligned(b.size)
    ensures SizeOf(Pack(b)) == b.size && (InUse(Pack(b)) <==> b.used)
    ensures Clean(b.size)
  {
    var k: nat :| Times8(k) == b.size;
    SizeOfEven(4 * k);
  }

  // A search standing in front of `rest` sees the first block, and the next one if there is one.
  lemma Facing(tagged: bool, m: Words, p: nat, done: seq<Block>, rest: seq<Block>)
    requires Tiled(tagged, m, p, done + rest) && rest != []
    ensures var h := p + Total(done); var next := h + rest[0].size; var end := p + Total(done + rest);
            && Tagged(m, h, rest[0]) && WellSized(tagged, rest[0].size) && h < next <= end
            && (tagged ==> next - 8 in m.w)
            && (next < end <==> |rest| > 1)
            && (|rest| > 1 ==> Tagged(m, next, rest[1]) && next + rest[1].size <= end
                               && WellSized(tagged, rest[0].size + rest[1].size)
                               && Clean(rest[0].size + rest[1].size)
                               && (tagged ==> next + rest[1].size - 8 in m.w && 16 <= rest[1].size))
  {
    TotalConcat(done, rest);
    TiledConcat(tagged, m, p, done, rest);
    PackInverts(rest[0]);
    if |rest| > 1 {
      TwoSized(tagged, m, p + Total(done), rest);
    }
  }

  lemma Passing(done: seq<Block>, rest: seq<Block>)
    requires rest != []
    ensures Total(done + [rest[0]]) == Total(done) + rest[0].size
    ensures done + [rest[0]] + rest[1..] == done + rest
  {
    TotalConcat(done, [rest[0]]);
    TotalOne(rest[0]);
  }

  lemma NothingLeft(p: nat, done: seq<Block>, rest: seq<Block>)
    ensures p + Total(done) < p + Total(done + rest) <==> rest != []
    ensures rest == [] ==> done + rest == done
  {
    TotalConcat(done, rest);
  }

  lemma TwoSized(tagged: bool, m: Words, h: nat, rest: seq<Block>)
    requires Tiled(tagged, m, h, rest) && |rest| > 1
    ensures var next := h + rest[0].size;
            && WellSized(tagged, rest[0].size + rest[1].size) && Tagged(m, next, rest[1])
            && Clean(rest[0].size + rest[1].size)
            && (tagged ==> next + rest[1].size - 8 in m.w && 16 <= rest[1].size)
  {
    assert Tiled(tagged, m, h + rest[0].size, rest[1..]);
    PackInverts(rest[1]);
    AlignedAdd(rest[0].size, rest[1].size);
    PackInverts(Block(rest[0].size + rest[1].size, false));
  }

  // What a search changes: block boundaries inside free runs, and nothing else.
  ghost predicate Searched(tagged: bool, m: Words, m2: Words, p: nat, bs: seq<Block>, bs2: seq<Block>) {
    && Tiled(tagged, m2, p, bs2)
    && m2.w.Keys == m.w.Keys
    && Total(bs2) == Total(bs)
    && Live(p, bs2) == Live(p, bs)
    && Kept(m, m2, Live(p, bs))
    && Outside(m, m2, p, p + Total(bs))
  }

  lemma SearchedTrans(tagged: bool, m: Words, m2: Words, m3: Words, p: nat,
                      bs: seq<Block>, bs2: seq<Block>, bs3: seq<Block>)
    requires Searched(tagged, m, m2, p, bs, bs2) && Searched(tagged, m2, m3, p, bs2, bs3)
    ensures Searched(tagged, m, m3, p, bs, bs3)
  {
    KeptTrans(m, m2, m3, Live(p, bs));
  }

  // The merged front of a search's rest, and the memory after the one or two stores for it.
  function Absorbed(rest: seq<Block>): seq<Block>
    requires |rest| > 1
  {
    [Block(rest[0].size + rest[1].size, false)] + rest[2..]
  }

  function Stored(tagged: bool, m: Words, h: nat, n: nat): Words
    requires n >= 8
  {
    if tagged then BothTags(m, h, n, n) else Put(m, h, n)
  }

  // Merging the block the search faces with its free neighbour: the first word takes the sum,
  // and with boundary tags so does the last.
  lemma MergeStep(tagged: bool, m: Words, m2: Words, p: nat, done: seq<Block>, rest: seq<Block>)
    requires Tiled(tagged, m, p, done + rest)
    requires |rest| > 1 && !rest[0].used && !rest[1].used
    requires var h := p + Total(done); var n := rest[0].size + rest[1].size;
             n >= 8 && m2 == Stored(tagged, m, h, n)
    ensures Searched(tagged, m, m2, p, done + rest,
                     done + Absorbed(rest))
  {
    var n := rest[0].size + rest[1].size;
    var mid, mid2, ys := rest[..2], [Block(n, false)], rest[2..];
    assert done + rest == done + mid + ys && done + (mid2 + ys) == done + mid2 + ys;
    MergeTags(tagged, m, m2, p, done, rest);
    TiledReplace(tagged, m, m2, p, done, mid, mid2, ys);
    KeptOutside(m, m2, p, done, mid, ys);
    MergeLive(p, done, rest);
    TotalConcat(done, rest);
  }

  lemma MergeTiled(tagged: bool, m: Words, m2: Words, p: nat, done: seq<Block>, rest: seq<Block>)
    requires Tiled(tagged, m, p, done + rest)
    requires |rest| > 1 && !rest[0].used && !rest[1].used
    requires var h := p + Total(done); var n := rest[0].size + rest[1].size;
             n >= 8 && m2 == Stored(tagged, m, h, n)
    ensures Tiled(tagged, m2, p, done + Absorbed(rest))
    ensures Total(done + Absorbed(rest)) == Total(done + rest)
  {
    MergeStep(tagged, m, m2, p, done, rest);
  }

  lemma MergeTags(tagged: bool, m: Words, m2: Words, p: nat, done: seq<Block>, rest: seq<Block>)
    requires Tiled(tagged, m, p, done + rest)
    requires |rest| > 1 && !rest[0].used && !rest[1].used
    requires var h := p + Total(done); var n := rest[0].size + rest[1].size;
             n >= 8 && m2 == Stored(tagged, m, h, n)
    ensures var h := p + Total(done); var n := rest[0].size + rest[1].size;
            && Tiled(tagged, m2, h, [Block(n, false)])
            && Total([Block(n, false)]) == n && Total(rest[..2]) == n && n <= Total(rest)
            && Outside(m, m2, h, h + n)
            && m2.w.Keys == m.w.Keys
  {
    TotalPair(rest);
    TotalOne(Block(rest[0].size + rest[1].size, false));
    Facing(tagged, m, p, done, rest);
    assert [Block(rest[0].size + rest[1].size, false)][1..] == [];
    assert m2.w.Keys == m.w.Keys;
  }

  lemma TotalPair(bs: seq<Block>)
    requires |bs| > 1
    ensures Total(bs[..2]) == bs[0].size + bs[1].size <= Total(bs)
  {
    assert bs[..2][1..] == [bs[1]] && bs == bs[..2] + bs[2..];
    TotalConcat(bs[..2], bs[2..]);
    TotalOne(bs[1]);
  }

  lemma MergeLive(p: nat, done: seq<Block>, rest: seq<Block>)
    requires |rest| > 1 && !rest[0].used && !rest[1].used
    ensures Live(p, done + Absorbed(rest)) == Live(p, done + rest)
  {
    var rest2 := Absorbed(rest);
    LiveConcat(p, done, rest);
    LiveConcat(p, done, rest2);
    assert rest2[1..] == rest[1..][1..];
  }

  predicate Absorbs(rest: seq<Block>, size: nat) {
    |rest| > 1 && !rest[0].used && rest[0].size < size && !rest[1].used
  }

  // The memory a search leaves behind.
  ghost function Swept(tagged: bool, m: Words, p: nat, done: seq<Block>, rest: seq<Block>, size: nat): Words
    decreases |rest|
  {
    if rest == [] || (!rest[0].used && rest[0].size >= size) then m
    else if Absorbs(rest, size) && rest[0].size + rest[1].size >= 8 then
      Swept(tagged, Stored(tagged, m, p + Total(done), rest[0].size + rest[1].size), p, done, Absorbed(rest), size)
    else Swept(tagged, m, p, done + [rest[0]], rest[1..], size)
  }

  lemma SweptAbsorbs(tagged: bool, m: Words, p: nat, done: seq<Block>, rest: seq<Block>, size: nat)
    requires Absorbs(rest, size) && rest[0].size + rest[1].size >= 8
    ensures Swept(tagged, m, p, done, rest, size) ==
            Swept(tagged, Stored(tagged, m, p + Total(done), rest[0].size + rest[1].size), p, done, Absorbed(rest), size)
    ensures Search(done, rest, size) == Search(done, Absorbed(rest), size)
  {
  }

  lemma SweptPasses(tagged: bool, m: Words, p: nat, done: seq<Block>, rest: seq<Block>, size: nat)
    requires rest != [] && (rest[0].used || rest[0].size < size) && !Absorbs(rest, size)
    ensures Swept(tagged, m, p, done, rest, size) == Swept(tagged, m, p, done + [rest[0]], rest[1..], size)
    ensures Search(done, rest, size) == Search(done + [rest[0]], rest[1..], size)
    ensures Total(done + [rest[0]]) == Total(done) + rest[0].size
    ensures done + [rest[0]] + rest[1..] == done + rest
  {
    Passing(done, rest);
  }

  lemma {:induction false} SweptSearched(tagged: bool, m: Words, p: nat, done: seq<Block>, rest: seq<Block>, size: nat)
    requires Tiled(tagged, m, p, done + rest)
    ensures var r := Search(done, rest, size);
            Searched(tagged, m, Swept(tagged, m, p, done, rest, size), p, done + rest, r.before + r.after)
    decreases |rest|
  {
    if rest == [] || (!rest[0].used && rest[0].size >= size) {
    } else {
      Facing(tagged, m, p, done, rest);
      if Absorbs(rest, size) {
        var m2 := Stored(tagged, m, p + Total(done), rest[0].size + rest[1].size);
        var r := Search(done, rest, size);
        MergeStep(tagged, m, m2, p, done, rest);
        SweptSearched(tagged, m2, p, done, Absorbed(rest), size);
        SearchedTrans(tagged, m, m2, Swept(tagged, m, p, done, rest, size), p,
                      done + rest, done + Absorbed(rest), r.before + r.after);
      } else {
        Passing(done, rest);
        SweptSearched(tagged, m, p, done + [rest[0]], rest[1..], size);
      }
    }
  }

  // With no two free neighbours there is nothing to merge and no word changes.
  lemma {:induction false} SweptSettled(tagged: bool, m: Words, p: nat, done: seq<Block>, rest: seq<Block>, size: nat)
    requires NoAdjacentFree(rest)
    ensures Swept(tagged, m, p, done, rest, size) == m
    decreases |rest|
  {
    if rest != [] {
      SweptSettled(tagged, m, p, done + [rest[0]], rest[1..], size);
      if |rest| > 1 {
        NeighbourUsed(rest, 1);
      }
    }
  }

  // Two blocks, the first in use, written over one free block.
  lemma SplitTags(tagged: bool, m: Words, h: nat, n: Pos, left: Pos)
    requires WellSized(tagged, n) && WellSized(tagged, left)
    requires h in m.w && m.w[h] == n + 1 && h + n in m.w && m.w[h + n] == left
    requires tagged ==> h + n - 8 in m.w && m.w[h + n - 8] == n + 1
    requires tagged ==> h + n + left - 8 in m.w && m.w[h + n + left - 8] == left
    ensures Tiled(tagged, m, h, [Block(n, true), Block(left, false)])
    ensures Total([Block(n, true), Block(left, false)]) == n + left
  {
    var two := [Block(n, true), Block(left, false)];
    assert two[1..] == [Block(left, false)] && two[1..][1..] == [];
    TotalOne(two[1]);
  }

  lemma OneTagged(tagged: bool, m: Words, h: nat, b: Block)
    requires WellSized(tagged, b.size)
    requires h in m.w && m.w[h] == Pack(b)
    requires tagged ==> h + b.size - 8 in m.w && m.w[h + b.size - 8] == Pack(b)
    ensures Tiled(tagged, m, h, [b]) && Total([b]) == b.size
  {
    assert [b][1..] == [];
    TotalOne(b);
  }

  // A new block at the end of the heap.
  lemma TiledGrows(tagged: bool, m: Words, m2: Words, p: nat, bs: seq<Block>, b: Block)
    requires Tiled(tagged, m, p, bs) && Same(m, m2, p, p + Total(bs))
    requires Tiled(tagged, m2, p + Total(bs), [b])
    ensures Tiled(tagged, m2, p, bs + [b]) && Total(bs + [b]) == Total(bs) + b.size
    ensures Kept(m, m2, Live(p, bs))
  {
    TiledFrame(tagged, m, m2, p, bs);
    TiledConcat(tagged, m2, p, bs, [b]);
    TotalConcat(bs, [b]);
    TotalOne(b);
    LiveWithin(p, bs);
  }

  // Each of the n bytes at lo is mapped.
  ghost predicate Mapped(m: Words, lo: nat, n: nat) {
    forall a :: lo <= a < lo + n ==> a in m.w
  }

  // Memory with the n bytes at p mapped, whatever they hold.
  function Extended(m: Words, p: nat, n: nat): (m2: Words)
    ensures Same(m, m2, 0, p) && m.w.Keys <= m2.w.Keys && Mapped(m2, p, n)
  {
    if n == 0 then m else Put(Extended(m, p, n - 1), p + n - 1, 0)
  }

  lemma {:induction false} TotalAligned(tagged: bool, m: Words, p: nat, bs: seq<Block>)
    requires Tiled(tagged, m, p, bs)
    ensures Aligned(Total(bs))
    decreases |bs|
  {
    if bs == [] {
      assert Times8(0) == 0;
    } else {
      TotalAligned(tagged, m, p + bs[0].size, bs[1..]);
      AlignedAdd(bs[0].size, Total(bs[1..]));
    }
  }

  lemma FitReplaced(tagged: bool, m: Words, m2: Words, p: nat, done: seq<Block>, rest: seq<Block>, mid: seq<Block>)
    requires Tiled(tagged, m, p, done + rest) && rest != []
    requires Total(mid) == rest[0].size && Tiled(tagged, m2, p + Total(done), mid)
    requires Outside(m, m2, p + Total(done), p + Total(done) + rest[0].size)
    ensures Tiled(tagged, m2, p, done + mid + rest[1..])
    ensures !rest[0].used ==> Kept(m, m2, Live(p, done + rest))
  {
    assert rest == [rest[0]] + rest[1..] && done + rest == done + [rest[0]] + rest[1..];
    TotalOne(rest[0]);
    TiledReplace(tagged, m, m2, p, done, [rest[0]], mid, rest[1..]);
    if !rest[0].used {
      KeptOutside(m, m2, p, done, [rest[0]], rest[1..]);
    }
  }

  // A free block whose room is enough for n bytes: what carving it may touch exists, and its
  // parts read back as they were written.
  ghost predicate Carvable(m: Words, h: nat, n: nat, size: nat, spare: nat) {
    && h in m.w && SizeOf(m.w[h]) == size && h + size - 8 in m.w
    && 16 <= n <= size && Clean(n) && Clean(size)
    && (size >= n + spare ==>
          h + n in m.w && h + n - 8 in m.w && Clean(size - n))
  }

  function Carved(m: Words, h: nat, n: nat, size: nat, spare: Pos): Words
    requires 16 <= n <= size && spare >= 8
  {
    if size >= n + spare then
      BothTags(BothTags(Put(m, h, n), h + n, size - n, size - n), h, n, n + 1)
    else
      BothTags(m, h, size, size + 1)
  }

  lemma FitCarvable(m: Words, p: nat, done: seq<Block>, rest: seq<Block>, n: Pos, spare: Pos)
    requires Tiled(true, m, p, done + rest) && Mapped(m, p, Total(done + rest))
    requires rest != [] && !rest[0].used && rest[0].size >= n && WellSized(true, n)
    ensures Carvable(m, p + Total(done), n, rest[0].size, spare)
  {
    var size := rest[0].size;
    Facing(true, m, p, done, rest);
    PackInverts(Block(n, false));
    PackInverts(Block(size, false));
    if size >= n + spare {
      AlignedAdd(size, n);
      PackInverts(Block(size - n, false));
      TotalConcat(done, rest);
    }
  }

  // Carving a fit out of a tiled heap.
  lemma CarvedTiled(m: Words, p: nat, done: seq<Block>, rest: seq<Block>, n: Pos, spare: Pos)
    requires Tiled(true, m, p, done + rest) && rest != [] && !rest[0].used && rest[0].size >= n
    requires WellSized(true, n) && spare >= 16
    requires Carvable(m, p + Total(done), n, rest[0].size, spare)
    ensures var m2 := Carved(m, p + Total(done), n, rest[0].size, spare);
            && Tiled(true, m2, p, Place(Outcome(true, done, rest), n, spare))
            && Kept(m, m2, Live(p, done + rest))
            && m2.w.Keys == m.w.Keys
            && Outside(m, m2, p + Total(done), p + Total(done) + rest[0].size)
  {
    Facing(true, m, p, done, rest);
    CarvedWords(m, p + Total(done), n, rest[0].size, spare);
    CarvedBlocks(m, p + Total(done), n, rest[0], spare);
    FitPlaced(true, m, Carved(m, p + Total(done), n, rest[0].size, spare), p, done, rest, n, spare);
  }

  lemma FitPlaced(tagged: bool, m: Words, m2: Words, p: nat, done: seq<Block>, rest: seq<Block>, n: Pos, spare: Pos)
    requires Tiled(tagged, m, p, done + rest) && rest != [] && !rest[0].used && rest[0].size >= n
    requires Tiled(tagged, m2, p + Total(done), CarvedInto(n, rest[0], spare))
    requires Total(CarvedInto(n, rest[0], spare)) == rest[0].size
    requires Outside(m, m2, p + Total(done), p + Total(done) + rest[0].size)
    ensures Tiled(tagged, m2, p, Place(Outcome(true, done, rest), n, spare))
    ensures Kept(m, m2, Live(p, done + rest))
  {
    var mid := CarvedInto(n, rest[0], spare);
    FitReplaced(tagged, m, m2, p, done, rest, mid);
    assert Place(Outcome(true, done, rest), n, spare) == done + mid + rest[1..];
  }

  function CarvedInto(n: Pos, b: Block, spare: Pos): seq<Block>
    requires b.size >= n
  {
    if b.size >= n + spare then [Block(n, true), Block(b.size - n, false)] else [Block(b.size, true)]
  }

  lemma CarvedWords(m: Words, h: nat, n: nat, size: nat, spare: Pos)
    requires spare >= 16 && Carvable(m, h, n, size, spare)
    ensures var m2 := Carved(m, h, n, size, spare);
            && Outside(m, m2, h, h + size) && m2.w.Keys == m.w.Keys
  {
    assert Carved(m, h, n, size, spare).w.Keys == m.w.Keys;
  }

  lemma CarvedBlocks(m: Words, h: nat, n: Pos, b: Block, spare: Pos)
    requires spare >= 16 && Carvable(m, h, n, b.size, spare) && WellSized(true, n) && WellSized(true, b.size)
    ensures Tiled(true, Carved(m, h, n, b.size, spare), h, CarvedInto(n, b, spare))
    ensures Total(CarvedInto(n, b, spare)) == b.size
  {
    var m2 := Carved(m, h, n, b.size, spare);
    if b.size >= n + spare {
      AlignedAdd(b.size, n);
      SplitTags(true, m2, h, n, b.size - n);
    } else {
      OneTagged(true, m2, h, Block(b.size, true));
    }
  }

  lemma TakeFits(m: Words, p: nat, done: seq<Block>, rest: seq<Block>, n: Pos, spare: Pos)
    requires Tiled(true, m, p, done + rest) && Mapped(m, p, Total(done + rest))
    requires rest != [] && !rest[0].used && rest[0].size >= n && WellSized(true, n) && spare >= 16
    ensures var h := p + Total(done); var size := rest[0].size;
            && Carvable(m, h, n, size, spare)
            && var m2 := Carved(m, h, n, size, spare); var placed := Place(Outcome(true, done, rest), n, spare);
            && Tiled(true, m2, p, placed) && Total(placed) == Total(done + rest)
            && Kept(m, m2, Live(p, done + rest)) && m2.w.Keys == m.w.Keys && Same(m, m2, 0, h)
  {
    FitCarvable(m, p, done, rest, n, spare);
    CarvedTiled(m, p, done, rest, n, spare);
    PlaceGrants(p, Outcome(true, done, rest), n, spare);
  }

  lemma NewBlock(n: Pos)
    requires Aligned(n)
    ensures Clean(n)
  {
    PackInverts(Block(n, false));
  }

  // A heap grown at its end: m1 is the memory with fresh words there, and then both tags of
  // the new block are written.
  lemma GrowsTiled(m: Words, m1: Words, m2: Words, p: nat, bs: seq<Block>, n: Pos)
    requires Tiled(true, m, p, bs) && Mapped(m, p, Total(bs)) && WellSized(true, n)
    requires Same(m, m1, 0, p + Total(bs)) && m.w.Keys <= m1.w.Keys && Mapped(m1, p + Total(bs), n)
    requires var h := p + Total(bs); m2 == BothTags(m1, h, n, n + 1)
    ensures Tiled(true, m2, p, bs + [Block(n, true)]) && Total(bs + [Block(n, true)]) == Total(bs) + n
    ensures Mapped(m2, p, Total(bs) + n)
    ensures p >= 8 && p - 8 in m.w ==> p - 8 in m2.w && m2.w[p - 8] == m.w[p - 8]
    ensures Kept(m, m2, Live(p, bs)) && Same(m, m2, 0, p + Total(bs))
  {
    var h := p + Total(bs);
    TaggedAbove(m, m1, m2, h, n);
    TiledAbove(m, m2, p, bs, n);
  }

  lemma TiledAbove(m: Words, m2: Words, p: nat, bs: seq<Block>, n: Pos)
    requires Tiled(true, m, p, bs) && Mapped(m, p, Total(bs)) && WellSized(true, n)
    requires var h := p + Total(bs);
             && Same(m, m2, 0, h) && m.w.Keys <= m2.w.Keys && Mapped(m2, h, n)
             && h in m2.w && m2.w[h] == n + 1 && h + n - 8 in m2.w && m2.w[h + n - 8] == n + 1
    ensures Tiled(true, m2, p, bs + [Block(n, true)]) && Total(bs + [Block(n, true)]) == Total(bs) + n
    ensures Mapped(m2, p, Total(bs) + n)
    ensures Kept(m, m2, Live(p, bs))
  {
    OneTagged(true, m2, p + Total(bs), Block(n, true));
    TiledGrows(true, m, m2, p, bs, Block(n, true));
  }

  lemma TaggedAbove(m: Words, m1: Words, m2: Words, h: nat, n: Pos)
    requires n >= 16 && m2 == BothTags(m1, h, n, n + 1)
    requires Same(m, m1, 0, h) && m.w.Keys <= m1.w.Keys && Mapped(m1, h, n)
    ensures Same(m, m2, 0, h) && m.w.Keys <= m2.w.Keys && Mapped(m2, h, n)
    ensures h in m2.w && m2.w[h] == n + 1 && h + n - 8 in m2.w && m2.w[h + n - 8] == n + 1
  {
  }

  // A word written inside a block, clear of its tags.
  lemma PayloadWritten(tagged: bool, m: Words, p: nat, bs: seq<Block>, i: nat, a: nat, v: nat)
    requires Tiled(tagged, m, p, bs) && i < |bs|
    requires var h := p + Total(bs[..i]); h + 8 <= a && a + 8 <= h + bs[i].size - (if tagged then 8 else 0)
    ensures Tiled(tagged, Put(m, a, v), p, bs)
  {
    TiledAt(tagged, m, p, bs, i);
    assert bs == bs[..i] + [bs[i]] + bs[i + 1..];
    TotalOne(bs[i]);
    OneTagged(tagged, Put(m, a, v), p + Total(bs[..i]), bs[i]);
    TiledReplace(tagged, m, Put(m, a, v), p, bs[..i], [bs[i]], [bs[i]], bs[i + 1..]);
  }

  // Every block starts a multiple of the alignment after the heap's start.
  lemma HeadersAligned(tagged: bool, m: Words, p: nat, bs: seq<Block>, i: nat)
    requires Tiled(tagged, m, p, bs) && i <= |bs|
    ensures Aligned(Total(bs[..i]))
  {
    assert bs == bs[..i] + bs[i..];
    TiledConcat(tagged, m, p, bs[..i], bs[i..]);
    TotalAligned(tagged, m, p, bs[..i]);
  }
}
