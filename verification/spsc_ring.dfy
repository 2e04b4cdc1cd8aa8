// The single-producer single-consumer ring. Each atomic access and each touch of a slot is a
// method of its own, so any interleaving of the two threads is a sequence of these calls; every
// one of them keeps Valid().
module SpscRing {
  import R = RteRing

  // Where push stands: tail loaded, room found, element constructed.
  datatype PushPc = PushIdle | PushLoaded(v: int, tail: nat) | PushRoom(v: int, tail: nat) | PushBuilt(tail: nat)

  // Where pop stands: tail loaded, an element found, moved out, destroyed.
  datatype PopPc = PopIdle | PopLoaded(tail: nat) | PopFound(head: nat) | PopMoved(head: nat, v: int) | PopGone(v: int)

  // Elements number lo and up live in their slots; the rest of the ring is raw.
  ghost predicate SlotsOk(bits: nat, slots: seq<R.Slot>, lo: nat, built: seq<int>)
    requires |slots| == R.Pow2(bits)
  {
    && (forall t: nat :: lo <= t < |built| ==> R.SlotAt(bits, slots, t) == R.Full(built[t]))
    && (forall t: nat :: |built| <= t < lo + R.Pow2(bits) ==> R.SlotAt(bits, slots, t) == R.Raw)
  }

  lemma BuildKeeps(bits: nat, slots: seq<R.Slot>, lo: nat, built: seq<int>, v: int)
    requires |slots| == R.Pow2(bits) && SlotsOk(bits, slots, lo, built)
    requires lo <= |built| < lo + R.Pow2(bits)
    ensures var k := R.Index(bits, |built|);
            k < |slots| && slots[k] == R.Raw && SlotsOk(bits, slots[k := R.Full(v)], lo, built + [v])
  {
    R.IndexInRange(bits, |built|);
    R.OneSlotWritten(bits, slots, slots[R.Index(bits, |built|) := R.Full(v)], lo, |built|, R.Full(v));
    assert R.SlotAt(bits, slots, |built|) == R.Raw;
  }

  lemma ClearKeeps(bits: nat, slots: seq<R.Slot>, lo: nat, built: seq<int>)
    requires |slots| == R.Pow2(bits) && SlotsOk(bits, slots, lo, built)
    requires lo < |built| <= lo + R.Pow2(bits)
    ensures var k := R.Index(bits, lo);
            k < |slots| && slots[k] == R.Full(built[lo]) && SlotsOk(bits, slots[k := R.Raw], lo + 1, built)
  {
    R.IndexInRange(bits, lo);
    R.IndexRepeats(bits, lo);
    R.OneSlotWritten(bits, slots, slots[R.Index(bits, lo) := R.Raw], lo, lo, R.Raw);
    assert R.SlotAt(bits, slots, lo) == R.Full(built[lo]);
  }

  lemma SameSlot(bits: nat, t: nat, t2: nat)
    requires t <= t2 <= t + R.Pow2(bits)
    ensures R.Index(bits, t) == R.Index(bits, t2) <==> t == t2 || t2 == t + R.Pow2(bits)
  {
    if t < t2 < t + R.Pow2(bits) {
      R.SlotsDiffer(bits, t, t2);
    }
    R.IndexRepeats(bits, t);
  }

  lemma FrontOf(xs: seq<int>, lo: nat, hi: nat)
    requires lo < hi <= |xs|
    ensures xs[lo..hi] == [xs[lo]] + xs[lo + 1..hi]
  {
  }

  class Ring {
    const bits: nat          // the capacity is 2^bits
    const data: array<R.Slot>
    var head: nat
    var tail: nat
    var push: PushPc
    var pop: PopPc

    ghost var removed: nat          // pops published
    ghost var added: nat            // pushes published
    ghost var seen: nat             // `added` when pop loaded tail
    ghost var built: seq<int>       // every element constructed, in order
    ghost var destroyed: seq<int>   // every element destroyed, in order

    // What the ring holds for its users.
    ghost function Contents(): seq<int>
      requires removed <= added <= |built|
      reads this
    {
      built[removed..added]
    }

    ghost function FirstBuilt(): nat
      reads this
    {
      removed + if pop.PopGone? then 1 else 0
    }

    ghost predicate Valid()
      reads this, data
    {
      && data.Length == R.Pow2(bits)
      && removed <= added < removed + data.Length
      && head == R.Index(bits, removed) && tail == R.Index(bits, added)
      && |built| == added + (if push.PushBuilt? then 1 else 0)
      && FirstBuilt() <= |built| && destroyed == built[..FirstBuilt()]
      && SlotsOk(bits, data[..], FirstBuilt(), built)
      && PushOk() && PopOk()
    }

    ghost predicate PushOk()
      reads this
    {
      match push
      case PushIdle => true
      case PushLoaded(_, t) => t == tail
      case PushRoom(_, t) => t == tail && added + 1 < removed + data.Length
      case PushBuilt(t) => t == tail && added + 1 < removed + data.Length
    }

    ghost predicate PopOk()
      requires removed <= added <= |built|
      reads this
    {
      match pop
      case PopIdle => true
      case PopLoaded(t) => removed <= seen <= added && t == R.Index(bits, seen)
      case PopFound(h) => h == head && removed < added
      case PopMoved(h, v) => h == head && removed < added && v == built[removed]
      case PopGone(v) => removed < added && v == built[removed]
    }

    function NextPos(pos: nat): nat {
      R.Index(bits, pos + 1)
    }

    constructor (bits: nat)
      ensures Valid() && Contents() == [] && destroyed == [] && this.bits == bits
      ensures push.PushIdle? && pop.PopIdle? && fresh(data)
    {
      this.bits := bits;
      R.Pow2Positive(bits);
      data := new R.Slot[R.Pow2(bits)](_ => R.Raw);
      head, tail := 0, 0;
      push, pop := PushIdle, PopIdle;
      removed, added, seen := 0, 0, 0;
      built, destroyed := [], [];
      new;
      IndexOfZero(bits);
      forall t: nat ensures R.SlotAt(bits, data[..], t) == R.Raw {
        R.IndexInRange(bits, t);
      }
    }

    method PushStart(v: int)
      requires Valid() && push.PushIdle?
      modifies this`push
      ensures Valid() && push == PushLoaded(v, tail)
    {
      push := PushLoaded(v, tail);
    }

    // push fails exactly when the ring holds capacity - 1 elements at its load of head.
    method PushTest() returns (ok: bool)
      requires Valid() && push.PushLoaded?
      modifies this`push
      ensures Valid()
      ensures ok <==> |Contents()| < data.Length - 1
      ensures push == if ok then PushRoom(old(push).v, tail) else PushIdle
    {
      R.IndexSucc(bits, added);
      SameSlot(bits, removed, added + 1);
      ok := NextPos(push.tail) != head;
      push := if ok then PushRoom(push.v, push.tail) else PushIdle;
    }

    // Constructs over raw storage.
    method PushConstruct()
      requires Valid() && push.PushRoom?
      modifies this`push, this`built, data
      ensures Valid() && push == PushBuilt(tail)
      ensures built == old(built) + [old(push).v] && Contents() == old(Contents())
    {
      BuildKeeps(bits, data[..], FirstBuilt(), built, push.v);
      assert data[push.tail] == R.Raw;
      data[push.tail] := R.Full(push.v);
      built := built + [push.v];
      push := PushBuilt(push.tail);
    }

    method PushPublish()
      requires Valid() && push.PushBuilt?
      modifies this`push, this`tail, this`added
      ensures Valid() && push.PushIdle?
      ensures Contents() == old(Contents()) + [built[|built| - 1]]
    {
      R.IndexSucc(bits, added);
      tail := NextPos(push.tail);
      added := added + 1;
      push := PushIdle;
    }

    method PopStart()
      requires Valid() && pop.PopIdle?
      modifies this`pop, this`seen
      ensures Valid() && pop == PopLoaded(tail) && seen == added
    {
      pop := PopLoaded(tail);
      seen := added;
    }

    // pop fails exactly when the ring was empty at its load of tail.
    method PopTest() returns (ok: bool)
      requires Valid() && pop.PopLoaded?
      modifies this`pop
      ensures Valid()
      ensures ok <==> removed < seen
      ensures pop == if ok then PopFound(head) else PopIdle
    {
      SameSlot(bits, removed, seen);
      ok := head != pop.tail;
      pop := if ok then PopFound(head) else PopIdle;
    }

    // Moves out of a constructed element.
    method PopMove() returns (v: int)
      requires Valid() && pop.PopFound?
      modifies this`pop
      ensures Valid() && pop == PopMoved(head, v) && v == Contents()[0]
    {
      ClearKeeps(bits, data[..], removed, built);
      v := data[pop.head].v;
      pop := PopMoved(pop.head, v);
    }

    method PopDestroy()
      requires Valid() && pop.PopMoved?
      modifies this`pop, this`destroyed, data
      ensures Valid() && pop == PopGone(old(pop).v)
      ensures destroyed == old(destroyed) + [old(pop).v] && Contents() == old(Contents())
    {
      ClearKeeps(bits, data[..], removed, built);
      assert data[pop.head].Full?;
      data[pop.head] := R.Raw;
      destroyed := destroyed + [built[removed]];
      pop := PopGone(pop.v);
    }

    method PopPublish()
      requires Valid() && pop.PopGone?
      modifies this`pop, this`head, this`removed
      ensures Valid() && pop.PopIdle?
      ensures old(Contents()) == [old(pop).v] + Contents()
    {
      R.IndexSucc(bits, removed);
      FrontOf(built, removed, added);
      head := NextPos(head);
      removed := removed + 1;
      pop := PopIdle;
    }

    // The destructor, once both threads are done: what is left is destroyed, so that every
    // element constructed has been destroyed exactly once, in order.
    method Destroy()
      requires Valid() && push.PushIdle? && pop.PopIdle?
      modifies this`head, this`removed, this`destroyed, data
      ensures destroyed == built && SlotsOk(bits, data[..], |built|, built)
    {
      while head != tail
        invariant removed <= added == |built| <= removed + data.Length
        invariant head == R.Index(bits, removed) && destroyed == built[..removed]
        invariant added < removed + data.Length && SlotsOk(bits, data[..], removed, built)
        decreases added - removed
      {
        SameSlot(bits, removed, added);
        ClearKeeps(bits, data[..], removed, built);
        R.IndexSucc(bits, removed);
        assert data[head].Full?;
        data[head] := R.Raw;
        destroyed := destroyed + [built[removed]];
        head := NextPos(head);
        removed := removed + 1;
      }
      SameSlot(bits, removed, added);
    }
  }

  lemma {:induction false} IndexOfZero(bits: nat)
    ensures R.Index(bits, 0) == 0
  {
    if bits > 0 {
      IndexOfZero(bits - 1);
    }
  }
}
