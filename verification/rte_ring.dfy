// The DPDK-style ring as its atomic steps: every load, store and compare-exchange of a counter,
// and every construction, move and destruction of an element, is one step, and any thread may
// take the next. Counters are kept as the number of claims or publications made so far; the
// program only ever sees their low 32 bits.
module RteRing {
  // Plain stores, compare-exchange with the expected value as the code keeps it, and the same
  // with the tail awaiting its own ticket.
  datatype Sync = ST | MT | MTInOrder

  const WRAP: nat := 0x1_0000_0000

  function Low(n: nat): nat { n % WRAP }

  function Pow2(k: nat): nat {
    if k == 0 then 1 else 2 * Pow2(k - 1)
  }

  // t & (capacity - 1) for a capacity of 2^bits: the low bits of t.
  function Index(bits: nat, t: nat): nat {
    if bits == 0 then 0 else t % 2 + 2 * Index(bits - 1, t / 2)
  }

  // capacity + cons_tail - prod_head as a uint32_t.
  function Available(cap: nat, consTail: nat, prodHead: nat): nat {
    (cap + Low(consTail) - Low(prodHead)) % WRAP
  }

  // prod_tail - cons_head as a uint32_t.
  function Length(prodTail: nat, consHead: nat): nat {
    (Low(prodTail) - Low(consHead)) % WRAP
  }

  predicate SameWord(a: nat, b: nat) { Low(a) == Low(b) }

  // Raw storage, or a constructed element.
  datatype Slot = Raw | Full(v: int)

  // A push: prod_head and cons_tail as loaded, then the claimed ticket.
  datatype ProducerPc =
    | PIdle
    | PStart(v: int)
    | PLoaded(v: int, head: nat)
    | PClaim(v: int, head: nat, tail: nat)
    | PWrite(ticket: nat, v: int)
    | PPublish(ticket: nat, expected: nat)

  datatype ConsumerPc =
    | CIdle
    | CStart
    | CLoaded(head: nat)
    | CClaim(head: nat, tail: nat)
    | CMove(ticket: nat)
    | CDestroy(ticket: nat, v: int)
    | CPublish(ticket: nat, expected: nat, v: int)

  datatype State = State(
    sync: Sync,
    bits: nat,             // the capacity is 2^bits
    prodHead: nat, prodTail: nat,
    consHead: nat, consTail: nat,
    slots: seq<Slot>,
    producers: seq<ProducerPc>,
    consumers: seq<ConsumerPc>,
    log: seq<int>,         // the value claimed for each ticket
    got: map<nat, int>,    // the value moved out for each ticket
    fault: bool)           // a live slot was constructed over, or a raw one read or destroyed

  datatype Action = PushCall(i: nat, v: int) | PopCall(j: nat) | Produce(i: nat) | Consume(j: nat)

  predicate Enabled(s: State, a: Action) {
    |s.slots| == Pow2(s.bits) &&
    match a
    case PushCall(i, v) => i < |s.producers| && s.producers[i].PIdle?
    case PopCall(j) => j < |s.consumers| && s.consumers[j].CIdle?
    case Produce(i) => i < |s.producers| && !s.producers[i].PIdle?
    case Consume(j) => j < |s.consumers| && !s.consumers[j].CIdle?
  }

  lemma {:induction false} IndexInRange(bits: nat, t: nat)
    ensures Index(bits, t) < Pow2(bits)
  {
    if bits > 0 {
      IndexInRange(bits - 1, t / 2);
    }
  }

  // Claiming the next ticket, for a head that has not moved since it was loaded (always so in
  // the ST branch, which does not look).
  predicate ClaimSucceeds(sync: Sync, current: nat, loaded: nat) {
    sync.ST? || SameWord(current, loaded)
  }

  predicate PublishSucceeds(sync: Sync, current: nat, ticket: nat, expected: nat) {
    match sync
    case ST => true
    case MT => SameWord(current, expected)
    case MTInOrder => SameWord(current, ticket)
  }

  // A store of prod_head_next in the ST branch puts back the head it loaded, plus one.
  function Claimed(sync: Sync, current: nat, loaded: nat): nat {
    if sync.ST? then loaded else current
  }

  function ProducerNext(s: State, i: nat): State
    requires Enabled(s, Produce(i))
  {
    var ps := s.producers;
    match ps[i]
    case PStart(v) => s.(producers := ps[i := PLoaded(v, s.prodHead)])
    case PLoaded(v, head) =>
      if Available(Pow2(s.bits), s.consTail, head) == 0 then s.(producers := ps[i := PIdle])
      else s.(producers := ps[i := PClaim(v, head, s.consTail)])
    case PClaim(v, head, tail) =>
      if ClaimSucceeds(s.sync, s.prodHead, head) then
        var t := Claimed(s.sync, s.prodHead, head);
        s.(prodHead := t + 1, producers := ps[i := PWrite(t, v)], log := s.log + [v])
      else s.(producers := ps[i := PStart(v)])
    case PWrite(t, v) =>
      IndexInRange(s.bits, t);
      var k := Index(s.bits, t);
      s.(slots := s.slots[k := Full(v)], fault := s.fault || s.slots[k].Full?,
         producers := ps[i := PPublish(t, t)])
    case PPublish(t, expected) =>
      if PublishSucceeds(s.sync, s.prodTail, t, expected) then s.(prodTail := t + 1, producers := ps[i := PIdle])
      else s.(producers := ps[i := PPublish(t, s.prodTail)])
    case PIdle => s
  }

  function ConsumerNext(s: State, j: nat): State
    requires Enabled(s, Consume(j))
  {
    var cs := s.consumers;
    match cs[j]
    case CStart => s.(consumers := cs[j := CLoaded(s.consHead)])
    case CLoaded(head) =>
      if Length(s.prodTail, head) == 0 then s.(consumers := cs[j := CIdle])
      else s.(consumers := cs[j := CClaim(head, s.prodTail)])
    case CClaim(head, tail) =>
      if ClaimSucceeds(s.sync, s.consHead, head) then
        var t := Claimed(s.sync, s.consHead, head);
        s.(consHead := t + 1, consumers := cs[j := CMove(t)])
      else s.(consumers := cs[j := CStart])
    case CMove(t) =>
      IndexInRange(s.bits, t);
      (match s.slots[Index(s.bits, t)]
       case Full(v) => s.(got := s.got[t := v], consumers := cs[j := CDestroy(t, v)])
       case Raw => s.(fault := true, consumers := cs[j := CDestroy(t, 0)]))
    case CDestroy(t, v) =>
      IndexInRange(s.bits, t);
      var k := Index(s.bits, t);
      s.(slots := s.slots[k := Raw], fault := s.fault || s.slots[k].Raw?,
         consumers := cs[j := CPublish(t, t, v)])
    case CPublish(t, expected, v) =>
      if PublishSucceeds(s.sync, s.consTail, t, expected) then s.(consTail := t + 1, consumers := cs[j := CIdle])
      else s.(consumers := cs[j := CPublish(t, s.consTail, v)])
    case CIdle => s
  }

  function Next(s: State, a: Action): State
    requires Enabled(s, a)
  {
    match a
    case PushCall(i, v) => s.(producers := s.producers[i := PStart(v)])
    case PopCall(j) => s.(consumers := s.consumers[j := CStart])
    case Produce(i) => ProducerNext(s, i)
    case Consume(j) => ConsumerNext(s, j)
  }

  ghost predicate Init(s: State) {
    && s.prodHead == s.prodTail == s.consHead == s.consTail == 0
    && |s.slots| == Pow2(s.bits) && (forall k :: 0 <= k < |s.slots| ==> s.slots[k] == Raw)
    && (forall p :: p in s.producers ==> p == PIdle)
    && (forall c :: c in s.consumers ==> c == CIdle)
    && s.log == [] && s.got == map[] && !s.fault
  }

  ghost predicate Run(run: seq<State>, acts: seq<Action>) {
    |run| == |acts| + 1 && Init(run[0]) && forall k :: 0 <= k < |acts| ==> StepAt(run, acts, k)
  }

  ghost predicate StepAt(run: seq<State>, acts: seq<Action>, k: nat)
    requires k < |acts| && |run| == |acts| + 1
  {
    Enabled(run[k], acts[k]) && run[k + 1] == Next(run[k], acts[k])
  }

  // ----- 32-bit arithmetic -----

  lemma ModShift(x: int, q: int)
    ensures (x + WRAP * q) % WRAP == x % WRAP
  {
  }

  // Wrapped subtraction gives the true distance, across overflow.
  lemma WrappedDistance(k: int, a: nat, b: nat)
    ensures (k + Low(a) - Low(b)) % WRAP == (k + a - b) % WRAP
    ensures 0 <= k + a - b < WRAP ==> (k + Low(a) - Low(b)) % WRAP == k + a - b
  {
    var q := a / WRAP - b / WRAP;
    assert k + a - b == (k + Low(a) - Low(b)) + WRAP * q;
    ModShift(k + Low(a) - Low(b), q);
  }

  lemma SameWordNear(a: nat, b: nat)
    requires SameWord(a, b) && a <= b < a + WRAP
    ensures a == b
  {
    WrappedDistance(0, b, a);
  }

  lemma SameWordExactly(a: nat, b: nat)
    requires a <= b
    ensures SameWord(a, b) <==> (b - a) % WRAP == 0
    ensures b < a + WRAP ==> (SameWord(a, b) <==> a == b)
  {
    WrappedDistance(0, b, a);
  }

  lemma {:induction false} Pow2Positive(k: nat)
    ensures Pow2(k) > 0
  {
    if k > 0 {
      Pow2Positive(k - 1);
    }
  }

  lemma {:induction false} Pow2Monotone(j: nat, k: nat)
    requires j <= k
    ensures Pow2(j) <= Pow2(k)
    decreases k
  {
    if j < k {
      Pow2Monotone(j, k - 1);
      Pow2Positive(k - 1);
    }
  }

  lemma WrapIsPow2()
    ensures Pow2(32) == WRAP
  {
    assert Pow2(8) == 256;
    assert Pow2(16) == 256 * Pow2(8);
    assert Pow2(24) == 256 * Pow2(16);
  }

  // The bits above those that Index keeps.
  function High(bits: nat, t: nat): nat {
    if bits == 0 then t else High(bits - 1, t / 2)
  }

  lemma {:induction false} IndexAndHigh(bits: nat, t: nat)
    ensures t == Index(bits, t) + Times(Pow2(bits), High(bits, t))
  {
    if bits == 0 {
      TimesOne(t);
    } else {
      IndexAndHigh(bits - 1, t / 2);
      TimesDoubled(Pow2(bits - 1), High(bits - 1, t / 2));
    }
  }

  // Multiples by repeated addition, so that no proof has to reason about products.
  function Times(c: nat, k: nat): nat {
    if k == 0 then 0 else c + Times(c, k - 1)
  }

  lemma {:induction false} TimesOne(k: nat)
    ensures Times(1, k) == k
  {
    if k > 0 {
      TimesOne(k - 1);
    }
  }

  lemma {:induction false} TimesDoubled(c: nat, k: nat)
    ensures 2 * Times(c, k) == Times(2 * c, k)
  {
    if k > 0 {
      TimesDoubled(c, k - 1);
    }
  }

  // The slot of a ticket is the ticket modulo the capacity.
  lemma IndexIsRemainder(bits: nat, t: nat)
    ensures Pow2(bits) > 0 && Index(bits, t) == t % Pow2(bits)
  {
    Pow2Positive(bits);
    IndexInRange(bits, t);
    IndexAndHigh(bits, t);
    TimesRemainder(Pow2(bits), Index(bits, t), High(bits, t));
  }

  lemma {:induction false} TimesRemainder(c: nat, x: nat, k: nat)
    requires x < c
    ensures (x + Times(c, k)) % c == x
  {
    if k > 0 {
      TimesRemainder(c, x, k - 1);
      AddModulus(c, x + Times(c, k - 1));
    }
  }

  lemma AddModulus(c: nat, y: nat)
    requires c > 0
    ensures (y + c) % c == y % c
  {
    var d := (y + c) / c - y / c - 1;
    assert d * c == ((y + c) / c) * c - (y / c) * c - c;
    assert d * c == y % c - (y + c) % c;
    MultipleOutside(d, c);
  }

  lemma MultipleOutside(d: int, c: nat)
    ensures d >= 1 ==> d * c >= c
    ensures d <= -1 ==> d * c + c <= 0
  {
    if d >= 1 {
      assert (d - 1) * c >= 0;
    } else if d <= -1 {
      assert (-d - 1) * c >= 0;
    }
  }

  // Tickets less than a capacity apart never share a slot.
  lemma SlotsDiffer(bits: nat, t: nat, t2: nat)
    requires t < t2 < t + Pow2(bits)
    ensures Index(bits, t) != Index(bits, t2)
  {
    IndexAndHigh(bits, t);
    IndexAndHigh(bits, t2);
    MultiplesApart(Pow2(bits), High(bits, t2), High(bits, t));
  }

  function SlotAt(bits: nat, slots: seq<Slot>, t: nat): Slot
    requires |slots| == Pow2(bits)
  {
    IndexInRange(bits, t);
    slots[Index(bits, t)]
  }

  // Writing a ticket's slot leaves every other ticket of the window alone.
  lemma OneSlotWritten(bits: nat, slots: seq<Slot>, slots2: seq<Slot>, lo: nat, t: nat, x: Slot)
    requires |slots| == Pow2(bits) && lo <= t < lo + Pow2(bits)
    requires Index(bits, t) < |slots| ==> slots2 == slots[Index(bits, t) := x]
    ensures |slots2| == |slots| && Index(bits, t) < |slots|
    ensures slots[Index(bits, t)] == SlotAt(bits, slots, t) && SlotAt(bits, slots2, t) == x
    ensures forall u: nat :: lo <= u < lo + Pow2(bits) && u != t ==> SlotAt(bits, slots2, u) == SlotAt(bits, slots, u)
  {
    IndexInRange(bits, t);
    forall u: nat | lo <= u < lo + Pow2(bits) && u != t ensures SlotAt(bits, slots2, u) == SlotAt(bits, slots, u) {
      IndexInRange(bits, u);
      if u < t {
        SlotsDiffer(bits, u, t);
      } else {
        SlotsDiffer(bits, t, u);
      }
    }
  }

  lemma {:induction false} MultiplesApart(c: nat, x: nat, y: nat)
    ensures x <= y ==> Times(c, x) <= Times(c, y)
    ensures x > y ==> Times(c, x) >= Times(c, y) + c
    decreases x + y
  {
    if 0 < x && 0 < y {
      MultiplesApart(c, x - 1, y - 1);
    } else if x > 1 {
      MultiplesApart(c, x - 1, y);
    }
  }

  lemma {:induction false} IndexRepeats(bits: nat, t: nat)
    ensures Index(bits, t + Pow2(bits)) == Index(bits, t)
  {
    if bits > 0 {
      assert (t + Pow2(bits)) / 2 == t / 2 + Pow2(bits - 1) && (t + Pow2(bits)) % 2 == t % 2;
      IndexRepeats(bits - 1, t / 2);
    }
  }

  lemma {:induction false} IndexOfLow(bits: nat, n: nat, t: nat)
    requires bits <= n
    ensures Index(bits, Index(n, t)) == Index(bits, t)
  {
    if bits > 0 {
      var x := Index(n - 1, t / 2);
      assert (t % 2 + 2 * x) % 2 == t % 2 && (t % 2 + 2 * x) / 2 == x;
      IndexOfLow(bits - 1, n - 1, t / 2);
    }
  }

  // Masking one past a masked position masks one past the position itself.
  lemma {:induction false} IndexSucc(bits: nat, t: nat)
    ensures Index(bits, Index(bits, t) + 1) == Index(bits, t + 1)
  {
    if bits > 0 {
      var h := t / 2;
      var x := Index(bits - 1, h);
      if t % 2 == 0 {
        IndexDoubled(bits, x, 1);
        IndexDoubled(bits, h, 1);
        IndexOfLow(bits - 1, bits - 1, h);
      } else {
        IndexDoubled(bits, x + 1, 0);
        IndexDoubled(bits, h + 1, 0);
        IndexSucc(bits - 1, h);
      }
    }
  }

  lemma IndexDoubled(bits: nat, h: nat, b: nat)
    requires bits > 0 && b < 2
    ensures Index(bits, 2 * h + b) == b + 2 * Index(bits - 1, h)
  {
    assert (2 * h + b) % 2 == b && (2 * h + b) / 2 == h;
  }

  lemma {:induction false} LowBits(t: nat, x: nat, q: nat)
    requires x < WRAP && t == x + Times(WRAP, q)
    ensures Low(t) == x
  {
    if q > 0 {
      LowBits(t - WRAP, x, q - 1);
      ModShift(t - WRAP, 1);
    }
  }

  // The program masks the 32-bit word, which names the same slot as the ticket itself.
  lemma MaskingTheWord(bits: nat, t: nat)
    requires bits <= 32
    ensures Index(bits, Low(t)) == Index(bits, t)
  {
    WrapIsPow2();
    IndexAndHigh(32, t);
    IndexInRange(32, t);
    LowBits(t, Index(32, t), High(32, t));
    IndexOfLow(bits, 32, t);
  }
}
